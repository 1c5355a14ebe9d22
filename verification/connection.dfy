/** The database connection both scripts hold: the tables as the open
    transaction sees them, and the tables as last committed. A cursor
    statement changes `work`; `Commit` makes `work` durable and `Rollback`
    discards it. */
module Database {
  import opened Rows

  class Connection {
    /** The tables as seen inside the open transaction. */
    var work: Tables
    /** The tables as last committed. */
    var committed: Tables

    /** A fresh connection: no transaction has written anything yet. */
    constructor(initial: Tables)
      ensures work == initial && committed == initial
    {
      work := initial;
      committed := initial;
    }

    /** `conn.commit()`: every write of the transaction persists. */
    method Commit()
      modifies this
      ensures committed == old(work) && work == old(work)
    {
      committed := work;
    }

    /** `conn.rollback()`: every write of the transaction is discarded. */
    method Rollback()
      modifies this
      ensures work == old(committed) && committed == old(committed)
    {
      work := committed;
    }
  }
}

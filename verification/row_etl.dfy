/** The row-by-row job (etl.v1.py): each file is read and written on its own,
    with single-row statements, and committed right after it: per NextSong
    event of a log file, and for a song file one song upsert and one artist
    upsert from its first record. There is no error handling: the first
    error ends the run, the file in progress is never committed, and the
    files before it stay committed. */
module RowEtl {
  import opened Rows
  import opened Text
  import opened Calendar
  import opened Statements
  import opened Extract
  import opened Database

  // ---------------------------------------------------------------------------
  // process_song_file

  /** `process_song_file`: upsert the song and the artist of the file's first
      record; an empty file parses to a frame with no columns and no rows, so
      selecting its song columns raises a lookup error. */
  function SongFileV1(t: Tables, file: seq<SongRecord>): Outcome
  {
    if file == [] then Outcome(t, Some(LookupError))
    else
      var rec := file[0];
      Outcome(t.(songs := Upsert(t.songs, rec.songId, SongRowOf(rec)),
                 artists := Upsert(t.artists, rec.artistId, ArtistRowOf(rec))), None)
  }

  /** A song file fails exactly when it is empty; otherwise it writes exactly
      one song and one artist, both from its first record, and no other row. */
  lemma SongFileV1Spec(t: Tables, file: seq<SongRecord>)
    ensures SongFileV1(t, file).error.Some? <==> file == []
    ensures SongFileV1(t, file).error.Some? ==> SongFileV1(t, file).error == Some(LookupError)
    ensures file != [] ==>
              var s := SongFileV1(t, file).state;
              && s.songs.Keys == t.songs.Keys + {file[0].songId}
              && s.songs[file[0].songId] == SongRowOf(file[0])
              && s.artists.Keys == t.artists.Keys + {file[0].artistId}
              && s.artists[file[0].artistId] == ArtistRowOf(file[0])
              && (forall k | k in t.songs && k != file[0].songId :: s.songs[k] == t.songs[k])
              && (forall k | k in t.artists && k != file[0].artistId :: s.artists[k] == t.artists[k])
              && s == t.(songs := s.songs, artists := s.artists)
  {
  }

  /** Unlike the batch COPY, processing a song file twice is harmless: the
      second time changes nothing. */
  lemma SongFileV1Idempotent(t: Tables, file: seq<SongRecord>)
    ensures SongFileV1(SongFileV1(t, file).state, file) == SongFileV1(t, file)
  {
    if file != [] {
      var rec := file[0];
      UpsertIdempotent(t.songs, rec.songId, SongRowOf(rec));
      UpsertIdempotent(t.artists, rec.artistId, ArtistRowOf(rec));
    }
  }

  method ProcessSongFile(conn: Connection, file: seq<SongRecord>) returns (err: Option<ErrorKind>)
    modifies conn
    ensures conn.committed == old(conn.committed)
    ensures Outcome(conn.work, err) == SongFileV1(old(conn.work), file)
  {
    if file == [] {
      return Some(LookupError);
    }
    var rec := file[0];
    conn.work := conn.work.(songs := Upsert(conn.work.songs, rec.songId, SongRowOf(rec)));
    conn.work := conn.work.(artists := Upsert(conn.work.artists, rec.artistId, ArtistRowOf(rec)));
    return None;
  }

  // ---------------------------------------------------------------------------
  // process_log_file: the rows of each statement

  /** The time rows, one per event, in order, with no deduplication. */
  function TimeRowsV1(ev: seq<LogEvent>): (r: seq<(Timestamp, TimeRow)>)
    ensures |r| == |ev| && forall i | 0 <= i < |ev| :: r[i] == (ev[i].ts, TimeRowOf(ev[i].ts))
  {
    WithCalendar(Timestamps(ev))
  }

  /** The users statement accepts an event's row: user_id is a bigint the
      userId text denotes, and first_name and last_name are NOT NULL. */
  predicate ValidUserV1(e: LogEvent)
  {
    HasUserId(e) && e.firstName.Some? && e.lastName.Some?
  }

  function UserPairV1(e: LogEvent): (UserId, UserRow)
    requires ValidUserV1(e)
  {
    (ParseInt(e.userId.value).value, UserRow(e.firstName.value, e.lastName.value, e.gender, e.level))
  }

  /** The user rows of events all accepted by the users statement, in order. */
  function UserPairsV1(ev: seq<LogEvent>): (r: seq<(UserId, UserRow)>)
    requires forall i | 0 <= i < |ev| :: ValidUserV1(ev[i])
    ensures |r| == |ev| && forall i | 0 <= i < |ev| :: r[i] == UserPairV1(ev[i])
  {
    seq(|ev|, i requires 0 <= i < |ev| => UserPairV1(ev[i]))
  }

  /** The index of the first event the users statement rejects, |ev| if none. */
  function FirstBadUser(ev: seq<LogEvent>): (n: nat)
    ensures n <= |ev| && (forall i | 0 <= i < n :: ValidUserV1(ev[i]))
    ensures n < |ev| ==> !ValidUserV1(ev[n])
  {
    if ev == [] || !ValidUserV1(ev[0]) then 0
    else
      var n := 1 + FirstBadUser(ev[1..]);
      assert forall i | 1 <= i < n :: ev[i] == ev[1..][i - 1];
      n
  }

  /** The server's choice of the row `fetchone()` returns from a result set:
      `song_select` has no ORDER BY, so which matching row comes first is up
      to the server. */
  type Fetch = set<(SongId, ArtistId)> -> (SongId, ArtistId)

  /** A server's choice is always one of the rows of a non-empty result. */
  ghost predicate FetchesFrom(fetch: Fetch)
  {
    forall s: set<(SongId, ArtistId)> | s != {} :: fetch(s) in s
  }

  /** `song_select` then `fetchone()`: both ids from the fetched row, or both
      None when the query returns no row. */
  function Lookup(songs: map<SongId, SongRow>, artists: map<ArtistId, ArtistRow>, e: LogEvent, fetch: Fetch)
    : (Option<SongId>, Option<ArtistId>)
  {
    var results := SongSelect(songs, artists, e.song, e.artist, e.length);
    if results == {} then (None, None) else (Some(fetch(results).0), Some(fetch(results).1))
  }

  /** Both ids are found or neither is; none is found exactly when
      `song_select` returns no row, and ids found are a row it returns: a
      song with the event's title and duration, by an artist with the
      event's name. */
  lemma LookupSpec(songs: map<SongId, SongRow>, artists: map<ArtistId, ArtistRow>, e: LogEvent, fetch: Fetch)
    requires FetchesFrom(fetch)
    ensures var r := Lookup(songs, artists, e, fetch);
            var select := SongSelect(songs, artists, e.song, e.artist, e.length);
            && (r.0.Some? <==> r.1.Some?)
            && (r.0.None? <==> select == {})
            && (r.0.Some? ==>
                  && (r.0.value, r.1.value) in select
                  && r.0.value in songs && r.1.value in artists && songs[r.0.value].artistId == r.1.value
                  && e.song == Some(songs[r.0.value].title) && e.artist == Some(artists[r.1.value].name)
                  && e.length == Some(songs[r.0.value].duration))
  {
    SongSelectSpec(songs, artists, e.song, e.artist, e.length);
  }

  /** The songplays row of an event, keyed by `f"{sessionId}-{ts}"`. */
  function SongplayPairV1(songs: map<SongId, SongRow>, artists: map<ArtistId, ArtistRow>, e: LogEvent, fetch: Fetch)
    : (SongplayId, SongplayRow)
    requires HasUserId(e)
  {
    var ids := Lookup(songs, artists, e, fetch);
    (SongplayId(e.sessionId, e.ts),
     SongplayRow(e.ts, ParseInt(e.userId.value).value, e.level, ids.0, ids.1,
                 IntToString(e.sessionId), e.location, e.userAgent))
  }

  /** The songplays rows of events whose user_id the table accepts, in order. */
  function SongplayPairsV1(songs: map<SongId, SongRow>, artists: map<ArtistId, ArtistRow>,
                           ev: seq<LogEvent>, fetch: Fetch)
    : (r: seq<(SongplayId, SongplayRow)>)
    requires forall i | 0 <= i < |ev| :: HasUserId(ev[i])
    ensures |r| == |ev| && forall i | 0 <= i < |ev| :: r[i] == SongplayPairV1(songs, artists, ev[i], fetch)
  {
    seq(|ev|, i requires 0 <= i < |ev| => SongplayPairV1(songs, artists, ev[i], fetch))
  }

  /** The index of the first event whose user_id the songplays table rejects,
      |ev| if none. */
  function FirstBadSongplay(ev: seq<LogEvent>): (n: nat)
    ensures n <= |ev| && (forall i | 0 <= i < n :: HasUserId(ev[i]))
    ensures n < |ev| ==> !HasUserId(ev[n])
  {
    if ev == [] || !HasUserId(ev[0]) then 0
    else
      var n := 1 + FirstBadSongplay(ev[1..]);
      assert forall i | 1 <= i < n :: ev[i] == ev[1..][i - 1];
      n
  }

  // ---------------------------------------------------------------------------
  // process_log_file

  /** The first loop of `process_log_file`: one DO NOTHING insert into time
      per event. */
  function TimeStage(t: Tables, ev: seq<LogEvent>): Tables
  {
    t.(time := InsertIgnoreAll(t.time, TimeRowsV1(ev)))
  }

  /** The second loop: one upsert into users per event, up to the first the
      table rejects. */
  function UserStage(t: Tables, ev: seq<LogEvent>): Outcome
  {
    var n := FirstBadUser(ev);
    Outcome(t.(users := UpsertAll(t.users, UserPairsV1(ev[..n]))),
            if n < |ev| then Some(DatabaseError) else None)
  }

  /** The third loop: one songplays upsert per event, up to the first the
      table rejects; the song lookup reads the tables as they stand. */
  function SongplayStage(t: Tables, ev: seq<LogEvent>, fetch: Fetch): Outcome
  {
    var m := FirstBadSongplay(ev);
    Outcome(t.(songplays := UpsertAll(t.songplays, SongplayPairsV1(t.songs, t.artists, ev[..m], fetch))),
            if m < |ev| then Some(DatabaseError) else None)
  }

  /** The three loops over the events, the third only when the second
      raised nothing. */
  function LogEventsV1(t: Tables, ev: seq<LogEvent>, fetch: Fetch): Outcome
  {
    var u := UserStage(TimeStage(t, ev), ev);
    if u.error.Some? then u else SongplayStage(u.state, ev, fetch)
  }

  /** `process_log_file`: the three loops over the file's NextSong events.
      An empty file parses to a frame with no columns, so reading its `page`
      column raises a lookup error. */
  function LogFileV1(t: Tables, file: seq<LogEvent>, fetch: Fetch): Outcome
  {
    if file == [] then Outcome(t, Some(LookupError))
    else LogEventsV1(t, NextSongs(file), fetch)
  }

  method InsertTimes(conn: Connection, ev: seq<LogEvent>)
    modifies conn
    ensures conn.committed == old(conn.committed)
    ensures conn.work == TimeStage(old(conn.work), ev)
  {
    ghost var t := conn.work;
    ghost var rows := TimeRowsV1(ev);
    var i := 0;
    while i < |ev|
      invariant 0 <= i <= |ev| && conn.committed == old(conn.committed)
      invariant conn.work == t.(time := InsertIgnoreAll(t.time, rows[..i]))
    {
      conn.work := conn.work.(time := InsertIgnore(conn.work.time, ev[i].ts, TimeRowOf(ev[i].ts)));
      assert rows[..i + 1][..i] == rows[..i];
      i := i + 1;
    }
    assert rows[..i] == rows;
  }

  method InsertUsers(conn: Connection, ev: seq<LogEvent>) returns (err: Option<ErrorKind>)
    modifies conn
    ensures conn.committed == old(conn.committed)
    ensures Outcome(conn.work, err) == UserStage(old(conn.work), ev)
  {
    ghost var t := conn.work;
    ghost var n := FirstBadUser(ev);
    ghost var rows := UserPairsV1(ev[..n]);
    var i := 0;
    // the loop ends at the first row the table rejects, with the error
    while i < |ev| && ValidUserV1(ev[i])
      invariant 0 <= i <= |ev| && i <= n == |rows| && conn.committed == old(conn.committed)
      invariant conn.work.users == UpsertAll(t.users, rows[..i])
      invariant conn.work == t.(users := conn.work.users)
    {
      assert i < n;
      var p := UserPairV1(ev[i]);
      assert p == rows[i];
      conn.work := conn.work.(users := Upsert(conn.work.users, p.0, p.1));
      UpsertAllStep(t.users, rows, i);
      i := i + 1;
    }
    assert rows[..i] == rows;
    err := if i < |ev| then Some(DatabaseError) else None;
  }

  method InsertSongplays(conn: Connection, ev: seq<LogEvent>, fetch: Fetch) returns (err: Option<ErrorKind>)
    modifies conn
    ensures conn.committed == old(conn.committed)
    ensures Outcome(conn.work, err) == SongplayStage(old(conn.work), ev, fetch)
  {
    ghost var t := conn.work;
    ghost var m := FirstBadSongplay(ev);
    ghost var rows := SongplayPairsV1(t.songs, t.artists, ev[..m], fetch);
    var i := 0;
    // the loop ends at the first row the table rejects, with the error
    while i < |ev| && HasUserId(ev[i])
      invariant 0 <= i <= |ev| && i <= m == |rows| && conn.committed == old(conn.committed)
      invariant conn.work.songplays == UpsertAll(t.songplays, rows[..i])
      invariant conn.work == t.(songplays := conn.work.songplays)
    {
      assert i < m;
      var p := SongplayPairV1(conn.work.songs, conn.work.artists, ev[i], fetch);
      assert p == rows[i];
      conn.work := conn.work.(songplays := Upsert(conn.work.songplays, p.0, p.1));
      UpsertAllStep(t.songplays, rows, i);
      i := i + 1;
    }
    assert rows[..i] == rows;
    err := if i < |ev| then Some(DatabaseError) else None;
  }

  method ProcessLogFile(conn: Connection, file: seq<LogEvent>, fetch: Fetch) returns (err: Option<ErrorKind>)
    modifies conn
    ensures conn.committed == old(conn.committed)
    ensures Outcome(conn.work, err) == LogFileV1(old(conn.work), file, fetch)
  {
    if file == [] {
      return Some(LookupError);
    }
    var ev := NextSongs(file);
    InsertTimes(conn, ev);
    err := InsertUsers(conn, ev);
    if err.None? {
      err := InsertSongplays(conn, ev, fetch);
    }
  }

  // ---------------------------------------------------------------------------
  // Properties of a log file

  /** Time rows are inserted one per event with DO NOTHING: a timestamp
      already in the table keeps its row, and a new one gets the row of its
      first event, which carries that timestamp's calendar fields. */
  lemma TimeStageSpec(t: Tables, ev: seq<LogEvent>, i: nat)
    requires i < |ev|
    ensures var time := TimeStage(t, ev).time;
            && ev[i].ts in time
            && (ev[i].ts in t.time ==> time[ev[i].ts] == t.time[ev[i].ts])
            && (ev[i].ts !in t.time ==>
                  var rows := TimeRowsV1(ev);
                  FirstIndex(rows, ev[i].ts) <= i && time[ev[i].ts] == rows[FirstIndex(rows, ev[i].ts)].1
                  && time[ev[i].ts] == TimeRowOf(ev[i].ts))
  {
    var rows := TimeRowsV1(ev);
    assert rows[i].0 == ev[i].ts;
    if ev[i].ts !in t.time {
      InsertIgnoreAllFirstWins(t.time, rows, ev[i].ts);
    }
  }

  /** The users loop fails exactly when an event's user is rejected, and
      then with a database error. Only users changes. */
  lemma UserStageSpec(t: Tables, ev: seq<LogEvent>)
    ensures var u := UserStage(t, ev);
            && (u.error.Some? <==> exists i | 0 <= i < |ev| :: !ValidUserV1(ev[i]))
            && (u.error.Some? ==> u.error == Some(DatabaseError))
            && u.state == t.(users := u.state.users)
  {
  }

  /** After a successful users loop each event's user id holds the row of
      the last event with that id (its level, say, is the last event's
      level). */
  lemma UserStageLastWins(t: Tables, ev: seq<LogEvent>, i: nat)
    requires UserStage(t, ev).error.None? && i < |ev|
    ensures var users := UserStage(t, ev).state.users;
            var rows := UserPairsV1(ev);
            && ValidUserV1(ev[i])
            && rows[i].0 in users
            && users[rows[i].0] == rows[LastIndex(rows, rows[i].0)].1
  {
    var rows := UserPairsV1(ev);
    assert ev[..|ev|] == ev;
    UpsertAllLastWins(t.users, rows, rows[i].0);
  }

  /** The songplays loop fails exactly when an event's user_id is rejected,
      and then with a database error. Only songplays changes. */
  lemma SongplayStageSpec(t: Tables, ev: seq<LogEvent>, fetch: Fetch)
    ensures var s := SongplayStage(t, ev, fetch);
            && (s.error.Some? <==> exists i | 0 <= i < |ev| :: !HasUserId(ev[i]))
            && (s.error.Some? ==> s.error == Some(DatabaseError))
            && s.state == t.(songplays := s.state.songplays)
  {
  }

  /** After a successful songplays loop each event's songplay id holds the
      row of the last event with that session and timestamp. */
  lemma SongplayStageLastWins(t: Tables, ev: seq<LogEvent>, fetch: Fetch, i: nat)
    requires SongplayStage(t, ev, fetch).error.None? && i < |ev|
    ensures var songplays := SongplayStage(t, ev, fetch).state.songplays;
            var plays := SongplayPairsV1(t.songs, t.artists, ev, fetch);
            var id := SongplayId(ev[i].sessionId, ev[i].ts);
            && id in songplays && songplays[id] == plays[LastIndex(plays, id)].1
  {
    var rows := SongplayPairsV1(t.songs, t.artists, ev, fetch);
    assert ev[..|ev|] == ev;
    UpsertAllLastWins(t.songplays, rows, rows[i].0);
  }

  /** The row an event proposes for songplays: keyed by its session and
      timestamp, with its timestamp and user, and song_id and artist_id both
      set (to a row `song_select` returns) or both NULL (when it returns
      none). */
  lemma SongplayPairV1Spec(songs: map<SongId, SongRow>, artists: map<ArtistId, ArtistRow>, e: LogEvent, fetch: Fetch)
    requires FetchesFrom(fetch) && HasUserId(e)
    ensures var (id, row) := SongplayPairV1(songs, artists, e, fetch);
            var select := SongSelect(songs, artists, e.song, e.artist, e.length);
            && id == SongplayId(e.sessionId, e.ts)
            && row.startTime == e.ts && Some(row.userId) == ParseInt(e.userId.value)
            && row.sessionId == IntToString(e.sessionId)
            && (row.songId.Some? <==> row.artistId.Some?)
            && (row.songId.None? <==> select == {})
            && (row.songId.Some? ==> (row.songId.value, row.artistId.value) in select)
  {
    LookupSpec(songs, artists, e, fetch);
  }

  /** Only NextSong events are processed: a file with some NextSong event
      does what the file of just those events does, and a non-empty file with
      none changes nothing and succeeds. */
  lemma LogFileV1OnlyNextSong(t: Tables, file: seq<LogEvent>, fetch: Fetch)
    ensures NextSongs(file) != [] ==> LogFileV1(t, file, fetch) == LogFileV1(t, NextSongs(file), fetch)
    ensures file != [] && NextSongs(file) == [] ==> LogFileV1(t, file, fetch) == Outcome(t, None)
  {
    NextSongsIdempotent(file);
    if file != [] && NextSongs(file) == [] {
      var ev: seq<LogEvent> := [];
      assert TimeStage(t, ev) == t;
      assert UserStage(t, ev) == Outcome(t, None) by {
        assert ev[..0] == [];
      }
      assert SongplayStage(t, ev, fetch) == Outcome(t, None) by {
        assert ev[..0] == [];
      }
    }
  }

  /** A log file raises a lookup error exactly when it is empty; otherwise it
      fails exactly when one of its NextSong events has a user the users
      table rejects, with a database error. Songs and artists are never
      written. */
  lemma LogFileV1Errors(t: Tables, file: seq<LogEvent>, fetch: Fetch)
    ensures LogFileV1(t, file, fetch).error == Some(LookupError) <==> file == []
    ensures LogFileV1(t, file, fetch).error == Some(DatabaseError) <==>
              file != [] && exists i | 0 <= i < |NextSongs(file)| :: !ValidUserV1(NextSongs(file)[i])
    ensures LogFileV1(t, file, fetch).error in {None, Some(LookupError), Some(DatabaseError)}
    ensures LogFileV1(t, file, fetch).state.songs == t.songs
    ensures LogFileV1(t, file, fetch).state.artists == t.artists
  {
    var o := LogFileV1(t, file, fetch);
    if file == [] {
      assert o == Outcome(t, Some(LookupError));
    } else {
      var ev := NextSongs(file);
      assert o == LogEventsV1(t, ev, fetch);
      LogEventsV1Errors(t, ev, fetch);
      var bad := exists i | 0 <= i < |ev| :: !ValidUserV1(ev[i]);
      assert o.error.Some? <==> bad;
      assert o.error == Some(DatabaseError) <==> bad;
    }
  }

  /** A log file fails exactly when one of its NextSong events has a user the
      users table rejects (no null or empty-id filtering happens first), and
      then with a database error; songs and artists are never written. */
  lemma LogEventsV1Errors(t: Tables, ev: seq<LogEvent>, fetch: Fetch)
    ensures var o := LogEventsV1(t, ev, fetch);
            && (o.error.Some? <==> exists i | 0 <= i < |ev| :: !ValidUserV1(ev[i]))
            && (o.error.Some? ==> o.error == Some(DatabaseError))
            && o.state.songs == t.songs && o.state.artists == t.artists
  {
    var t1 := TimeStage(t, ev);
    UserStageSpec(t1, ev);
    var u := UserStage(t1, ev);
    if u.error.None? {
      SongplayStageSpec(u.state, ev, fetch);
      assert forall i | 0 <= i < |ev| :: HasUserId(ev[i]) by {
        forall i | 0 <= i < |ev| ensures HasUserId(ev[i]) {
          assert ValidUserV1(ev[i]);
        }
      }
    }
  }

  /** Every event's timestamp is in time after a log file, failed or not: a
      timestamp already there keeps its row, and a new one carries its
      calendar fields. */
  lemma LogEventsV1Time(t: Tables, ev: seq<LogEvent>, fetch: Fetch, i: nat)
    requires i < |ev|
    ensures var time := LogEventsV1(t, ev, fetch).state.time;
            && ev[i].ts in time
            && (ev[i].ts in t.time ==> time[ev[i].ts] == t.time[ev[i].ts])
            && (ev[i].ts !in t.time ==> time[ev[i].ts] == TimeRowOf(ev[i].ts))
  {
    var t1 := TimeStage(t, ev);
    TimeStageSpec(t, ev, i);
    UserStageSpec(t1, ev);
    var u := UserStage(t1, ev);
    SongplayStageSpec(u.state, ev, fetch);
  }

  /** After a successful log file, each event's user id holds the row of
      the last event with that id. */
  lemma LogEventsV1Users(t: Tables, ev: seq<LogEvent>, fetch: Fetch, i: nat)
    requires LogEventsV1(t, ev, fetch).error.None? && i < |ev|
    ensures var users := LogEventsV1(t, ev, fetch).state.users;
            var rows := UserPairsV1(ev);
            && rows[i].0 in users && users[rows[i].0] == rows[LastIndex(rows, rows[i].0)].1
  {
    var t1 := TimeStage(t, ev);
    UserStageSpec(t1, ev);
    UserStageLastWins(t1, ev, i);
    var u := UserStage(t1, ev);
    SongplayStageSpec(u.state, ev, fetch);
  }

  /** After a successful log file, each event's songplay id holds the row
      of the last event with that id, its song and artist looked up in the
      song and artist tables as they stood before the file. */
  lemma LogEventsV1Songplays(t: Tables, ev: seq<LogEvent>, fetch: Fetch, i: nat)
    requires LogEventsV1(t, ev, fetch).error.None? && i < |ev|
    ensures var songplays := LogEventsV1(t, ev, fetch).state.songplays;
            var plays := SongplayPairsV1(t.songs, t.artists, ev, fetch);
            var id := SongplayId(ev[i].sessionId, ev[i].ts);
            && id in songplays && songplays[id] == plays[LastIndex(plays, id)].1
  {
    var t1 := TimeStage(t, ev);
    UserStageSpec(t1, ev);
    var u := UserStage(t1, ev);
    assert u.state.songs == t.songs && u.state.artists == t.artists;
    SongplayStageLastWins(u.state, ev, fetch, i);
  }

  /** After a log file's events, inserting their time rows again changes
      nothing: every timestamp is already in time. */
  lemma TimeStageAfterEvents(t: Tables, ev: seq<LogEvent>, fetch: Fetch)
    ensures var s := LogEventsV1(t, ev, fetch).state;
            TimeStage(s, ev) == s
  {
    var s := LogEventsV1(t, ev, fetch).state;
    var t1 := TimeStage(t, ev);
    UserStageSpec(t1, ev);
    SongplayStageSpec(UserStage(t1, ev).state, ev, fetch);
    assert s.time == t1.time;
    InsertIgnoreAllPresent(s.time, TimeRowsV1(ev));
  }

  /** The users loop run again on tables whose users it already wrote
      writes nothing new and stops where it stopped before. */
  lemma UserStageAgain(t: Tables, s: Tables, ev: seq<LogEvent>)
    requires s.users == UserStage(t, ev).state.users
    ensures UserStage(s, ev) == Outcome(s, UserStage(t, ev).error)
  {
    UpsertAllIdempotent(t.users, UserPairsV1(ev[..FirstBadUser(ev)]));
  }

  /** The songplays loop run again on tables whose songplays it already
      wrote, with the same songs and artists to look up, writes nothing new
      and stops where it stopped before. */
  lemma SongplayStageAgain(t: Tables, s: Tables, ev: seq<LogEvent>, fetch: Fetch)
    requires s.songplays == SongplayStage(t, ev, fetch).state.songplays
    requires s.songs == t.songs && s.artists == t.artists
    ensures SongplayStage(s, ev, fetch) == Outcome(s, SongplayStage(t, ev, fetch).error)
  {
    var m := FirstBadSongplay(ev);
    UpsertAllIdempotent(t.songplays, SongplayPairsV1(t.songs, t.artists, ev[..m], fetch));
  }

  /** Unlike the batch COPY, processing a log file's events twice is
      harmless: the second time changes nothing and raises what the first
      raised. The DO NOTHING inserts meet present timestamps, and the upserts
      of users and songplays write the rows they already hold; songs and
      artists, which the song lookups read, are not written in between. */
  lemma LogEventsV1Idempotent(t: Tables, ev: seq<LogEvent>, fetch: Fetch)
    ensures LogEventsV1(LogEventsV1(t, ev, fetch).state, ev, fetch) == LogEventsV1(t, ev, fetch)
  {
    var o := LogEventsV1(t, ev, fetch);
    var s := o.state;
    var t1 := TimeStage(t, ev);
    var u := UserStage(t1, ev);
    UserStageSpec(t1, ev);
    TimeStageAfterEvents(t, ev, fetch);
    if u.error.None? {
      SongplayStageSpec(u.state, ev, fetch);
      UserStageAgain(t1, s, ev);
      SongplayStageAgain(u.state, s, ev, fetch);
    } else {
      UserStageAgain(t1, s, ev);
    }
  }

  /** Processing a log file twice is the same as processing it once. */
  lemma LogFileV1Idempotent(t: Tables, file: seq<LogEvent>, fetch: Fetch)
    ensures LogFileV1(LogFileV1(t, file, fetch).state, file, fetch) == LogFileV1(t, file, fetch)
  {
    if file != [] {
      LogEventsV1Idempotent(t, NextSongs(file), fetch);
    }
  }

  // ---------------------------------------------------------------------------
  // process_data: one transaction per file

  /** What processing file `i` of a batch does. */
  function FileV1(t: Tables, batch: Batch, i: nat, fetch: Fetch): Outcome
    requires i < batch.NumFiles()
  {
    match batch
    case SongFiles(files) => SongFileV1(t, files[i])
    case LogFiles(files) => LogFileV1(t, files[i], fetch)
  }

  method ProcessFileV1(conn: Connection, batch: Batch, i: nat, fetch: Fetch) returns (err: Option<ErrorKind>)
    requires i < batch.NumFiles()
    modifies conn
    ensures conn.committed == old(conn.committed)
    ensures Outcome(conn.work, err) == FileV1(old(conn.work), batch, i, fetch)
  {
    match batch {
      case SongFiles(files) =>
        err := ProcessSongFile(conn, files[i]);
      case LogFiles(files) =>
        err := ProcessLogFile(conn, files[i], fetch);
    }
  }

  /** Where a run stands after it has gone through the first files: the
      committed tables, how many files were committed, and the error that
      ended it, if any. */
  datatype RunState = RunState(committed: Tables, processed: nat, error: Option<ErrorKind>)

  /** The per-file commit loop over the first `n` files of a batch: each
      file that succeeds is committed; the first error ends the run. */
  function Run(t: Tables, batch: Batch, fetch: Fetch, n: nat): (r: RunState)
    requires n <= batch.NumFiles()
    ensures r.processed <= n && (r.error.None? ==> r.processed == n)
  {
    if n == 0 then RunState(t, 0, None)
    else
      var prev := Run(t, batch, fetch, n - 1);
      if prev.error.Some? then prev
      else
        var o := FileV1(prev.committed, batch, n - 1, fetch);
        if o.error.Some? then RunState(prev.committed, n - 1, o.error)
        else RunState(o.state, n, None)
  }

  /** One iteration of `process_data` on a run that has committed the first
      `i` files: process file `i` and commit it if it raised nothing. An error
      is where the whole run ends. */
  method ProcessAndCommit(conn: Connection, batch: Batch, fetch: Fetch, ghost t: Tables, i: nat)
    returns (err: Option<ErrorKind>)
    requires i < batch.NumFiles() && conn.work == conn.committed
    requires Run(t, batch, fetch, i) == RunState(conn.committed, i, None)
    modifies conn
    ensures err.None? ==> Run(t, batch, fetch, i + 1) == RunState(conn.committed, i + 1, None)
                          && conn.work == conn.committed
    ensures err.Some? ==> conn.committed == old(conn.committed)
                          && Run(t, batch, fetch, batch.NumFiles()) == RunState(conn.committed, i, err)
                          && FileV1(conn.committed, batch, i, fetch) == Outcome(conn.work, err)
  {
    err := ProcessFileV1(conn, batch, i, fetch);
    RunNext(t, batch, fetch, i);
    if err.None? {
      conn.Commit();
    } else {
      RunStops(t, batch, fetch, i + 1, batch.NumFiles());
    }
  }

  /** `process_data`, on a connection with nothing pending (as `main` opens
      it): process and commit each file in turn. An error ends the run: the
      files before the failing one stay committed exactly as a run over them
      alone commits them, the failing file raised that error, and its writes
      are left uncommitted in the open transaction. */
  method ProcessDataV1(conn: Connection, batch: Batch, fetch: Fetch) returns (processed: nat, err: Option<ErrorKind>)
    requires conn.work == conn.committed
    modifies conn
    ensures RunState(conn.committed, processed, err) == Run(old(conn.work), batch, fetch, batch.NumFiles())
    ensures err.None? ==> conn.work == conn.committed
    ensures err.Some? ==> processed < batch.NumFiles()
                          && Run(old(conn.work), batch, fetch, processed) == RunState(conn.committed, processed, None)
                          && FileV1(conn.committed, batch, processed, fetch) == Outcome(conn.work, err)
  {
    ghost var t := conn.work;
    var i := 0;
    while i < batch.NumFiles()
      invariant 0 <= i <= batch.NumFiles()
      invariant Run(t, batch, fetch, i) == RunState(conn.committed, i, None)
      invariant conn.work == conn.committed
    {
      var e := ProcessAndCommit(conn, batch, fetch, t, i);
      if e.Some? {
        return i, e;
      }
      i := i + 1;
    }
    return i, None;
  }

  // ---------------------------------------------------------------------------
  // Properties of a run

  /** A run that has committed the first `i` files goes on with file `i`:
      committed if it succeeds, the end of the run if it fails. */
  lemma RunNext(t: Tables, batch: Batch, fetch: Fetch, i: nat)
    requires i < batch.NumFiles() && Run(t, batch, fetch, i).error.None?
    ensures var c := Run(t, batch, fetch, i).committed;
            var o := FileV1(c, batch, i, fetch);
            Run(t, batch, fetch, i + 1)
              == if o.error.Some? then RunState(c, i, o.error) else RunState(o.state, i + 1, None)
  {
  }

  /** A run that has ended stays where it is when it meets one more file. */
  lemma RunAfterError(t: Tables, batch: Batch, fetch: Fetch, n: nat)
    requires n < batch.NumFiles() && Run(t, batch, fetch, n).error.Some?
    ensures Run(t, batch, fetch, n + 1) == Run(t, batch, fetch, n)
  {
  }

  /** Once a file has failed, later files change nothing: the run has ended. */
  lemma RunStops(t: Tables, batch: Batch, fetch: Fetch, k: nat, n: nat)
    requires k <= n <= batch.NumFiles() && Run(t, batch, fetch, k).error.Some?
    ensures Run(t, batch, fetch, n) == Run(t, batch, fetch, k)
  {
    var j := k;
    while j < n
      invariant k <= j <= n && Run(t, batch, fetch, j) == Run(t, batch, fetch, k)
    {
      RunAfterError(t, batch, fetch, j);
      j := j + 1;
    }
  }
}

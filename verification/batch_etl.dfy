/** The batch job (etl.py): every song file is loaded in one transaction, then
    every log file in another. Each table is loaded with one `COPY` of a whole
    frame (a plain insert of every row, with no conflict clause), and the log
    batch ends with the set-based join into songplays. `process_data` commits
    when the batch finishes and rolls back on a database error; any other
    error leaves the transaction open and propagates. */
module BatchEtl {
  import opened Rows
  import opened Text
  import opened Calendar
  import opened Statements
  import opened Frames
  import opened Extract
  import opened Database

  // ---------------------------------------------------------------------------
  // The frames each batch copies

  /** The frames `process_all_song_files` copies into songs and artists. */
  datatype SongFrames = SongFrames(songs: seq<(SongId, SongRow)>, artists: seq<(ArtistId, ArtistRow)>)

  function SongFramesOf(files: seq<seq<SongRecord>>): SongFrames
  {
    var frame := SongFrame(files);
    SongFrames(SongRows(frame), ArtistRows(frame))
  }

  /** Both frames have unique keys: the song ids of all records, and the artist
      ids of the records that survive the song deduplication. */
  lemma SongFramesKeys(files: seq<seq<SongRecord>>)
    ensures var f := SongFramesOf(files);
            && UniqueKeys(f.songs) && KeysOf(f.songs) == KeysOf(KeyBySongId(Concat(files)))
            && UniqueKeys(f.artists) && KeysOf(f.artists) == KeysOf(ArtistColumns(SongFrame(files)))
  {
    var frame := SongFrame(files);
    SameKeys(frame, SongRows(frame));
  }

  /** The frames `process_all_log_files` copies into time, users and the
      staging table; None where building the frame fails (`astype(int)` for
      users, the bigint user_id column for staging). */
  datatype LogFrames = LogFrames(time: seq<(Timestamp, TimeRow)>,
                                 users: Option<seq<(UserId, UserRow)>>,
                                 staging: Option<seq<(SongplayId, StagingRow)>>)

  function LogFramesOf(files: seq<seq<LogEvent>>): LogFrames
  {
    var ev := NextSongs(Concat(files));
    LogFrames(TimeRows(ev), CleanUsers(ev), StagingRows(ev))
  }

  // ---------------------------------------------------------------------------
  // What each batch does to the tables

  /** `process_all_song_files`: COPY the songs frame, then the artists frame;
      the first failing COPY ends the batch. */
  function SongBatch(t: Tables, f: SongFrames): Outcome
  {
    match CopyRows(t.songs, f.songs)
    case None => Outcome(t, Some(DatabaseError))
    case Some(songs) =>
      var t1 := t.(songs := songs);
      match CopyRows(t1.artists, f.artists)
      case None => Outcome(t1, Some(DatabaseError))
      case Some(artists) => Outcome(t1.(artists := artists), None)
  }

  /** `process_all_log_files`, statement by statement: COPY time; clean users
      (`astype(int)` may raise a ValueError); COPY users; create the staging
      table if it does not exist; COPY staging; run the join. */
  function LogBatch(t: Tables, f: LogFrames): Outcome
  {
    match CopyRows(t.time, f.time)
    case None => Outcome(t, Some(DatabaseError))
    case Some(time) =>
      var t1 := t.(time := time);
      match f.users
      case None => Outcome(t1, Some(ValueError))
      case Some(userRows) =>
        match CopyRows(t1.users, userRows)
        case None => Outcome(t1, Some(DatabaseError))
        case Some(users) =>
          var t2 := t1.(users := users, staging := Some(StagingOrEmpty(t1.staging)));
          LoadSongplays(t2, f.staging)
  }

  /** `CREATE TEMP TABLE IF NOT EXISTS temp_log_data`: an existing staging
      table keeps its rows. */
  function StagingOrEmpty(staging: Option<map<SongplayId, StagingRow>>): (r: map<SongplayId, StagingRow>)
    ensures staging.Some? ==> r == staging.value
    ensures staging.None? ==> r == map[]
  {
    if staging.Some? then staging.value else map[]
  }

  /** COPY into the staging table, then the join into songplays. */
  function LoadSongplays(t: Tables, staged: Option<seq<(SongplayId, StagingRow)>>): Outcome
    requires t.staging.Some?
  {
    match staged
    case None => Outcome(t, Some(DatabaseError))
    case Some(rows) =>
      match CopyRows(t.staging.value, rows)
      case None => Outcome(t, Some(DatabaseError))
      case Some(staging) =>
        var t1 := t.(staging := Some(staging));
        match JoinInsert(t1.songplays, staging, t1.songs, t1.artists)
        case None => Outcome(t1, Some(DatabaseError))
        case Some(songplays) => Outcome(t1.(songplays := songplays), None)
  }

  /** Loading the songplays writes only the staging table and songplays. */
  lemma LoadSongplaysFrame(t: Tables, staged: Option<seq<(SongplayId, StagingRow)>>)
    requires t.staging.Some?
    ensures var s := LoadSongplays(t, staged).state;
            s == t.(staging := s.staging, songplays := s.songplays)
  {
  }

  /** The error of `pd.concat` over a batch's files and of the first column
      read from its result: no file at all is a ValueError ("No objects to
      concatenate"); files that are all empty concatenate to a frame with no
      columns, so selecting one (the `song_id` subset, the `page` column)
      raises a KeyError. */
  function ConcatError<T>(files: seq<seq<T>>): Option<ErrorKind>
  {
    if files == [] then Some(ValueError)
    else if Concat(files) == [] then Some(LookupError)
    else None
  }

  /** `process_all_song_files` on the files themselves. */
  function SongFilesBatch(t: Tables, files: seq<seq<SongRecord>>): Outcome
  {
    if ConcatError(files).Some? then Outcome(t, ConcatError(files))
    else SongBatch(t, SongFramesOf(files))
  }

  /** `process_all_log_files` on the files themselves. */
  function LogFilesBatch(t: Tables, files: seq<seq<LogEvent>>): Outcome
  {
    if ConcatError(files).Some? then Outcome(t, ConcatError(files))
    else LogBatch(t, LogFramesOf(files))
  }

  function BatchOutcome(t: Tables, batch: Batch): Outcome
  {
    match batch
    case SongFiles(files) => SongFilesBatch(t, files)
    case LogFiles(files) => LogFilesBatch(t, files)
  }

  // ---------------------------------------------------------------------------
  // The loading code, statement by statement on the connection

  /** `process_all_song_files`. */
  method ProcessAllSongFiles(conn: Connection, files: seq<seq<SongRecord>>) returns (err: Option<ErrorKind>)
    modifies conn
    ensures conn.committed == old(conn.committed)
    ensures Outcome(conn.work, err) == SongFilesBatch(old(conn.work), files)
  {
    if files == [] {
      return Some(ValueError);
    }
    if Concat(files) == [] {
      return Some(LookupError);
    }
    var frame := SongFramesOf(files);
    var songs := CopyRows(conn.work.songs, frame.songs);
    if songs.None? {
      return Some(DatabaseError);
    }
    conn.work := conn.work.(songs := songs.value);
    var artists := CopyRows(conn.work.artists, frame.artists);
    if artists.None? {
      return Some(DatabaseError);
    }
    conn.work := conn.work.(artists := artists.value);
    return None;
  }

  /** `process_all_log_files`. */
  method ProcessAllLogFiles(conn: Connection, files: seq<seq<LogEvent>>) returns (err: Option<ErrorKind>)
    modifies conn
    ensures conn.committed == old(conn.committed)
    ensures Outcome(conn.work, err) == LogFilesBatch(old(conn.work), files)
  {
    if files == [] {
      return Some(ValueError);
    }
    if Concat(files) == [] {
      return Some(LookupError);
    }
    var ev := NextSongs(Concat(files));
    var time := CopyRows(conn.work.time, TimeRows(ev));
    if time.None? {
      return Some(DatabaseError);
    }
    conn.work := conn.work.(time := time.value);
    var userRows := CleanUsers(ev);
    if userRows.None? {
      return Some(ValueError);
    }
    var users := CopyRows(conn.work.users, userRows.value);
    if users.None? {
      return Some(DatabaseError);
    }
    conn.work := conn.work.(users := users.value);
    if conn.work.staging.None? {
      conn.work := conn.work.(staging := Some(map[]));
    }
    var staged := StagingRows(ev);
    if staged.None? {
      return Some(DatabaseError);
    }
    var staging := CopyRows(conn.work.staging.value, staged.value);
    if staging.None? {
      return Some(DatabaseError);
    }
    conn.work := conn.work.(staging := Some(staging.value));
    var songplays := JoinInsert(conn.work.songplays, staging.value, conn.work.songs, conn.work.artists);
    if songplays.None? {
      return Some(DatabaseError);
    }
    conn.work := conn.work.(songplays := songplays.value);
    return None;
  }

  /** How `process_data` ends. */
  datatype RunResult = Committed | RolledBack | Raised(kind: ErrorKind)

  /** `process_data`: the whole batch commits, or a database error rolls all
      of it back, or another error propagates with nothing committed. */
  method ProcessData(conn: Connection, batch: Batch) returns (r: RunResult)
    modifies conn
    ensures var o := BatchOutcome(old(conn.work), batch);
            && (o.error.None? ==> r == Committed && conn.committed == o.state && conn.work == o.state)
            && (o.error == Some(DatabaseError) ==>
                  r == RolledBack && conn.committed == old(conn.committed) && conn.work == old(conn.committed))
            && (o.error.Some? && o.error != Some(DatabaseError) ==>
                  r == Raised(o.error.value) && conn.committed == old(conn.committed) && conn.work == o.state)
  {
    var err;
    match batch {
      case SongFiles(files) =>
        err := ProcessAllSongFiles(conn, files);
      case LogFiles(files) =>
        err := ProcessAllLogFiles(conn, files);
    }
    if err.None? {
      conn.Commit();
      r := Committed;
    } else if err == Some(DatabaseError) {
      conn.Rollback();
      r := RolledBack;
    } else {
      r := Raised(err.value);
    }
  }

  // ---------------------------------------------------------------------------
  // Properties of the song batch

  /** The song batch fails exactly when a frame repeats a key or one of its
      keys is already in the table; the only error is a database error. */
  lemma SongBatchFailsIff(t: Tables, f: SongFrames)
    ensures SongBatch(t, f).error.None? <==>
              && t.songs.Keys !! KeysOf(f.songs) && UniqueKeys(f.songs)
              && t.artists.Keys !! KeysOf(f.artists) && UniqueKeys(f.artists)
    ensures SongBatch(t, f).error.None? || SongBatch(t, f).error == Some(DatabaseError)
  {
  }

  /** On success songs and artists gain exactly the frames' rows and the other
      tables are untouched. */
  lemma SongBatchState(t: Tables, f: SongFrames)
    requires SongBatch(t, f).error.None?
    ensures SongBatch(t, f).state ==
              t.(songs := UpsertAll(t.songs, f.songs), artists := UpsertAll(t.artists, f.artists))
  {
  }

  /** Loading the same song frames a second time fails: every song id of a
      non-empty batch is then already present. */
  lemma SongBatchRerunFails(t: Tables, f: SongFrames)
    requires SongBatch(t, f).error.None? && f.songs != []
    ensures SongBatch(SongBatch(t, f).state, f).error == Some(DatabaseError)
  {
    SongBatchState(t, f);
    var t1 := SongBatch(t, f).state;
    SongBatchFailsIff(t1, f);
    assert f.songs[0].0 in t1.songs.Keys;
  }

  /** For song files: the batch succeeds exactly when the files hold some
      record, none of the records' song ids is already in songs, and none of
      the artist ids of the records kept by the song deduplication is already
      in artists. No file at all raises a ValueError, only empty files a
      KeyError; otherwise a failure is a database error. */
  lemma SongFilesFailIff(t: Tables, files: seq<seq<SongRecord>>)
    ensures SongFilesBatch(t, files).error.None? <==>
              && Concat(files) != []
              && t.songs.Keys !! KeysOf(KeyBySongId(Concat(files)))
              && t.artists.Keys !! KeysOf(ArtistColumns(SongFrame(files)))
    ensures SongFilesBatch(t, files).error == Some(ValueError) <==> files == []
    ensures SongFilesBatch(t, files).error == Some(LookupError) <==> files != [] && Concat(files) == []
  {
    SongBatchFailsIff(t, SongFramesOf(files));
    SongFramesKeys(files);
  }

  // ---------------------------------------------------------------------------
  // Properties of the log batch

  /** Only NextSong events matter: the frames of the log files are the frames
      of just their NextSong events, in one file. */
  lemma LogFramesOnlyNextSong(files: seq<seq<LogEvent>>)
    ensures LogFramesOf(files) == LogFramesOf([NextSongs(Concat(files))])
  {
    ConcatOne(NextSongs(Concat(files)));
    NextSongsIdempotent(Concat(files));
  }

  /** The log batch raises the (uncaught) ValueError exactly when the time COPY
      succeeds and the users frame cannot be built; every other failure is a
      database error. */
  lemma LogBatchErrors(t: Tables, f: LogFrames)
    ensures LogBatch(t, f).error == Some(ValueError) <==>
              CopyRows(t.time, f.time).Some? && f.users.None?
    ensures LogBatch(t, f).error != Some(LookupError)
  {
  }

  /** For log files, the uncaught errors: a ValueError exactly when there is
      no file at all, or when the time COPY succeeds and a NextSong event that
      survives cleaning has a user id that is not an integer; a KeyError
      exactly when there are files and all of them are empty. */
  lemma LogFilesValueError(t: Tables, files: seq<seq<LogEvent>>)
    ensures var ev := NextSongs(Concat(files));
            LogFilesBatch(t, files).error == Some(ValueError) <==>
              || files == []
              || (&& Concat(files) != []
                  && CopyRows(t.time, TimeRows(ev)).Some?
                  && exists e | e in ev && SurvivesCleaning(e) :: ParseInt(e.userId.value).None?)
    ensures LogFilesBatch(t, files).error == Some(LookupError) <==> files != [] && Concat(files) == []
  {
    LogBatchErrors(t, LogFramesOf(files));
    CleanUsersSpec(NextSongs(Concat(files)));
  }

  /** A successful log batch adds the time and users frames to their tables,
      none of whose keys was present, and leaves songs and artists as they
      were. */
  lemma LogBatchTimeAndUsers(t: Tables, f: LogFrames)
    requires LogBatch(t, f).error.None?
    ensures var s := LogBatch(t, f).state;
            && t.time.Keys !! KeysOf(f.time) && s.time == UpsertAll(t.time, f.time)
            && f.users.Some? && t.users.Keys !! KeysOf(f.users.value)
            && s.users == UpsertAll(t.users, f.users.value)
            && s.songs == t.songs && s.artists == t.artists
  {
    var time := CopyRows(t.time, f.time).value;
    var users := CopyRows(t.users, f.users.value).value;
    var t2 := t.(time := time, users := users, staging := Some(StagingOrEmpty(t.staging)));
    assert LogBatch(t, f) == LoadSongplays(t2, f.staging);
    LoadSongplaysFrame(t2, f.staging);
  }

  /** For log files, a successful batch gives every NextSong event's timestamp
      a time row with its calendar fields. */
  lemma LogFilesTime(t: Tables, files: seq<seq<LogEvent>>)
    requires LogFilesBatch(t, files).error.None?
    ensures var ev := NextSongs(Concat(files));
            var s := LogFilesBatch(t, files).state;
            forall i | 0 <= i < |ev| :: ev[i].ts in s.time && s.time[ev[i].ts] == TimeRowOf(ev[i].ts)
  {
    var ev := NextSongs(Concat(files));
    var rows := TimeRows(ev);
    LogBatchTimeAndUsers(t, LogFramesOf(files));
    forall i | 0 <= i < |ev|
      ensures ev[i].ts in UpsertAll(t.time, rows) && UpsertAll(t.time, rows)[ev[i].ts] == TimeRowOf(ev[i].ts)
    {
      UpsertAllLastWins(t.time, rows, ev[i].ts);
    }
  }

  /** Loading the same log files a second time fails: once the files hold a
      NextSong event, the time COPY meets a timestamp that is already there. */
  lemma LogFilesRerunFails(t: Tables, files: seq<seq<LogEvent>>)
    requires LogFilesBatch(t, files).error.None? && NextSongs(Concat(files)) != []
    ensures LogFilesBatch(LogFilesBatch(t, files).state, files).error == Some(DatabaseError)
  {
    var ev := NextSongs(Concat(files));
    var s := LogFilesBatch(t, files).state;
    LogFilesTime(t, files);
    assert ev[0].ts in s.time.Keys && ev[0].ts in KeysOf(TimeRows(ev));
    assert CopyRows(s.time, TimeRows(ev)).None?;
  }

  /** Loading a staging frame into an empty staging table: on success the
      frame has unique ids, and songplays then holds one row per staging row,
      with that row's start_time and user, besides the songplays under other
      ids, which are kept. */
  lemma LoadSongplaysSpec(t: Tables, rows: seq<(SongplayId, StagingRow)>)
    requires t.staging == Some(map[]) && LoadSongplays(t, Some(rows)).error.None?
    ensures var s := LoadSongplays(t, Some(rows)).state;
            && UniqueKeys(rows)
            && s.songplays.Keys == t.songplays.Keys + KeysOf(rows)
            && (forall i | 0 <= i < |rows| ::
                  s.songplays[rows[i].0].startTime == rows[i].1.startTime
                  && s.songplays[rows[i].0].userId == rows[i].1.userId)
            && (forall k | k in t.songplays && k !in KeysOf(rows) :: s.songplays[k] == t.songplays[k])
  {
    var staging := CopyRows(map[], rows).value;
    var s := LoadSongplays(t, Some(rows)).state;
    assert s.songplays == JoinInsert(t.songplays, staging, t.songs, t.artists).value;
    JoinInsertUpserts(t.songplays, staging, t.songs, t.artists);
    forall i | 0 <= i < |rows|
      ensures s.songplays[rows[i].0].startTime == rows[i].1.startTime
      ensures s.songplays[rows[i].0].userId == rows[i].1.userId
    {
      var id := rows[i].0;
      UniqueLastIndex(rows, i);
      UpsertAllLastWins(map[], rows, id);
      JoinRowsCover(staging, t.songs, t.artists, id);
    }
  }

  /** A successful log batch into a session with no staging table yet copies
      a staging frame with unique ids and ends as loading that frame does. */
  lemma LogBatchSongplays(t: Tables, f: LogFrames)
    requires LogBatch(t, f).error.None? && t.staging.None?
    ensures var s := LogBatch(t, f).state;
            && f.staging.Some? && UniqueKeys(f.staging.value)
            && s.songplays.Keys == t.songplays.Keys + KeysOf(f.staging.value)
            && (forall i | 0 <= i < |f.staging.value| ::
                  var p := f.staging.value[i];
                  s.songplays[p.0].startTime == p.1.startTime && s.songplays[p.0].userId == p.1.userId)
            && (forall k | k in t.songplays && k !in KeysOf(f.staging.value) :: s.songplays[k] == t.songplays[k])
  {
    var time := CopyRows(t.time, f.time).value;
    var users := CopyRows(t.users, f.users.value).value;
    var t2 := t.(time := time, users := users, staging := Some(map[]));
    assert LogBatch(t, f) == LoadSongplays(t2, f.staging);
    LoadSongplaysSpec(t2, f.staging.value);
  }

  /** For log files (into a session with no staging table yet), a successful
      batch writes exactly one songplay per NextSong event, under the id of
      the event's session and timestamp, with the event's timestamp as
      start_time and its parsed user id; no two NextSong events share a
      session and timestamp. */
  lemma LogFilesSongplays(t: Tables, files: seq<seq<LogEvent>>)
    requires LogFilesBatch(t, files).error.None? && t.staging.None?
    ensures var ev := NextSongs(Concat(files));
            var s := LogFilesBatch(t, files).state;
            && (forall i, j | 0 <= i < j < |ev| ::
                  SongplayId(ev[i].sessionId, ev[i].ts) != SongplayId(ev[j].sessionId, ev[j].ts))
            && (forall i | 0 <= i < |ev| ::
                  && HasUserId(ev[i])
                  && SongplayId(ev[i].sessionId, ev[i].ts) in s.songplays
                  && s.songplays[SongplayId(ev[i].sessionId, ev[i].ts)].startTime == ev[i].ts
                  && s.songplays[SongplayId(ev[i].sessionId, ev[i].ts)].userId == ParseInt(ev[i].userId.value).value)
  {
    var ev := NextSongs(Concat(files));
    var f := LogFramesOf(files);
    LogBatchSongplays(t, f);
    var rows := f.staging.value;
    forall i | 0 <= i < |ev|
      ensures HasUserId(ev[i]) && rows[i] == StagingPair(ev[i])
    {
      StagingRowsEach(ev, i);
    }
  }
}

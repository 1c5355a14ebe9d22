# Sparkify ETL: a Dafny model of its loading logic

The repository loads song metadata and user-activity logs into a PostgreSQL
star schema: the fact table `songplays` and the dimension tables `songs`,
`artists`, `users` and `time`. There are two loaders:

- `etl.py` is the batch job. It concatenates the parsed files of one kind,
  builds one frame per table with pandas, copies each frame with a plain
  `COPY`, and fills `songplays` through a staging table and a set-based
  LEFT JOIN. `process_data` commits the whole batch, rolls it back on a
  database error, and otherwise raises with nothing committed.
- `etl.v1.py` is the row-by-row job. Each file is read and written on its
  own, with single-row statements, and committed after it. A log file gets
  statements for each of its NextSong events. A song file gets one song
  upsert and one artist upsert, from its first record.

This project models how records become rows, and how the SQL statements of
`sql_queries.py` change keyed tables. It then proves what each loader
guarantees about the tables.

Modules, one per part of the program:

| module | file | models |
|---|---|---|
| `Rows` | rows.dfy | Table shapes: every table has a single-column primary key, so it is a `map` from key to the other columns, in CREATE TABLE order. A NOT NULL column is a plain type, and so is a nullable column that every loader always fills (songs.year, the calendar columns of time, session_id); any other nullable column is an `Option`. Also the parsed song records and log events, and the three error kinds. |
| `Text` | text.dfy | `str(int)`; the integer parsing of `astype(int)` and of a bigint column; the `"<sessionId>-<ts>"` songplay id. |
| `Calendar` | calendar.dfy | The hour/day/ISO week/month/year/weekday fields of a millisecond timestamp. |
| `Statements` | statements.dfy | Each statement as a function on maps: upsert, `DO NOTHING` insert, `COPY`, `song_select`, and the enrichment join. |
| `Frames` | frames.dfy | `pd.concat`, `drop_duplicates(subset=key, keep='last')`, and `drop_duplicates()`. |
| `Extract` | extract.dfy | The frames `etl.py` builds: songs, artists, NextSong filter, time, cleaned users, staging rows. |
| `Database` | connection.dfy | The connection as a class with the transaction's `work` tables and the `committed` tables; `commit()` and `rollback()`. |
| `BatchEtl` | batch_etl.dfy | `process_all_song_files`, `process_all_log_files`, and the commit/rollback of `process_data` in `etl.py`. |
| `RowEtl` | row_etl.dfy | `process_song_file`, `process_log_file`, and the per-file commit loop of `process_data` in `etl.v1.py`. |

The loading code is imperative:

- Each loader is a method on a `Connection`.
- Its `ensures` ties the new state of the connection to a function of the old state.
- The properties of that function are proved as lemmas.

The per-row loops of `etl.v1.py` are `while` loops. Their invariants say which
prefix of the rows has been applied so far.

Two behaviours of the source show up in the model:

- **Ambiguous join matches.** In `join_log_data_songs_artists` the two LEFT
  JOINs are independent. If a staging row matches two songs, or two
  artists, the SELECT proposes two rows with the same `songplay_id`. The
  `ON CONFLICT DO UPDATE` then refuses the whole statement, and the log
  batch is rolled back.
  - `JoinRowsAmbiguous` proves the duplicate ids.
  - `JoinInsertSucceedsIff` proves that the insert succeeds exactly when no
    id is proposed twice.
  - `JoinInsert` models the refusal as an error.
- **Re-running the batch job fails.** The batch job's `COPY` has no
  conflict clause. Loading song files a second time therefore fails
  (`SongBatchRerunFails`), and so does loading log files with a NextSong
  event (`LogFilesRerunFails`). The row-by-row job can re-run a file: its
  upserts and `DO NOTHING` inserts leave the tables as the first run left
  them, and it raises what the first run raised (`SongFileV1Idempotent`,
  `LogFileV1Idempotent`).

## Model

| member | source | states |
|---|---|---|
| Text.ParseInt | etl.py:99 | A text converts to an integer exactly when it is an optional minus sign followed by at least one decimal digit; the empty string is rejected |
| Text.IntToStringRoundTrip | etl.py:106 | Parsing `str(n)` gives `n` back, for every integer |
| Text.SongplayIdTextInjective | etl.py:106 | Two (sessionId, ts) pairs with the same text `str(sessionId)-str(ts)` are equal, negative values included, so keeping songplay_id as the pair loses no collision |
| Calendar.TimeRowOf | etl.py:82-86 | The derived fields of a timestamp are in range: hour 0..23, day 1..31 and within the month's length, ISO week 1..53, month 1..12, weekday 0..6 |
| Calendar.IsoWeek | etl.v1.py:56 | The ISO week number is between 1 and 53 |
| Statements.Upsert | sql_queries.py:84-105 | An upsert (songplays; the same form is used for users, songs and artists) maps the key to exactly the incoming row and leaves every other key's row unchanged |
| Statements.UpsertIdempotent | sql_queries.py:96-105 | The same upsert applied twice gives the table that applying it once gives |
| Statements.InsertIgnore | sql_queries.py:206-218 | A time insert with a present start_time leaves the table unchanged; otherwise it adds exactly that one row and keeps every existing row |
| Statements.UpsertAll | sql_queries.py:109-123 | Upserting rows one by one gives a table whose keys are the old keys plus the rows' keys, and keys the rows do not mention keep their rows |
| Statements.UpsertAllLastWins | etl.v1.py:69-70 | After one upsert per row in order, a key the rows mention holds the row of its last occurrence |
| Statements.UpsertAllStep | etl.v1.py:69-70 | Upserting one more row of a sequence is one more single-row upsert after the ones before it |
| Statements.UpsertAllIdempotent | etl.v1.py:69-70 | Running the same sequence of upserts twice gives the table that running it once gives |
| Statements.InsertIgnoreAll | sql_queries.py:216-217 | DO NOTHING inserts in order keep every row already in the table and add exactly the new keys |
| Statements.InsertIgnoreAllFirstWins | etl.v1.py:61-62 | After one DO NOTHING insert per row in order, a key new to the table holds the row of its first occurrence |
| Statements.InsertIgnoreAllPresent | sql_queries.py:216-217 | Re-inserting rows whose keys are all present changes nothing |
| Statements.CopyRows | etl.py:23-25 | A COPY with no conflict clause succeeds exactly when no row's key is already in the table and no key repeats in the rows; it then adds every row |
| Statements.SongSelectSpec | sql_queries.py:262-270 | `song_select` returns exactly the (song_id, artist_id) pairs where the song's artist_id is the artist's and title, name and duration all equal the probe values; a NULL probe matches nothing |
| Statements.Candidates | sql_queries.py:295-299 | A LEFT JOIN contributes NULL exactly when nothing matches, and otherwise exactly the matched keys |
| Statements.JoinRowsCover | sql_queries.py:284-299 | Every staging row yields at least one joined row. song_id is NULL exactly when no song has the title and a duration of at least the length. artist_id is NULL exactly when no artist has the name, independently of the song match. The other columns are copied unchanged |
| Statements.JoinRowsUnambiguous | sql_queries.py:284-299 | With at most one matching song and at most one matching artist, a staging row yields exactly one joined row, with the single matches as its ids |
| Statements.JoinRowsAmbiguous | sql_queries.py:294-300 | A staging row that matches two songs or two artists yields two different joined rows with the same songplay_id |
| Statements.JoinInsertSucceedsIff | sql_queries.py:273-310 | The join's insert succeeds exactly when its SELECT proposes no songplay_id twice |
| Statements.JoinInsertUpserts | sql_queries.py:300-309 | A successful join insert gives every proposed row its songplay_id. songplays then has the old keys plus the staging keys. Rows of other ids are unchanged |
| Statements.SelectedPairIsJoined | sql_queries.py:262-299 | A pair `song_select` returns for a row's title, artist and length is matched by both LEFT JOINs of the batch join |
| Frames.ConcatMembers | etl.py:46 | The concatenation holds every row of every file and nothing else |
| Frames.DedupLast | etl.py:49 | Deduplication by key leaves unique keys and the same key set, keeps only input rows, and upserting its result equals upserting all the rows |
| Frames.DedupLastUpserts | etl.py:49 | Upserting the deduplicated rows into any table equals upserting every row |
| Frames.DedupLastKeepsLast | etl.py:49 | The row kept for a key is the last row with that key |
| Frames.DedupLastOrder | etl.py:49 | Each kept row is the last row of its key in the input, and the kept rows come in the order of those last rows |
| Frames.Distinct | etl.py:88 | Whole-row deduplication keeps each distinct row exactly once and no other rows |
| Frames.DistinctOrder | etl.py:88 | The rows whole-row deduplication keeps come in the order of their first occurrences |
| Extract.SongRowsKeepLast | etl.py:46-53 | The songs frame has one row per song_id of the concatenated files: the row of the last record with that id |
| Extract.ArtistRowsKeepLast | etl.py:56-59 | The artists frame, taken from the song-deduplicated frame, has unique artist_ids, each with the row of the last record carrying it |
| Extract.NextSongsMembers | etl.py:79 | The filter keeps exactly the events whose page is NextSong |
| Extract.NextSongsAppend | etl.py:79 | The filter works event by event: filtering a concatenation is concatenating the filtered parts, so the kept events keep their order and multiplicity |
| Extract.NextSongsOne | etl.py:79 | A single event is kept exactly when its page is NextSong |
| Extract.NextSongsIdempotent | etl.py:79 | Filtering twice is filtering once |
| Extract.TimeRows | etl.py:82-88 | The time frame has unique timestamps. It has a row for every event's timestamp and no other timestamp. Each row carries its timestamp's calendar fields |
| Extract.UserCandidatesMembers | etl.py:93-98 | The users that survive cleaning are exactly the events with none of the five columns null and a non-empty userId |
| Extract.ParseUsers | etl.py:99 | `astype(int)` fails exactly when some surviving userId is not an integer text; otherwise every id is replaced by its value, row for row |
| Extract.CleanUsersSpec | etl.py:93-100 | Cleaning fails exactly when a surviving event's userId is not an integer. Otherwise the rows have unique user ids, each from a surviving event, and upserting them equals upserting every survivor in order (last occurrence wins) |
| Extract.CleanUsersLastWins | etl.py:93-103 | After the users COPY, the id of a surviving event that no later survivor shares holds that event's row: the last event with an id wins |
| Extract.StagingPair | etl.py:106-110 | An event's staging row is keyed by (sessionId, ts), has the event's ts as start_time and its parsed userId as user_id |
| Extract.StagingRowsFail | etl.py:105-113 | Building the staging frame fails exactly when some NextSong event has a missing, empty or non-integer userId, which the bigint user_id column rejects |
| Extract.StagingRowsEach | etl.py:105-113 | Otherwise there is exactly one staging row per event, in order, and row i is event i's keyed row |
| BatchEtl.SongFramesKeys | etl.py:46-60 | Both song-batch frames have unique keys: all the records' song ids, and the artist ids of the records kept by the song deduplication |
| BatchEtl.SongBatchFailsIff | etl.py:53-60 | The song batch fails exactly when a frame repeats a key or has a key already in its table; the only error is a database error |
| BatchEtl.SongBatchState | etl.py:52-60 | A successful song batch adds exactly the two frames to songs and artists and changes no other table |
| BatchEtl.SongBatchRerunFails | etl.py:25 | Loading the same non-empty song frames a second time fails with a database error |
| BatchEtl.SongFilesFailIff | etl.py:46-60 | For song files, the batch succeeds exactly when the files hold some record, no record's song id is already in songs and no kept record's artist id is already in artists. No file at all raises `pd.concat`'s ValueError, and only empty files raise a KeyError |
| BatchEtl.LogFramesOnlyNextSong | etl.py:79 | The log frames depend only on the NextSong events |
| BatchEtl.LogBatchErrors | etl.py:90-115 | The log batch raises the uncaught ValueError exactly when the time COPY succeeds and the users frame cannot be built; it never raises a lookup error |
| BatchEtl.LogFilesValueError | etl.py:76-99 | For log files, the ValueError happens exactly when there is no file at all, or when the time COPY succeeds and a surviving NextSong event has a non-integer userId. A KeyError happens exactly when there are files and all are empty |
| BatchEtl.LogBatchTimeAndUsers | etl.py:84-103 | A successful log batch adds the time and users frames, none of whose keys was present, and leaves songs and artists unchanged |
| BatchEtl.LogFilesTime | etl.py:82-90 | After a successful log batch every NextSong event's timestamp has a time row with its calendar fields |
| BatchEtl.LogFilesRerunFails | etl.py:76-90 | Loading the same log files a second time fails with a database error once they hold a NextSong event: the time COPY meets a timestamp that is already there |
| BatchEtl.LoadSongplaysFrame | etl.py:112-115 | Loading songplays writes only the staging table and songplays |
| BatchEtl.LoadSongplaysSpec | etl.py:112-115 | A successful staging load has unique ids. songplays then has one row per staging row, with that row's start_time and user_id. Songplays under other ids are kept |
| BatchEtl.LogBatchSongplays | etl.py:105-115 | A successful log batch into a session without a staging table ends as loading its unique-keyed staging frame does |
| BatchEtl.LogFilesSongplays | etl.py:105-115 | A successful log batch writes one songplay per NextSong event, under (sessionId, ts), with the event's ts and parsed userId; no two NextSong events share a session and timestamp |
| BatchEtl.ProcessAllSongFiles | etl.py:32-60 | The song loader's writes and error are exactly those of the song batch over the files, the errors of an empty file list or of only empty files included; nothing is committed |
| BatchEtl.ProcessAllLogFiles | etl.py:63-115 | The log loader's writes and error are exactly those of the log batch over the files, the errors of an empty file list or of only empty files included; nothing is committed |
| BatchEtl.ProcessData | etl.py:147-154 | All or nothing: success commits every write of the batch, a database error rolls all of them back, and any other error (a ValueError, with no files among others, or a KeyError) propagates with nothing committed |
| Database.Connection.Commit | etl.py:149 | After a commit the committed tables are the transaction's tables |
| Database.Connection.Rollback | etl.py:154 | After a rollback the transaction's tables are the committed ones again |
| RowEtl.SongFileV1Spec | etl.v1.py:20-32 | A song file fails, with a lookup error, exactly when it is empty. Otherwise it writes one song row and one artist row, both from its first record, and no other row |
| RowEtl.SongFileV1Idempotent | etl.v1.py:23-32 | Processing the same song file twice is the same as processing it once |
| RowEtl.ProcessSongFile | etl.v1.py:8-32 | The song-file method's writes are exactly those of SongFileV1; nothing is committed |
| RowEtl.FirstBadUser | etl.v1.py:69-70 | The users loop stops at the first event whose row the users table rejects; every event before it is accepted |
| RowEtl.FirstBadSongplay | etl.v1.py:73-95 | The songplays loop stops at the first event whose user_id the table rejects; every event before it is accepted |
| RowEtl.LookupSpec | etl.v1.py:76-83 | songid and artistid are both set or both None. They are None exactly when `song_select` returns no row; otherwise they are a row it returns |
| RowEtl.SongplayPairV1Spec | etl.v1.py:76-95 | An event's songplay row is keyed by `f"{sessionId}-{ts}"` and has the event's ts, parsed user_id and session text; the song and artist ids are those of the lookup |
| RowEtl.TimeStageSpec | etl.v1.py:61-62 | Every event's timestamp ends up in time. A timestamp already present keeps its row. A new one gets the row of its first event, which carries its calendar fields |
| RowEtl.UserStageSpec | etl.v1.py:64-70 | The users loop fails, with a database error, exactly when some event's user is rejected (no null or empty-id filtering first); only users changes |
| RowEtl.UserStageLastWins | etl.v1.py:69-70 | After the users loop each event's user id holds the row of the last event with that id, its level included |
| RowEtl.SongplayStageSpec | etl.v1.py:73-95 | The songplays loop fails, with a database error, exactly when some event's user_id is rejected; only songplays changes |
| RowEtl.SongplayStageLastWins | etl.v1.py:73-95 | After the songplays loop each event's songplay id holds the row of the last event with that session and timestamp |
| RowEtl.LogFileV1OnlyNextSong | etl.v1.py:47-50 | Only NextSong events are processed: a file with some does what the file of just those does, and a non-empty file with none changes nothing |
| RowEtl.TimeStageAfterEvents | etl.v1.py:61-62 | After a log file's events, inserting their time rows again leaves the tables as they are |
| RowEtl.UserStageAgain | etl.v1.py:69-70 | The users loop run again on the users it wrote leaves them as they are and raises the error it raised before |
| RowEtl.SongplayStageAgain | etl.v1.py:73-95 | The songplays loop run again on the songplays it wrote, with the same songs and artists to look up, leaves them as they are and raises the error it raised before |
| RowEtl.LogEventsV1Idempotent | etl.v1.py:53-95 | Running the three loops over the same events twice gives the same tables and the same error as running them once |
| RowEtl.LogFileV1Idempotent | etl.v1.py:47-95 | Processing the same log file twice is the same as processing it once |
| RowEtl.LogFileV1Errors | etl.v1.py:47-95 | A log file raises a lookup error exactly when it is empty, and a database error exactly when it is not and a NextSong event's user is rejected; no other error; songs and artists are never written |
| RowEtl.LogEventsV1Errors | etl.v1.py:61-95 | A log file fails, with a database error, exactly when a NextSong event's user is rejected; songs and artists are never written |
| RowEtl.LogEventsV1Time | etl.v1.py:53-62 | Failed or not, a log file leaves every event's timestamp in time: an existing row is kept, a new one carries its calendar fields |
| RowEtl.LogEventsV1Users | etl.v1.py:64-70 | After a successful log file each event's user id holds the row of the last event with that id |
| RowEtl.LogEventsV1Songplays | etl.v1.py:73-95 | After a successful log file each event's songplay id holds the row of its last event, with ids looked up in the song and artist tables as they were before the file |
| RowEtl.InsertTimes | etl.v1.py:61-62 | The time loop's writes are exactly one DO NOTHING insert per event, in order |
| RowEtl.InsertUsers | etl.v1.py:69-70 | The users loop's writes are exactly one upsert per event up to the first rejected one, with the error that stops it |
| RowEtl.InsertSongplays | etl.v1.py:73-95 | The songplays loop's writes are exactly one upsert per event up to the first rejected one, with the error that stops it |
| RowEtl.ProcessLogFile | etl.v1.py:35-95 | The log-file method's writes are exactly those of LogFileV1; nothing is committed |
| RowEtl.ProcessFileV1 | etl.v1.py:127 | Processing file i writes exactly what that file's function gives |
| RowEtl.Run | etl.v1.py:126-129 | A run over n files commits at most n of them, and all n when nothing failed |
| RowEtl.RunStops | etl.v1.py:126-129 | Once a file has failed the run has ended: later files change nothing |
| RowEtl.ProcessAndCommit | etl.v1.py:127-128 | One iteration processes file i and commits it when it succeeded; a failure leaves the committed tables as they were |
| RowEtl.ProcessDataV1 | etl.v1.py:98-129 | On a connection with nothing pending, the loop commits after each file and stops at the first error. The committed tables are those of the run over all files. On an error, the files before the failing one stay committed exactly as a run over them alone commits them, the failing file raised that error, and its writes stay uncommitted |

## Left out

- Connection setup, cursors, credentials, `main()` and `conn.close()` are I/O. The connection is a class holding the committed tables and the open transaction's tables.
- File discovery (`os.walk`, `glob`), the file count and every `print` are filesystem and console I/O. A batch is the sequence of already-parsed files, in discovery order.
- `pd.read_json` parsing is a library call. Files are sequences of parsed `SongRecord`s or `LogEvent`s. A log event's `userId` is kept as the text the JSON holds. An empty file is the empty sequence; pandas parses it to a frame with no columns, which is where the lookup errors come from.
- The temp-CSV round trip of `insert_df_into_table` (`to_csv`, `copy_from`, the temporary directory) is modelled as one `COPY` that inserts every row or fails.
- The `na_rep='NaN'` text of a null in that CSV is a serialisation detail. A null stays a null (`None`).
- Floating-point columns (duration, length, latitude, longitude) are integers. The model only compares them, with `=` and `<=`.
- Calendar.TimeRowOf: computes the calendar fields exactly. It does not model pandas' own datetime code. Only the range facts are stated as its contract. It accepts every timestamp: the OutOfBoundsDatetime error that `pd.to_datetime` raises outside its range (about the years 1677 to 2262) is not reproduced.
- Text.ParseInt: accepts an optional minus sign and decimal digits. It does not model Python `int()`'s whitespace, underscores or `+` sign, nor PostgreSQL's bigint range. Integers are unbounded, so 64-bit overflow is not modelled.
- `songplay_id` is kept as the (sessionId, ts) pair, not as text. Text.SongplayIdTextInjective proves that the text is injective, so key collisions are the same.
- `session_id` in songplays is the event's session number rendered with `str`.
- RowEtl.Lookup: `fetchone()` returns the first row of a `song_select` result, and that query has no ORDER BY. The choice of row is therefore a parameter of the model (`Fetch`). The lemmas assume only that it picks a row of a non-empty result.
- The DROP and CREATE statement texts and the query lists are not modelled. Only the key and NOT NULL constraints the table shapes carry are.
- The batch statements (`*_batch_insert`) and `sql_insert_temp_table` are not modelled, because nothing in the loaders runs them.
- The staging table persists for the session (`CREATE TEMP TABLE IF NOT EXISTS`). The songplays lemmas of the batch job assume a session that has not created it yet, as a single run of `etl.py` is.
- psycopg2 exception classes are reduced to one kind, `DatabaseError`. The other errors are `ValueError` (from `astype(int)`, or from `pd.concat` given no file) and `LookupError`, which stands for the KeyError of selecting a column of a frame that has none. The model does not tell KeyError from IndexError.
- songs.year, the six calendar columns of time and session_id are nullable in the schema but plain in the model. Every loader fills them from values that are never null: the record's year, the timestamp, the session number.
- RowEtl.ProcessDataV1: requires a connection with no uncommitted writes, as `main` opens it. A call with pending writes would commit them with the first file, and that is not modelled.
- Concurrency and other sessions writing to the same tables are not modelled.

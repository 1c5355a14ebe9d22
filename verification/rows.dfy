/** The relational shape of the star schema and of the parsed input records.

    Every table has a single-column primary key, so a table is a finite map from
    that key to the remaining columns, in the order the CREATE TABLE statement
    lists them. A column declared NOT NULL has a plain type, and so does a
    nullable column that every loader always fills (songs.year, the six
    calendar columns of time, session_id of songplays and of temp_log_data);
    any other nullable column is an `Option`. Floating-point columns (duration,
    length, latitude, longitude) are integers here: the model only ever
    compares them. */
module Rows {

  datatype Option<+T> = None | Some(value: T)

  /** What can go wrong while a batch runs: a database error (psycopg2.Error,
      caught by the batch runner of etl.py); a Python ValueError, from a failed
      `astype(int)` or from `pd.concat` given no file at all; and a Python
      LookupError, from reading a column or a first row that is not there: an
      empty file parses to a frame with no columns and no rows, so selecting a
      column of it raises a KeyError (or taking its first row an IndexError).
      Only the database error is ever caught. */
  datatype ErrorKind = DatabaseError | ValueError | LookupError

  type SongId = string
  type ArtistId = string
  type UserId = int        // bigint
  type Timestamp = int     // milliseconds since the Unix epoch, UTC
  /** songplay_id, the text `<sessionId>-<ts>`, kept as the pair it is built
      from; the text of distinct pairs differs (Text.SongplayIdTextInjective),
      so two rows collide on the key exactly when their pairs are equal. */
  datatype SongplayId = SongplayId(sessionId: int, ts: Timestamp)

  /** songs (song_id PRIMARY KEY, title, artist_id, year, duration) */
  datatype SongRow = SongRow(title: string, artistId: ArtistId, year: int, duration: int)

  /** artists (artist_id PRIMARY KEY, name, location, latitude, longitude) */
  datatype ArtistRow = ArtistRow(name: string, location: Option<string>,
                                 latitude: Option<int>, longitude: Option<int>)

  /** users (user_id PRIMARY KEY, first_name, last_name, gender, level) */
  datatype UserRow = UserRow(firstName: string, lastName: string,
                             gender: Option<string>, level: Option<string>)

  /** time (start_time PRIMARY KEY, hour, day, week, month, year, weekday) */
  datatype TimeRow = TimeRow(hour: int, day: int, week: int, month: int, year: int, weekday: int)

  /** songplays (songplay_id PRIMARY KEY, start_time, user_id, level, song_id,
      artist_id, session_id, location, user_agent) */
  datatype SongplayRow = SongplayRow(startTime: Timestamp, userId: UserId, level: Option<string>,
                                     songId: Option<SongId>, artistId: Option<ArtistId>,
                                     sessionId: string, location: Option<string>,
                                     userAgent: Option<string>)

  /** temp_log_data (songplay_id PRIMARY KEY, start_time, user_id, level, song,
      artist, session_id, location, user_agent, length) */
  datatype StagingRow = StagingRow(startTime: Timestamp, userId: UserId, level: Option<string>,
                                   song: Option<string>, artist: Option<string>,
                                   sessionId: string, location: Option<string>,
                                   userAgent: Option<string>, length: Option<int>)

  /** The database: the five persistent tables and the session's temporary
      staging table, which does not exist until it is first created. */
  datatype Tables = Tables(songs: map<SongId, SongRow>,
                           artists: map<ArtistId, ArtistRow>,
                           users: map<UserId, UserRow>,
                           time: map<Timestamp, TimeRow>,
                           songplays: map<SongplayId, SongplayRow>,
                           staging: Option<map<SongplayId, StagingRow>>)

  /** One parsed line of a song-metadata file. */
  datatype SongRecord = SongRecord(songId: SongId, title: string, artistId: ArtistId,
                                   year: int, duration: int, artistName: string,
                                   artistLocation: Option<string>,
                                   artistLatitude: Option<int>, artistLongitude: Option<int>)

  /** One parsed line of a log file; `userId` is the raw text of the field. */
  datatype LogEvent = LogEvent(page: string, ts: Timestamp, sessionId: int,
                               userId: Option<string>, firstName: Option<string>,
                               lastName: Option<string>, gender: Option<string>,
                               level: Option<string>, song: Option<string>,
                               artist: Option<string>, length: Option<int>,
                               location: Option<string>, userAgent: Option<string>)

  /** The files one call of the batch runner processes, in discovery order:
      either all song-metadata files or all log files. */
  datatype Batch = SongFiles(songFiles: seq<seq<SongRecord>>)
                 | LogFiles(logFiles: seq<seq<LogEvent>>)
  {
    function NumFiles(): nat {
      match this
      case SongFiles(fs) => |fs|
      case LogFiles(fs) => |fs|
    }
  }

  /** The state of the open transaction after a step, and the error that
      stopped it, if any. A failed statement has no effect of its own. */
  datatype Outcome = Outcome(state: Tables, error: Option<ErrorKind>)
}

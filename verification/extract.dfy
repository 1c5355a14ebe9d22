/** How the batch job (etl.py) turns parsed records into the rows it copies into
    each table: column selection, the NextSong filter, the user cleaning rules,
    deduplication and the synthesized songplay id. Each row type has the
    columns of its table in the table's order, so every frame lines up with the
    table it is copied into. */
module Extract {
  import opened Rows
  import opened Text
  import opened Calendar
  import opened Statements
  import opened Frames

  /** The page value of a song-play event. */
  const NextSongPage: string := "NextSong"

  // ---------------------------------------------------------------------------
  // Songs and artists

  /** Columns song_id, title, artist_id, year, duration of a record. */
  function SongRowOf(rec: SongRecord): SongRow
  {
    SongRow(rec.title, rec.artistId, rec.year, rec.duration)
  }

  /** Columns artist_id, artist_name, artist_location, artist_latitude,
      artist_longitude of a record. */
  function ArtistRowOf(rec: SongRecord): ArtistRow
  {
    ArtistRow(rec.artistName, rec.artistLocation, rec.artistLatitude, rec.artistLongitude)
  }

  /** The records with their song_id as key. */
  function KeyBySongId(recs: seq<SongRecord>): (r: seq<(SongId, SongRecord)>)
    ensures |r| == |recs| && forall i | 0 <= i < |recs| :: r[i] == (recs[i].songId, recs[i])
  {
    seq(|recs|, i requires 0 <= i < |recs| => (recs[i].songId, recs[i]))
  }

  /** The concatenated song frame after `drop_duplicates(subset='song_id', keep='last')`. */
  function SongFrame(files: seq<seq<SongRecord>>): seq<(SongId, SongRecord)>
  {
    DedupLast(KeyBySongId(Concat(files)))
  }

  /** The rows copied into songs. */
  function SongRows(frame: seq<(SongId, SongRecord)>): (r: seq<(SongId, SongRow)>)
    ensures |r| == |frame| && forall i | 0 <= i < |frame| :: r[i] == (frame[i].0, SongRowOf(frame[i].1))
  {
    seq(|frame|, i requires 0 <= i < |frame| => (frame[i].0, SongRowOf(frame[i].1)))
  }

  /** The artist columns of the song frame, keyed by artist_id, before deduplication. */
  function ArtistColumns(frame: seq<(SongId, SongRecord)>): (r: seq<(ArtistId, ArtistRow)>)
    ensures |r| == |frame|
    ensures forall i | 0 <= i < |frame| :: r[i] == (frame[i].1.artistId, ArtistRowOf(frame[i].1))
  {
    seq(|frame|, i requires 0 <= i < |frame| => (frame[i].1.artistId, ArtistRowOf(frame[i].1)))
  }

  /** The rows copied into artists: taken from the song-deduplicated frame, then
      `drop_duplicates(subset='artist_id', keep='last')`. */
  function ArtistRows(frame: seq<(SongId, SongRecord)>): seq<(ArtistId, ArtistRow)>
  {
    DedupLast(ArtistColumns(frame))
  }

  /** The songs the batch copies: one row per song_id, the row of the last
      record with that song_id in file-concatenation order. */
  lemma SongRowsKeepLast(files: seq<seq<SongRecord>>, k: SongId)
    requires k in KeysOf(KeyBySongId(Concat(files)))
    ensures UniqueKeys(SongRows(SongFrame(files)))
    ensures KeysOf(SongRows(SongFrame(files))) == KeysOf(KeyBySongId(Concat(files)))
    ensures k in UpsertAll(map[], SongRows(SongFrame(files)))
    ensures UpsertAll(map[], SongRows(SongFrame(files)))[k]
              == SongRowOf(Concat(files)[LastIndex(KeyBySongId(Concat(files)), k)])
  {
    var keyed := KeyBySongId(Concat(files));
    var frame := SongFrame(files);
    var rows := SongRows(frame);
    SameKeys(frame, rows);
    DedupLastKeepsLast(keyed, k);
    var j := LastIndex(frame, k);
    UniqueLastIndex(rows, j);
    UpsertAllLastWins(map[], rows, k);
  }

  /** Mapping the values of keyed rows keeps their keys. */
  lemma SameKeys<V, W>(a: seq<(SongId, V)>, b: seq<(SongId, W)>)
    requires |a| == |b| && forall i | 0 <= i < |a| :: a[i].0 == b[i].0
    ensures KeysOf(a) == KeysOf(b) && (UniqueKeys(a) <==> UniqueKeys(b))
  {
    if a != [] {
      SameKeys(a[..|a| - 1], b[..|b| - 1]);
    }
  }

  /** The artists the batch copies: one row per artist_id, the row of the last
      song-frame record with that artist_id. */
  lemma ArtistRowsKeepLast(frame: seq<(SongId, SongRecord)>, k: ArtistId)
    requires k in KeysOf(ArtistColumns(frame))
    ensures UniqueKeys(ArtistRows(frame))
    ensures k in UpsertAll(map[], ArtistRows(frame))
    ensures UpsertAll(map[], ArtistRows(frame))[k]
              == ArtistRowOf(frame[LastIndex(ArtistColumns(frame), k)].1)
  {
    var cols := ArtistColumns(frame);
    UpsertAllLastWins(map[], cols, k);
  }

  // ---------------------------------------------------------------------------
  // Log events

  /** `df[df['page'] == 'NextSong']`. */
  function NextSongs(ev: seq<LogEvent>): (r: seq<LogEvent>)
    ensures |r| <= |ev|
  {
    if ev == [] then []
    else
      var e := ev[|ev| - 1];
      if e.page == NextSongPage then NextSongs(ev[..|ev| - 1]) + [e] else NextSongs(ev[..|ev| - 1])
  }

  /** The filter keeps exactly the NextSong events. */
  lemma {:induction false} NextSongsMembers(ev: seq<LogEvent>)
    ensures forall e | e in NextSongs(ev) :: e in ev && e.page == NextSongPage
    ensures forall e | e in ev && e.page == NextSongPage :: e in NextSongs(ev)
  {
    if ev != [] {
      var front := ev[..|ev| - 1];
      NextSongsMembers(front);
      assert ev == front + [ev[|ev| - 1]];
    }
  }

  /** The filter works event by event: filtering a concatenation is
      concatenating the filtered parts, so kept events keep their order and
      their multiplicity. */
  lemma {:induction false} NextSongsAppend(a: seq<LogEvent>, b: seq<LogEvent>)
    ensures NextSongs(a + b) == NextSongs(a) + NextSongs(b)
  {
    if b == [] {
      assert a + b == a;
    } else {
      var front, e := b[..|b| - 1], b[|b| - 1];
      NextSongsAppend(a, front);
      assert (a + b)[..|a + b| - 1] == a + front;
      assert b[..|b| - 1] == front;
    }
  }

  /** A single event is kept exactly when it is a NextSong event. */
  lemma NextSongsOne(e: LogEvent)
    ensures NextSongs([e]) == if e.page == NextSongPage then [e] else []
  {
    assert [e][..0] == [];
  }

  lemma {:induction false} NextSongsIdempotent(ev: seq<LogEvent>)
    ensures NextSongs(NextSongs(ev)) == NextSongs(ev)
  {
    if ev != [] {
      var front := ev[..|ev| - 1];
      NextSongsIdempotent(front);
      var e := ev[|ev| - 1];
      if e.page == NextSongPage {
        var r := NextSongs(front) + [e];
        assert r[..|r| - 1] == NextSongs(front);
      }
    }
  }

  /** The ts column of the events. */
  function Timestamps(ev: seq<LogEvent>): (r: seq<Timestamp>)
    ensures |r| == |ev| && forall i | 0 <= i < |ev| :: r[i] == ev[i].ts
  {
    seq(|ev|, i requires 0 <= i < |ev| => ev[i].ts)
  }

  /** Each timestamp with its calendar fields. */
  function WithCalendar(d: seq<Timestamp>): (r: seq<(Timestamp, TimeRow)>)
    ensures |r| == |d| && forall i | 0 <= i < |d| :: r[i] == (d[i], TimeRowOf(d[i]))
  {
    seq(|d|, i requires 0 <= i < |d| => (d[i], TimeRowOf(d[i])))
  }

  /** The rows copied into time. `drop_duplicates()` on whole rows keeps the
      first row of each distinct timestamp, since the other columns are
      computed from the timestamp; so the rows are the distinct timestamps in
      first-occurrence order, each with its calendar fields. */
  function TimeRows(ev: seq<LogEvent>): (r: seq<(Timestamp, TimeRow)>)
    ensures UniqueKeys(r)
    ensures forall i | 0 <= i < |ev| :: ev[i].ts in KeysOf(r)
    ensures forall i | 0 <= i < |r| :: r[i].1 == TimeRowOf(r[i].0)
    ensures forall i | 0 <= i < |r| :: exists j | 0 <= j < |ev| :: ev[j].ts == r[i].0
  {
    var ts := Timestamps(ev);
    var d := Distinct(ts);
    var r := WithCalendar(d);
    forall i | 0 <= i < |ev|
      ensures ev[i].ts in KeysOf(r)
    {
      assert ts[i] in ts;
      var j :| 0 <= j < |d| && d[j] == ts[i];
      assert r[j].0 == ev[i].ts;
    }
    forall i | 0 <= i < |r|
      ensures exists j | 0 <= j < |ev| :: ev[j].ts == r[i].0
    {
      assert d[i] in d;
    }
    r
  }

  /** The five user columns are present and userId is not the empty string
      (`dropna` then `df_user['userId'] != ''`). */
  predicate SurvivesCleaning(e: LogEvent)
  {
    && e.userId.Some? && e.firstName.Some? && e.lastName.Some?
    && e.gender.Some? && e.level.Some? && e.userId.value != ""
  }

  /** The user columns of an event that survives cleaning: the userId text
      and the row copied into users once the text is converted. */
  function UserColumns(e: LogEvent): (string, UserRow)
    requires SurvivesCleaning(e)
  {
    (e.userId.value, UserRow(e.firstName.value, e.lastName.value, e.gender, e.level))
  }

  /** The user columns of the events that survive the two cleaning filters, in order. */
  function UserCandidates(ev: seq<LogEvent>): seq<(string, UserRow)>
  {
    if ev == [] then []
    else
      var front := UserCandidates(ev[..|ev| - 1]);
      var e := ev[|ev| - 1];
      if SurvivesCleaning(e) then front + [UserColumns(e)] else front
  }

  /** Every candidate is the user of a surviving event, and every surviving
      event's user is a candidate. */
  lemma {:induction false} UserCandidatesMembers(ev: seq<LogEvent>)
    ensures forall p | p in UserCandidates(ev) :: exists e | e in ev && SurvivesCleaning(e) :: p == UserColumns(e)
    ensures forall e | e in ev && SurvivesCleaning(e) :: UserColumns(e) in UserCandidates(ev)
  {
    if ev != [] {
      var front := ev[..|ev| - 1];
      UserCandidatesMembers(front);
      assert ev == front + [ev[|ev| - 1]];
    }
  }

  /** `df_user['userId'].astype(int)`: None (a ValueError) as soon as one id
      is not the text of an integer; otherwise each text replaced by its value. */
  function ParseUsers(cands: seq<(string, UserRow)>): (r: Option<seq<(UserId, UserRow)>>)
    ensures r.Some? <==> forall i | 0 <= i < |cands| :: ParseInt(cands[i].0).Some?
    ensures r.Some? ==> |r.value| == |cands| && forall i | 0 <= i < |cands| ::
              r.value[i] == (ParseInt(cands[i].0).value, cands[i].1)
  {
    if cands == [] then Some([])
    else
      var front, c := cands[..|cands| - 1], cands[|cands| - 1];
      var rest := ParseUsers(front);
      var id := ParseInt(c.0);
      if rest.None? then
        assert exists i | 0 <= i < |front| :: ParseInt(front[i].0).None?;
        None
      else if id.None? then None
      else
        var r := rest.value + [(id.value, c.1)];
        assert forall i | 0 <= i < |front| :: r[i] == rest.value[i] && cands[i] == front[i];
        Some(r)
  }

  /** The rows copied into users, or None when `astype(int)` raises. */
  function CleanUsers(ev: seq<LogEvent>): Option<seq<(UserId, UserRow)>>
  {
    match ParseUsers(UserCandidates(ev))
    case None => None
    case Some(rows) => Some(DedupLast(rows))
  }

  /** Users survive only if none of the five columns is null and userId is not
      empty; the conversion fails exactly when a survivor's id is not an
      integer; otherwise the rows are unique by user id, each with the columns
      of a surviving event, and upserting them is upserting every survivor in
      order (the last occurrence of an id wins). */
  lemma CleanUsersSpec(ev: seq<LogEvent>)
    ensures CleanUsers(ev).None? <==>
              exists e | e in ev && SurvivesCleaning(e) :: ParseInt(e.userId.value).None?
    ensures CleanUsers(ev).Some? ==>
              && UniqueKeys(CleanUsers(ev).value)
              && UpsertAll(map[], CleanUsers(ev).value) == UpsertAll(map[], ParseUsers(UserCandidates(ev)).value)
              && forall p | p in CleanUsers(ev).value :: exists e | e in ev && SurvivesCleaning(e) ::
                   ParseInt(e.userId.value) == Some(p.0) && p.1 == UserColumns(e).1
  {
    var cands := UserCandidates(ev);
    UserCandidatesMembers(ev);
    if CleanUsers(ev).None? {
      var i :| 0 <= i < |cands| && ParseInt(cands[i].0).None?;
      assert cands[i] in cands;
    } else {
      var parsed := ParseUsers(cands).value;
      forall p | p in DedupLast(parsed)
        ensures exists e | e in ev && SurvivesCleaning(e) ::
                  ParseInt(e.userId.value) == Some(p.0) && p.1 == UserColumns(e).1
      {
        var i :| 0 <= i < |parsed| && parsed[i] == p;
        assert cands[i] in cands;
      }
    }
  }

  /** The parsed users of a sequence of events are those of all but its last
      event, followed by the last event's user when it survives cleaning. */
  lemma {:induction false} ParsedUsersSnoc(ev: seq<LogEvent>)
    requires ev != [] && ParseUsers(UserCandidates(ev)).Some?
    ensures ParseUsers(UserCandidates(ev[..|ev| - 1])).Some?
    ensures var e := ev[|ev| - 1];
            var before := ParseUsers(UserCandidates(ev[..|ev| - 1])).value;
            var after := ParseUsers(UserCandidates(ev)).value;
            && (SurvivesCleaning(e) ==>
                  && ParseInt(e.userId.value).Some?
                  && after == before + [(ParseInt(e.userId.value).value, UserColumns(e).1)]
                  && UpsertAll(map[], after)
                       == UpsertAll(map[], before)[ParseInt(e.userId.value).value := UserColumns(e).1])
            && (!SurvivesCleaning(e) ==> after == before)
  {
    var e := ev[|ev| - 1];
    var cf := UserCandidates(ev[..|ev| - 1]);
    var c := UserCandidates(ev);
    if SurvivesCleaning(e) {
      assert c == cf + [UserColumns(e)];
      assert c[..|c| - 1] == cf;
      assert ParseInt(c[|c| - 1].0).Some?;
      var before := ParseUsers(cf).value;
      var after := ParseUsers(c).value;
      assert after[..|after| - 1] == before;
    }
  }

  /** The parsed users of the surviving events, upserted in order: an event
      whose id no later survivor shares leaves its row under that id. */
  lemma {:induction false} ParsedUsersLastWins(ev: seq<LogEvent>, j: nat)
    requires ParseUsers(UserCandidates(ev)).Some? && j < |ev| && SurvivesCleaning(ev[j])
    requires forall l | j < l < |ev| && SurvivesCleaning(ev[l]) ::
               ParseInt(ev[l].userId.value) != ParseInt(ev[j].userId.value)
    ensures ParseInt(ev[j].userId.value).Some?
    ensures var users := UpsertAll(map[], ParseUsers(UserCandidates(ev)).value);
            var id := ParseInt(ev[j].userId.value).value;
            id in users && users[id] == UserColumns(ev[j]).1
  {
    var n := |ev| - 1;
    var front, e := ev[..n], ev[n];
    ParsedUsersSnoc(ev);
    var before := ParseUsers(UserCandidates(front)).value;
    var after := ParseUsers(UserCandidates(ev)).value;
    if j < n {
      assert ev[j] == front[j];
      forall l | j < l < |front| && SurvivesCleaning(front[l])
        ensures ParseInt(front[l].userId.value) != ParseInt(front[j].userId.value)
      {
        assert front[l] == ev[l];
      }
      ParsedUsersLastWins(front, j);
    }
    var id := ParseInt(ev[j].userId.value).value;
    var m := UpsertAll(map[], before);
    if SurvivesCleaning(e) {
      var last := ParseInt(e.userId.value).value;
      assert UpsertAll(map[], after) == m[last := UserColumns(e).1];
      if j < n {
        assert ParseInt(ev[n].userId.value) != ParseInt(ev[j].userId.value);
        assert last != id;
        assert id in m && m[id] == UserColumns(ev[j]).1;
      } else {
        assert e == ev[j] && last == id;
      }
    } else {
      assert j < n;
      assert UpsertAll(map[], after) == m;
    }
  }

  /** Last wins, stated on the events: after the users COPY, the row under a
      surviving event's id is that event's row when no later survivor has the
      same id. */
  lemma CleanUsersLastWins(ev: seq<LogEvent>, j: nat)
    requires CleanUsers(ev).Some? && j < |ev| && SurvivesCleaning(ev[j])
    requires forall l | j < l < |ev| && SurvivesCleaning(ev[l]) ::
               ParseInt(ev[l].userId.value) != ParseInt(ev[j].userId.value)
    ensures ParseInt(ev[j].userId.value).Some?
    ensures var users := UpsertAll(map[], CleanUsers(ev).value);
            var id := ParseInt(ev[j].userId.value).value;
            id in users && users[id] == UserColumns(ev[j]).1
  {
    CleanUsersSpec(ev);
    ParsedUsersLastWins(ev, j);
  }

  // ---------------------------------------------------------------------------
  // Staging rows

  /** The songplay row candidate of an event, with its user id already converted. */
  function StagingRowOf(e: LogEvent, userId: UserId): StagingRow
  {
    StagingRow(e.ts, userId, e.level, e.song, e.artist, IntToString(e.sessionId),
               e.location, e.userAgent, e.length)
  }

  /** The userId text of the event is present and the bigint column user_id
      accepts it. */
  predicate HasUserId(e: LogEvent)
  {
    e.userId.Some? && ParseInt(e.userId.value).Some?
  }

  /** The keyed staging row of an event: songplay_id `str(sessionId) + '-' +
      str(ts)`, start_time the event's ts. */
  function StagingPair(e: LogEvent): (p: (SongplayId, StagingRow))
    requires HasUserId(e)
    ensures p.0 == SongplayId(e.sessionId, e.ts) && p.1.startTime == e.ts
    ensures p.1.userId == ParseInt(e.userId.value).value
  {
    (SongplayId(e.sessionId, e.ts), StagingRowOf(e, ParseInt(e.userId.value).value))
  }

  /** The rows copied into temp_log_data, one per event in order; None when
      the user_id column rejects some event's userId text. */
  function StagingRows(ev: seq<LogEvent>): (r: Option<seq<(SongplayId, StagingRow)>>)
    ensures r.Some? ==> |r.value| == |ev|
  {
    if ev == [] then Some([])
    else
      var rest := StagingRows(ev[..|ev| - 1]);
      var e := ev[|ev| - 1];
      if rest.None? || !HasUserId(e) then None else Some(rest.value + [StagingPair(e)])
  }

  /** The staging copy fails exactly when some event has a missing, empty or
      non-integer userId. */
  lemma {:induction false} StagingRowsFail(ev: seq<LogEvent>)
    ensures StagingRows(ev).Some? <==> forall i | 0 <= i < |ev| :: HasUserId(ev[i])
  {
    if ev != [] {
      var front, e := ev[..|ev| - 1], ev[|ev| - 1];
      StagingRowsFail(front);
      if StagingRows(front).None? {
        var i :| 0 <= i < |front| && !HasUserId(front[i]);
        assert ev[i] == front[i];
      } else if HasUserId(e) {
        forall i | 0 <= i < |ev|
          ensures HasUserId(ev[i])
        {
          if i < |front| {
            assert ev[i] == front[i];
          }
        }
      }
    }
  }

  /** Otherwise row `i` is the keyed row of event `i`. */
  lemma {:induction false} StagingRowsEach(ev: seq<LogEvent>, i: nat)
    requires StagingRows(ev).Some? && i < |ev|
    ensures HasUserId(ev[i]) && StagingRows(ev).value[i] == StagingPair(ev[i])
  {
    var front := ev[..|ev| - 1];
    if i < |front| {
      StagingRowsEach(front, i);
    }
  }
}

/** What each SQL statement of the schema does to the tables it writes, as a
    function from maps to maps:
    - `INSERT ... ON CONFLICT (key) DO UPDATE SET <every other column>` is map
      update (songs, artists, users, songplays);
    - `INSERT ... ON CONFLICT (start_time) DO NOTHING` adds a row only for a new
      key (time);
    - `COPY` (no conflict clause) adds every row or fails on a key that is
      already present or repeated;
    - `song_select` and `join_log_data_songs_artists` are comprehensions over
      the songs and artists tables. */
module Statements {
  import opened Rows

  // ---------------------------------------------------------------------------
  // Rows keyed by their primary key

  /** The keys that occur in a sequence of keyed rows. */
  function KeysOf<K(==), V>(rows: seq<(K, V)>): (ks: set<K>)
    ensures forall i | 0 <= i < |rows| :: rows[i].0 in ks
  {
    if rows == [] then {} else KeysOf(rows[..|rows| - 1]) + {rows[|rows| - 1].0}
  }

  /** No key occurs twice. */
  predicate UniqueKeys<K(==), V>(rows: seq<(K, V)>)
  {
    forall i, j | 0 <= i < j < |rows| :: rows[i].0 != rows[j].0
  }

  /** The position of the last row with key `k`. */
  function LastIndex<K(==), V>(rows: seq<(K, V)>, k: K): (i: nat)
    requires k in KeysOf(rows)
    ensures i < |rows| && rows[i].0 == k
    ensures forall j | i < j < |rows| :: rows[j].0 != k
  {
    if rows[|rows| - 1].0 == k then |rows| - 1 else LastIndex(rows[..|rows| - 1], k)
  }

  /** The position of the first row with key `k`. */
  function FirstIndex<K(==), V>(rows: seq<(K, V)>, k: K): (i: nat)
    requires k in KeysOf(rows)
    ensures i < |rows| && rows[i].0 == k
    ensures forall j | 0 <= j < i :: rows[j].0 != k
  {
    if k in KeysOf(rows[..|rows| - 1]) then FirstIndex(rows[..|rows| - 1], k) else |rows| - 1
  }

  lemma UniqueKeysLast<K, V>(rows: seq<(K, V)>)
    requires rows != []
    ensures UniqueKeys(rows) <==>
              UniqueKeys(rows[..|rows| - 1]) && rows[|rows| - 1].0 !in KeysOf(rows[..|rows| - 1])
  {
    var n := |rows| - 1;
    if rows[n].0 in KeysOf(rows[..n]) {
      var i := LastIndex(rows[..n], rows[n].0);
      assert rows[i].0 == rows[n].0;
    }
  }

  // ---------------------------------------------------------------------------
  // Single-row statements

  /** `INSERT ... ON CONFLICT DO UPDATE SET` every non-key column: the key ends
      up mapped to exactly the incoming row and no other key changes. */
  function Upsert<K(==), V>(t: map<K, V>, k: K, v: V): (r: map<K, V>)
    ensures r.Keys == t.Keys + {k} && r[k] == v
    ensures forall j | j in t && j != k :: r[j] == t[j]
  {
    t[k := v]
  }

  /** `INSERT ... ON CONFLICT DO NOTHING`: a present key leaves the table as it
      was; a new key adds exactly one row. */
  function InsertIgnore<K(==), V>(t: map<K, V>, k: K, v: V): (r: map<K, V>)
    ensures k in t ==> r == t
    ensures k !in t ==> r.Keys == t.Keys + {k} && r[k] == v
    ensures forall j | j in t :: j in r && r[j] == t[j]
  {
    if k in t then t else t[k := v]
  }

  lemma UpsertIdempotent<K, V>(t: map<K, V>, k: K, v: V)
    ensures Upsert(Upsert(t, k, v), k, v) == Upsert(t, k, v)
  {
  }

  // ---------------------------------------------------------------------------
  // Statements executed once per row, in order

  /** One upsert per row, in order. */
  function UpsertAll<K(==), V>(t: map<K, V>, rows: seq<(K, V)>): (r: map<K, V>)
    ensures r.Keys == t.Keys + KeysOf(rows)
    ensures forall k | k in t && k !in KeysOf(rows) :: r[k] == t[k]
  {
    if rows == [] then t
    else Upsert(UpsertAll(t, rows[..|rows| - 1]), rows[|rows| - 1].0, rows[|rows| - 1].1)
  }

  /** Upserting one more row of a sequence is one more upsert. */
  lemma UpsertAllStep<K, V>(t: map<K, V>, rows: seq<(K, V)>, i: nat)
    requires i < |rows|
    ensures UpsertAll(t, rows[..i + 1]) == Upsert(UpsertAll(t, rows[..i]), rows[i].0, rows[i].1)
  {
    assert rows[..i + 1][..i] == rows[..i];
  }

  /** Last writer wins: a key the rows mention ends up with its last row. */
  lemma {:induction false} UpsertAllLastWins<K, V>(t: map<K, V>, rows: seq<(K, V)>, k: K)
    requires k in KeysOf(rows)
    ensures k in UpsertAll(t, rows) && UpsertAll(t, rows)[k] == rows[LastIndex(rows, k)].1
  {
    var n := |rows| - 1;
    if rows[n].0 != k {
      UpsertAllLastWins(t, rows[..n], k);
    }
  }

  /** Running the same upserts twice gives the table that running them once gives. */
  lemma UpsertAllIdempotent<K, V>(t: map<K, V>, rows: seq<(K, V)>)
    ensures UpsertAll(UpsertAll(t, rows), rows) == UpsertAll(t, rows)
  {
    var once := UpsertAll(t, rows);
    var twice := UpsertAll(once, rows);
    forall k | k in twice ensures twice[k] == once[k] {
      if k in KeysOf(rows) {
        UpsertAllLastWins(t, rows, k);
        UpsertAllLastWins(once, rows, k);
      }
    }
  }

  /** One `DO NOTHING` insert per row, in order. */
  function InsertIgnoreAll<K(==), V>(t: map<K, V>, rows: seq<(K, V)>): (r: map<K, V>)
    ensures r.Keys == t.Keys + KeysOf(rows)
    ensures forall k | k in t :: r[k] == t[k]
  {
    if rows == [] then t
    else InsertIgnore(InsertIgnoreAll(t, rows[..|rows| - 1]), rows[|rows| - 1].0, rows[|rows| - 1].1)
  }

  /** First writer wins: a key new to the table ends up with its first row. */
  lemma {:induction false} InsertIgnoreAllFirstWins<K, V>(t: map<K, V>, rows: seq<(K, V)>, k: K)
    requires k in KeysOf(rows) && k !in t
    ensures k in InsertIgnoreAll(t, rows) && InsertIgnoreAll(t, rows)[k] == rows[FirstIndex(rows, k)].1
  {
    var n := |rows| - 1;
    if k in KeysOf(rows[..n]) {
      InsertIgnoreAllFirstWins(t, rows[..n], k);
    }
  }

  /** Re-inserting rows whose keys are all present changes nothing. */
  lemma {:induction false} InsertIgnoreAllPresent<K, V>(t: map<K, V>, rows: seq<(K, V)>)
    requires KeysOf(rows) <= t.Keys
    ensures InsertIgnoreAll(t, rows) == t
  {
    if rows != [] {
      InsertIgnoreAllPresent(t, rows[..|rows| - 1]);
    }
  }

  // ---------------------------------------------------------------------------
  // COPY: a bulk insert with no conflict clause

  /** `COPY table FROM file`: every row is inserted, or the statement fails
      (None) because a key is already in the table or occurs twice in the rows. */
  function CopyRows<K(==), V>(t: map<K, V>, rows: seq<(K, V)>): (r: Option<map<K, V>>)
    ensures r.Some? <==> t.Keys !! KeysOf(rows) && UniqueKeys(rows)
    ensures r.Some? ==> r.value == UpsertAll(t, rows)
  {
    if rows == [] then Some(t)
    else
      var front, x := rows[..|rows| - 1], rows[|rows| - 1];
      UniqueKeysLast(rows);
      var m := CopyRows(t, front);
      if m.None? || x.0 in m.value then None else Some(m.value[x.0 := x.1])
  }

  // ---------------------------------------------------------------------------
  // song_select

  /** `SELECT song_id, s.artist_id FROM songs s JOIN artists a ON s.artist_id =
      a.artist_id WHERE title = %s AND name = %s AND duration = %s`. A NULL
      probe value compares unknown and so matches nothing. */
  function SongSelect(songs: map<SongId, SongRow>, artists: map<ArtistId, ArtistRow>,
                      title: Option<string>, name: Option<string>, duration: Option<int>)
    : set<(SongId, ArtistId)>
  {
    set sid | sid in songs && Selected(songs, artists, title, name, duration, sid) :: (sid, songs[sid].artistId)
  }

  /** The WHERE clause of `song_select` for one song, joined to its artist. */
  predicate Selected(songs: map<SongId, SongRow>, artists: map<ArtistId, ArtistRow>,
                     title: Option<string>, name: Option<string>, duration: Option<int>, sid: SongId)
  {
    && sid in songs && songs[sid].artistId in artists
    && title == Some(songs[sid].title) && name == Some(artists[songs[sid].artistId].name)
    && duration == Some(songs[sid].duration)
  }

  /** The rows `song_select` returns are exactly the pairs of a song and its
      artist whose title, artist name and duration equal the probe values. */
  lemma SongSelectSpec(songs: map<SongId, SongRow>, artists: map<ArtistId, ArtistRow>,
                       title: Option<string>, name: Option<string>, duration: Option<int>)
    ensures var r := SongSelect(songs, artists, title, name, duration);
            && (forall p | p in r ::
                  && p.0 in songs && p.1 in artists && songs[p.0].artistId == p.1
                  && title == Some(songs[p.0].title) && name == Some(artists[p.1].name)
                  && duration == Some(songs[p.0].duration))
            && (forall sid, aid | sid in songs && aid in artists && songs[sid].artistId == aid
                                  && title == Some(songs[sid].title) && name == Some(artists[aid].name)
                                  && duration == Some(songs[sid].duration) :: (sid, aid) in r)
  {
  }

  // ---------------------------------------------------------------------------
  // join_log_data_songs_artists

  /** Songs the first LEFT JOIN matches: `tld.song = s.title AND tld.length <= s.duration`. */
  function SongMatches(r: StagingRow, songs: map<SongId, SongRow>): set<SongId>
  {
    set sid | sid in songs && r.song == Some(songs[sid].title)
                           && r.length.Some? && r.length.value <= songs[sid].duration
  }

  /** Artists the second LEFT JOIN matches: `tld.artist = a.name`, nothing else. */
  function ArtistMatches(r: StagingRow, artists: map<ArtistId, ArtistRow>): set<ArtistId>
  {
    set aid | aid in artists && r.artist == Some(artists[aid].name)
  }

  /** The values a LEFT JOIN contributes for one left row: the matched keys, or
      a single NULL when nothing matches. */
  function Candidates<T>(matches: set<T>): (r: set<Option<T>>)
    ensures None in r <==> matches == {}
    ensures forall x | x in matches :: Some(x) in r
    ensures forall o | o in r && o.Some? :: o.value in matches
  {
    if matches == {} then {None} else set x | x in matches :: Some(x)
  }

  /** The songplays row built from a staging row and the two resolved ids. */
  function Enrich(r: StagingRow, songId: Option<SongId>, artistId: Option<ArtistId>): SongplayRow
  {
    SongplayRow(r.startTime, r.userId, r.level, songId, artistId, r.sessionId, r.location, r.userAgent)
  }

  /** Every row the SELECT of the join produces, with its songplay_id. */
  function JoinRows(staging: map<SongplayId, StagingRow>, songs: map<SongId, SongRow>,
                    artists: map<ArtistId, ArtistRow>): set<(SongplayId, SongplayRow)>
  {
    set id, s, a | id in staging && s in Candidates(SongMatches(staging[id], songs))
                   && a in Candidates(ArtistMatches(staging[id], artists))
      :: (id, Enrich(staging[id], s, a))
  }

  predicate AtMostOne<T>(s: set<T>)
  {
    forall x, y | x in s && y in s :: x == y
  }

  /** The one element of a set with at most one element, if any. */
  function Single<T>(s: set<T>): (r: Option<T>)
    requires AtMostOne(s)
    ensures r.None? <==> s == {}
    ensures r.Some? ==> s == {r.value}
  {
    if s == {} then None else var x :| x in s; Some(x)
  }

  /** Whether a staging row meets at most one song and at most one artist. */
  predicate Unambiguous(r: StagingRow, songs: map<SongId, SongRow>, artists: map<ArtistId, ArtistRow>)
  {
    AtMostOne(SongMatches(r, songs)) && AtMostOne(ArtistMatches(r, artists))
  }

  /** The join's INSERT ... ON CONFLICT (songplay_id) DO UPDATE. PostgreSQL
      refuses the whole statement when two of the rows it proposes have the
      same songplay_id ("command cannot affect row a second time"), which is
      the case exactly when some staging row matches two songs or two artists. */
  function JoinInsert(songplays: map<SongplayId, SongplayRow>, staging: map<SongplayId, StagingRow>,
                      songs: map<SongId, SongRow>, artists: map<ArtistId, ArtistRow>)
    : Option<map<SongplayId, SongplayRow>>
  {
    if forall id | id in staging :: Unambiguous(staging[id], songs, artists) then
      Some(songplays + map id | id in staging ::
             Enrich(staging[id], Single(SongMatches(staging[id], songs)),
                    Single(ArtistMatches(staging[id], artists))))
    else None
  }

  // ---------------------------------------------------------------------------
  // Properties of the join

  /** Every staging row yields at least one joined row. Its song_id is NULL
      exactly when no song has the row's title and a duration of at least its
      length; its artist_id is NULL exactly when no artist has the row's artist
      name, whatever the song match and whatever the song's own artist_id; every
      other column is carried over from the staging row. */
  lemma JoinRowsCover(staging: map<SongplayId, StagingRow>, songs: map<SongId, SongRow>,
                      artists: map<ArtistId, ArtistRow>, id: SongplayId)
    requires id in staging
    ensures exists p :: p in JoinRows(staging, songs, artists) && p.0 == id
    ensures forall p | p in JoinRows(staging, songs, artists) && p.0 == id ::
      var r := staging[id];
      && (p.1.songId.None? <==> SongMatches(r, songs) == {})
      && (p.1.songId.Some? ==> p.1.songId.value in SongMatches(r, songs))
      && (p.1.artistId.None? <==> ArtistMatches(r, artists) == {})
      && (p.1.artistId.Some? ==> p.1.artistId.value in ArtistMatches(r, artists))
      && p.1.startTime == r.startTime && p.1.userId == r.userId && p.1.level == r.level
      && p.1.sessionId == r.sessionId && p.1.location == r.location && p.1.userAgent == r.userAgent
  {
    var r := staging[id];
    var ms, ma := SongMatches(r, songs), ArtistMatches(r, artists);
    var s: Option<SongId> := if ms == {} then None else var x :| x in ms; Some(x);
    var a: Option<ArtistId> := if ma == {} then None else var x :| x in ma; Some(x);
    assert s in Candidates(ms) && a in Candidates(ma);
    assert (id, Enrich(r, s, a)) in JoinRows(staging, songs, artists);
  }

  /** With at most one matching song and one matching artist, a staging row
      yields exactly one joined row. */
  lemma JoinRowsUnambiguous(staging: map<SongplayId, StagingRow>, songs: map<SongId, SongRow>,
                            artists: map<ArtistId, ArtistRow>, id: SongplayId)
    requires id in staging && Unambiguous(staging[id], songs, artists)
    ensures forall p | p in JoinRows(staging, songs, artists) && p.0 == id ::
      p.1 == Enrich(staging[id], Single(SongMatches(staging[id], songs)),
                    Single(ArtistMatches(staging[id], artists)))
  {
  }

  /** A staging row that matches two songs or two artists yields two joined
      rows with the same songplay_id. */
  lemma JoinRowsAmbiguous(staging: map<SongplayId, StagingRow>, songs: map<SongId, SongRow>,
                          artists: map<ArtistId, ArtistRow>, id: SongplayId)
    requires id in staging && !Unambiguous(staging[id], songs, artists)
    ensures exists p, q :: p in JoinRows(staging, songs, artists) && q in JoinRows(staging, songs, artists)
                           && p.0 == id && q.0 == id && p != q
  {
    var r := staging[id];
    var ms, ma := SongMatches(r, songs), ArtistMatches(r, artists);
    var rows := JoinRows(staging, songs, artists);
    if !AtMostOne(ms) {
      var x, y :| x in ms && y in ms && x != y;
      var a: Option<ArtistId> := if ma == {} then None else var z :| z in ma; Some(z);
      assert a in Candidates(ma);
      assert Some(x) in Candidates(ms) && Some(y) in Candidates(ms);
      assert (id, Enrich(r, Some(x), a)) in rows && (id, Enrich(r, Some(y), a)) in rows;
    } else {
      var x, y :| x in ma && y in ma && x != y;
      var s: Option<SongId> := if ms == {} then None else var z :| z in ms; Some(z);
      assert s in Candidates(ms);
      assert Some(x) in Candidates(ma) && Some(y) in Candidates(ma);
      assert (id, Enrich(r, s, Some(x))) in rows && (id, Enrich(r, s, Some(y))) in rows;
    }
  }

  /** No songplay_id is proposed twice. */
  predicate ProposesEachIdOnce(rows: set<(SongplayId, SongplayRow)>)
  {
    forall p, q | p in rows && q in rows :: p.0 == q.0 ==> p == q
  }

  lemma JoinRowsIds(staging: map<SongplayId, StagingRow>, songs: map<SongId, SongRow>,
                    artists: map<ArtistId, ArtistRow>, p: (SongplayId, SongplayRow))
    requires p in JoinRows(staging, songs, artists)
    ensures p.0 in staging
  {
  }

  /** The join's insert succeeds exactly when the SELECT proposes no songplay_id
      twice. */
  lemma JoinInsertSucceedsIff(songplays: map<SongplayId, SongplayRow>, staging: map<SongplayId, StagingRow>,
                              songs: map<SongId, SongRow>, artists: map<ArtistId, ArtistRow>)
    ensures JoinInsert(songplays, staging, songs, artists).Some? <==>
              ProposesEachIdOnce(JoinRows(staging, songs, artists))
  {
    var rows := JoinRows(staging, songs, artists);
    if forall id | id in staging :: Unambiguous(staging[id], songs, artists) {
      forall p, q | p in rows && q in rows && p.0 == q.0 ensures p == q {
        JoinRowsIds(staging, songs, artists, p);
        JoinRowsUnambiguous(staging, songs, artists, p.0);
      }
    } else {
      var id :| id in staging && !Unambiguous(staging[id], songs, artists);
      JoinRowsAmbiguous(staging, songs, artists, id);
    }
  }

  /** When the join's insert succeeds it upserts every proposed row and leaves
      every songplay that no staging row names as it was. */
  lemma JoinInsertUpserts(songplays: map<SongplayId, SongplayRow>, staging: map<SongplayId, StagingRow>,
                          songs: map<SongId, SongRow>, artists: map<ArtistId, ArtistRow>)
    requires JoinInsert(songplays, staging, songs, artists).Some?
    ensures var r := JoinInsert(songplays, staging, songs, artists).value;
            && r.Keys == songplays.Keys + staging.Keys
            && (forall p | p in JoinRows(staging, songs, artists) :: p.0 in r && r[p.0] == p.1)
            && (forall k | k in songplays && k !in staging :: r[k] == songplays[k])
  {
    var r := JoinInsert(songplays, staging, songs, artists).value;
    forall p | p in JoinRows(staging, songs, artists) ensures p.0 in r && r[p.0] == p.1 {
      JoinRowsIds(staging, songs, artists, p);
      JoinRowsUnambiguous(staging, songs, artists, p.0);
    }
  }

  /** The row-by-row lookup is stricter than the join: a pair `song_select`
      returns for a staging row's title, artist name and length is matched by
      both LEFT JOINs. */
  lemma SelectedPairIsJoined(songs: map<SongId, SongRow>, artists: map<ArtistId, ArtistRow>,
                             r: StagingRow, p: (SongId, ArtistId))
    requires p in SongSelect(songs, artists, r.song, r.artist, r.length)
    ensures p.0 in SongMatches(r, songs) && p.1 in ArtistMatches(r, artists)
  {
    SongSelectSpec(songs, artists, r.song, r.artist, r.length);
  }
}

/** `HeartbrokenDatabase` of libs/database.py: the `heartbroken` table of
    dislikes, three nullable columns that are each UNIQUE, held here as a
    sequence of rows in insertion order. The SQLite engine is replaced by the
    meaning of the three statements the source issues; `fault` stands for the
    engine raising `sqlite3.IntegrityError`. */
module Database {
  import opened Py
  import opened Tracks

  /** One row: `artist_id`, `album_id`, `track_id`, each NULL or text. */
  datatype Row = Row(artistId: Option<string>, albumId: Option<string>, trackId: Option<string>)

  /** What a classification reports: `(True, kind)`, `(False, None)` or `(None, None)`. */
  datatype Kind = ArtistKind | AlbumKind | TrackKind
  datatype Classification = Disliked(kind: Kind) | NotDisliked | StoreError

  // ---------------------------------------------------------------------------
  // The UNIQUE columns

  /** Two non-NULL values in the same column that are equal (NULLs never clash). */
  predicate Same(a: Option<string>, b: Option<string>)
  {
    a.Some? && a == b
  }

  /** Two rows violate some UNIQUE constraint. */
  predicate Clash(r: Row, s: Row)
  {
    Same(r.artistId, s.artistId) || Same(r.albumId, s.albumId) || Same(r.trackId, s.trackId)
  }

  /** No two rows share a non-NULL value in the same column. */
  predicate Unique(rows: seq<Row>)
  {
    forall i, j :: 0 <= i < j < |rows| ==> !Clash(rows[i], rows[j])
  }

  /** `INSERT OR IGNORE INTO heartbroken VALUES (?, ?, ?)`: a row that would
      violate a UNIQUE column is dropped, otherwise it is appended. */
  function InsertOrIgnore(rows: seq<Row>, r: Row): (res: seq<Row>)
    ensures Unique(rows) ==> Unique(res)
    ensures res == rows || res == rows + [r]
    ensures res == rows + [r] <==> forall k :: 0 <= k < |rows| ==> !Clash(rows[k], r)
  {
    if exists k :: 0 <= k < |rows| && Clash(rows[k], r) then rows else rows + [r]
  }

  /** The value `remove_heartbreak` compares a column with: `'_'` for None. */
  function Target(id: Option<string>): string
  {
    if id.None? then "_" else id.value
  }

  /** `artist_id = (?) OR track_id = (?) OR album_id = (?)` for one row. */
  predicate Deleted(row: Row, artist: string, track: string, album: string)
  {
    row.artistId == Some(artist) || row.trackId == Some(track) || row.albumId == Some(album)
  }

  /** The `DELETE` statement: keeps, in order, exactly the rows it does not match. */
  function RemoveMatching(rows: seq<Row>, artist: string, track: string, album: string): (res: seq<Row>)
    ensures forall row :: row in res <==> row in rows && !Deleted(row, artist, track, album)
    ensures |res| <= |rows|
    ensures Unique(rows) ==> Unique(res)
  {
    if rows == [] then []
    else
      var rest := RemoveMatching(rows[1..], artist, track, album);
      assert forall row :: row in rows <==> row == rows[0] || row in rows[1..];
      if Deleted(rows[0], artist, track, album) then rest
      else
        assert Unique(rows) ==> forall k :: 0 <= k < |rest| ==> !Clash(rows[0], rest[k]) by {
          if Unique(rows) {
            forall k | 0 <= k < |rest|
              ensures !Clash(rows[0], rest[k])
            {
              assert rest[k] in rows[1..];
              var j :| 0 <= j < |rows[1..]| && rows[1..][j] == rest[k];
              assert rows[j + 1] == rest[k];
            }
          }
        }
        [rows[0]] + rest
  }

  /** The deletion works row by row and keeps the order: on a concatenation it
      is the concatenation of the two results (`RemoveMatchingCons` gives a
      single row). */
  lemma {:induction false} RemoveMatchingSplits(a: seq<Row>, b: seq<Row>, artist: string, track: string, album: string)
    ensures RemoveMatching(a + b, artist, track, album)
         == RemoveMatching(a, artist, track, album) + RemoveMatching(b, artist, track, album)
    decreases |a|
  {
    if a == [] {
      assert a + b == b;
    } else {
      var row, rest := a[0], a[1..];
      assert a == [row] + rest && a + b == [row] + (rest + b);
      RemoveMatchingCons(row, rest + b, artist, track, album);
      RemoveMatchingCons(row, rest, artist, track, album);
      RemoveMatchingSplits(rest, b, artist, track, album);
      Associative(if Deleted(row, artist, track, album) then [] else [row],
                  RemoveMatching(rest, artist, track, album), RemoveMatching(b, artist, track, album));
    }
  }

  lemma Associative<T>(x: seq<T>, y: seq<T>, z: seq<T>)
    ensures x + (y + z) == (x + y) + z
  {
  }

  /** A row in front is kept exactly when it is not matched. */
  lemma RemoveMatchingCons(row: Row, rows: seq<Row>, artist: string, track: string, album: string)
    ensures RemoveMatching([row] + rows, artist, track, album)
         == (if Deleted(row, artist, track, album) then [] else [row]) + RemoveMatching(rows, artist, track, album)
  {
    var all := [row] + rows;
    assert all[0] == row && all[1..] == rows;
    var rest := RemoveMatching(rows, artist, track, album);
    if Deleted(row, artist, track, album) {
      assert [] + rest == rest;
    }
  }

  /** A row with no id at all, which both statements refuse with an Exception. */
  predicate NoId(row: Row)
  {
    row.artistId.None? && row.albumId.None? && row.trackId.None?
  }

  /** `save_heartbreak` on a table: the returned value (or exception) and the
      rows afterwards. All ids None raises; a missing table raises
      OperationalError; IntegrityError gives False; otherwise the row is
      inserted or ignored and the call returns True either way. */
  function SaveOne(rows: seq<Row>, table: bool, row: Row, fault: bool): (r: (Result<bool>, seq<Row>))
    ensures Unique(rows) ==> Unique(r.1)
    ensures r.0 == Raised(NoIdSpecified) <==> NoId(row)
    ensures r.0 == Raised(OperationalError) <==> !NoId(row) && !table
    ensures r.0 == Ok(true) <==> !NoId(row) && table && !fault
    ensures r.0 != Ok(true) ==> r.1 == rows
    ensures r.0 == Ok(true) ==> r.1 == rows || r.1 == rows + [row]
  {
    if NoId(row) then (Raised(NoIdSpecified), rows)
    else if !table then (Raised(OperationalError), rows)
    else if fault then (Ok(false), rows)
    else (Ok(true), InsertOrIgnore(rows, row))
  }

  /** `remove_heartbreak` on a table: as `SaveOne`, but the rows that match
      any of the three values (with '_' for None) are deleted. */
  function RemoveOne(rows: seq<Row>, table: bool, row: Row, fault: bool): (r: (Result<bool>, seq<Row>))
    ensures Unique(rows) ==> Unique(r.1)
    ensures r.0 == Raised(NoIdSpecified) <==> NoId(row)
    ensures r.0 == Raised(OperationalError) <==> !NoId(row) && !table
    ensures r.0 == Ok(true) <==> !NoId(row) && table && !fault
    ensures r.0 != Ok(true) ==> r.1 == rows
    ensures r.0 == Ok(true) ==> forall x :: x in r.1 <==>
      x in rows && !Deleted(x, Target(row.artistId), Target(row.trackId), Target(row.albumId))
  {
    if NoId(row) then (Raised(NoIdSpecified), rows)
    else if !table then (Raised(OperationalError), rows)
    else if fault then (Ok(false), rows)
    else (Ok(true), RemoveMatching(rows, Target(row.artistId), Target(row.trackId), Target(row.albumId)))
  }

  // ---------------------------------------------------------------------------
  // Classification

  /** `artist_id IN (...)`: a non-NULL artist id among the track's artist ids. */
  predicate ArtistHit(row: Row, t: Track)
  {
    row.artistId.Some? && row.artistId in t.artistIds
  }

  /** The WHERE clause: some column equals the track's value (NULL matches nothing). */
  predicate RowMatches(row: Row, t: Track)
  {
    ArtistHit(row, t) || Same(row.albumId, t.albumId) || Same(row.trackId, t.id)
  }

  /** The selected columns read as 'artist', else 'album', else 'track'. */
  function RowKind(row: Row, t: Track): (k: Kind)
    requires RowMatches(row, t)
    ensures k == ArtistKind <==> ArtistHit(row, t)
    ensures k == AlbumKind <==> !ArtistHit(row, t) && Same(row.albumId, t.albumId)
    ensures k == TrackKind ==> Same(row.trackId, t.id)
  {
    if ArtistHit(row, t) then ArtistKind
    else if Same(row.albumId, t.albumId) then AlbumKind
    else TrackKind
  }

  /** `c` is an answer `is_heartbroken` can give for `rows`: with `LIMIT 1` and
      no ORDER BY, any matching row may be the one returned. */
  ghost predicate Classifies(rows: seq<Row>, t: Track, c: Classification)
  {
    match c
    case NotDisliked => forall i :: 0 <= i < |rows| ==> !RowMatches(rows[i], t)
    case Disliked(k) => exists i :: 0 <= i < |rows| && RowMatches(rows[i], t) && RowKind(rows[i], t) == k
    case StoreError => false
  }

  /** What a lookup decides, whichever matching row it returns. */
  datatype Verdict = Dislike | Clean | StoreFault

  /** The outcome of `is_heartbroken` up to the reported kind: a missing table
      or a None artist id raises OperationalError, IntegrityError reads as
      `(None, None)`, and otherwise the track is disliked exactly when some row
      matches it. */
  function Lookup(rows: seq<Row>, table: bool, fault: bool, t: Track): Result<Verdict>
  {
    if !table || None in t.artistIds then Raised(OperationalError)
    else if fault then Ok(StoreFault)
    else if exists i :: 0 <= i < |rows| && RowMatches(rows[i], t) then Ok(Dislike)
    else Ok(Clean)
  }

  /** The verdict behind an answer of `is_heartbroken`. */
  function VerdictOf(c: Result<Classification>): Result<Verdict>
  {
    match c
    case Raised(e) => Raised(e)
    case Ok(Disliked(_)) => Ok(Dislike)
    case Ok(NotDisliked) => Ok(Clean)
    case Ok(StoreError) => Ok(StoreFault)
  }

  /** The artist-over-album precedence holds inside one row only: with an album
      row and an artist row both matching, either kind may be reported. */
  lemma PrecedenceIsPerRow()
    ensures var t := Track(JBool(true), 0, None, Some("t"), None, None, Some("al"), Some("A"), [Some("ar")], Unmarked);
      var rows := [Row(None, Some("al"), None), Row(Some("ar"), None, None)];
      Unique(rows) && Classifies(rows, t, Disliked(AlbumKind)) && Classifies(rows, t, Disliked(ArtistKind))
  {
    var t := Track(JBool(true), 0, None, Some("t"), None, None, Some("al"), Some("A"), [Some("ar")], Unmarked);
    var rows := [Row(None, Some("al"), None), Row(Some("ar"), None, None)];
    assert RowMatches(rows[0], t) && RowKind(rows[0], t) == AlbumKind;
    assert RowMatches(rows[1], t) && RowKind(rows[1], t) == ArtistKind;
  }

  // ---------------------------------------------------------------------------
  // Rendering the artist ids into the query

  /** `repr` of one artist id: a quoted string, or `None`. */
  function Repr(id: Option<string>): string
  {
    if id.None? then "None" else "'" + id.value + "'"
  }

  function JoinReprs(ids: seq<Option<string>>): string
  {
    if ids == [] then ""
    else if |ids| == 1 then Repr(ids[0])
    else Repr(ids[0]) + ", " + JoinReprs(ids[1..])
  }

  /** `str(tuple(ids))`: a one-element tuple keeps its trailing comma. */
  function TupleRepr(ids: seq<Option<string>>): string
  {
    "(" + JoinReprs(ids) + (if |ids| == 1 then "," else "") + ")"
  }

  /** `s.replace(',)', ')')` */
  function DropCommaParen(s: string): (r: string)
    ensures |r| <= |s|
    ensures ',' !in s ==> r == s
  {
    if |s| >= 2 && s[0] == ',' && s[1] == ')' then ")" + DropCommaParen(s[2..])
    else if s == [] then []
    else [s[0]] + DropCommaParen(s[1..])
  }

  /** The text spliced into `artist_id IN ...`. */
  function RenderIds(ids: seq<Option<string>>): string
  {
    DropCommaParen(TupleRepr(ids))
  }

  /** `tuple_filter_regex.match(s)`: `re.match` with a one-character class
      looks at the first character only. */
  predicate GuardRejects(s: string)
  {
    s != [] && !(('a' <= s[0] <= 'z') || ('A' <= s[0] <= 'Z') || ('0' <= s[0] <= '9')
                 || s[0] in {'\'', ',', ' ', '(', ')'})
  }

  /** The rendered ids always start with `(`, so the guard never rejects. */
  lemma GuardNeverRejects(ids: seq<Option<string>>)
    ensures RenderIds(ids) != [] && RenderIds(ids)[0] == '('
    ensures !GuardRejects(RenderIds(ids))
  {
    var s := TupleRepr(ids);
    assert s[0] == '(' && s[1..] == JoinReprs(ids) + (if |ids| == 1 then "," else "") + ")";
    assert DropCommaParen(s) == [s[0]] + DropCommaParen(s[1..]);
  }

  lemma {:induction false} DropCommaParenNoComma(p: string, q: string)
    requires ',' !in p
    ensures DropCommaParen(p + q) == p + DropCommaParen(q)
    decreases |p|
  {
    if p == [] {
      assert p + q == q;
    } else {
      var w := p + q;
      assert w[0] == p[0] != ',' && w[1..] == p[1..] + q;
      assert DropCommaParen(w) == [p[0]] + DropCommaParen(p[1..] + q);
      DropCommaParenNoComma(p[1..], q);
      assert p == [p[0]] + p[1..];
      Associative([p[0]], p[1..], DropCommaParen(q));
    }
  }

  /** The replacement, one step at a time: text without a comma is copied,
      each `,)` becomes `)`, and a comma not followed by `)` is copied. Any
      text splits into a comma-free part followed by one of these cases or
      by nothing, so this is the whole of `replace(',)', ')')`. */
  lemma {:induction false} DropCommaParenSteps(p: string, q: string)
    requires ',' !in p
    ensures DropCommaParen(p + q) == p + DropCommaParen(q)
    ensures DropCommaParen(p + ",)" + q) == p + ")" + DropCommaParen(q)
    ensures q == [] || q[0] != ')' ==> DropCommaParen(p + "," + q) == p + "," + DropCommaParen(q)
  {
    DropCommaParenNoComma(p, q);
    DropCommaParenPair(p, q);
    if q == [] || q[0] != ')' {
      DropCommaParenLoneComma(p, q);
    }
  }

  /** After a comma-free prefix, `,)` becomes `)`. */
  lemma DropCommaParenPair(p: string, q: string)
    requires ',' !in p
    ensures DropCommaParen(p + ",)" + q) == p + ")" + DropCommaParen(q)
  {
    var u := ",)" + q;
    assert DropCommaParen(u) == ")" + DropCommaParen(q) by {
      assert u[0] == ',' && u[1] == ')' && u[2..] == q;
    }
    DropCommaParenNoComma(p, u);
    Associative(p, ",)", q);
    Associative(p, ")", DropCommaParen(q));
  }

  /** After a comma-free prefix, a comma not followed by `)` is kept. */
  lemma DropCommaParenLoneComma(p: string, q: string)
    requires ',' !in p
    requires q == [] || q[0] != ')'
    ensures DropCommaParen(p + "," + q) == p + "," + DropCommaParen(q)
  {
    var u := "," + q;
    assert DropCommaParen(u) == "," + DropCommaParen(q) by {
      assert u[0] == ',' && u[1..] == q && (|u| < 2 || u[1] != ')');
    }
    DropCommaParenNoComma(p, u);
    Associative(p, ",", q);
    Associative(p, ",", DropCommaParen(q));
  }

  /** A single id renders without the tuple's trailing comma: `('x')`. */
  lemma SingleIdRendering(x: string)
    requires ',' !in x
    ensures RenderIds([Some(x)]) == "('" + x + "')"
  {
    var p := "('" + x + "'";
    assert TupleRepr([Some(x)]) == p + ",)";
    DropCommaParenNoComma(p, ",)");
    assert DropCommaParen(",)") == ")" + DropCommaParen([]);
  }

  // ---------------------------------------------------------------------------
  // The table

  class HeartbrokenDatabase {
    var tableExists: bool
    var rows: seq<Row>

    /** The UNIQUE constraints hold, and there are no rows without a table. */
    ghost predicate Valid()
      reads this
    {
      Unique(rows) && (!tableExists ==> rows == [])
    }

    constructor (tableExists: bool, rows: seq<Row>)
      requires Unique(rows) && (!tableExists ==> rows == [])
      ensures Valid() && this.tableExists == tableExists && this.rows == rows
    {
      this.tableExists := tableExists;
      this.rows := rows;
    }

    /** `maybe_create_table`: `CREATE TABLE IF NOT EXISTS`, False on IntegrityError. */
    method MaybeCreateTable(fault: bool) returns (ok: bool)
      requires Valid()
      modifies this
      ensures Valid()
      ensures ok == !fault
      ensures ok ==> tableExists && rows == old(rows)
      ensures !ok ==> tableExists == old(tableExists) && rows == old(rows)
    {
      if fault {
        return false;
      }
      tableExists := true;
      ok := true;
    }

    /** `is_heartbroken(track)`. A missing table or a None artist id (rendered
        as the bare word `None`) makes SQLite raise OperationalError, which is
        not caught; IntegrityError gives (None, None). */
    method IsHeartbroken(t: Track, fault: bool) returns (r: Result<Classification>)
      requires Valid()
      ensures (!tableExists || None in t.artistIds) ==> r == Raised(OperationalError)
      ensures tableExists && None !in t.artistIds && fault ==> r == Ok(StoreError)
      ensures tableExists && None !in t.artistIds && !fault ==> r.Ok? && Classifies(rows, t, r.value)
      ensures r == Ok(NotDisliked) ==> forall i :: 0 <= i < |rows| ==> !RowMatches(rows[i], t)
      ensures VerdictOf(r) == Lookup(rows, tableExists, fault, t)
    {
      var rendered := RenderIds(t.artistIds);
      // The guard of line 43 inspects the first character only, which is '('.
      GuardNeverRejects(t.artistIds);
      if !tableExists || None in t.artistIds {
        return Raised(OperationalError);
      }
      if fault {
        return Ok(StoreError);
      }
      if exists i :: 0 <= i < |rows| && RowMatches(rows[i], t) {
        var i :| 0 <= i < |rows| && RowMatches(rows[i], t);
        return Ok(Disliked(RowKind(rows[i], t)));
      }
      return Ok(NotDisliked);
    }

    /** `save_heartbreak(track_id, artist_id, album_id)`. */
    method SaveHeartbreak(track: Option<string>, artist: Option<string>, album: Option<string>, fault: bool)
      returns (r: Result<bool>)
      requires Valid()
      modifies this
      ensures Valid() && tableExists == old(tableExists)
      ensures (r, rows) == SaveOne(old(rows), tableExists, Row(artist, album, track), fault)
    {
      if track.None? && artist.None? && album.None? {
        return Raised(NoIdSpecified);
      }
      if !tableExists {
        return Raised(OperationalError);
      }
      if fault {
        return Ok(false);
      }
      rows := InsertOrIgnore(rows, Row(artist, album, track));
      return Ok(true);
    }

    /** `remove_heartbreak(track_id, artist_id, album_id)`. */
    method RemoveHeartbreak(track: Option<string>, artist: Option<string>, album: Option<string>, fault: bool)
      returns (r: Result<bool>)
      requires Valid()
      modifies this
      ensures Valid() && tableExists == old(tableExists)
      ensures (r, rows) == RemoveOne(old(rows), tableExists, Row(artist, album, track), fault)
    {
      if track.None? && artist.None? && album.None? {
        return Raised(NoIdSpecified);
      }
      if !tableExists {
        return Raised(OperationalError);
      }
      if fault {
        return Ok(false);
      }
      rows := RemoveMatching(rows, Target(artist), Target(track), Target(album));
      return Ok(true);
    }
  }

  // ---------------------------------------------------------------------------
  // Save, remove and classify together

  /** After an artist is saved (inserted or already present), every track by
      that artist matches some row, so it is classified as disliked. */
  lemma SavedArtistMatches(rows: seq<Row>, a: string, t: Track)
    requires Some(a) in t.artistIds
    ensures var res := InsertOrIgnore(rows, Row(Some(a), None, None));
      exists i :: 0 <= i < |res| && RowMatches(res[i], t)
  {
    var res := InsertOrIgnore(rows, Row(Some(a), None, None));
    if res == rows + [Row(Some(a), None, None)] {
      assert RowMatches(res[|rows|], t);
    } else {
      var k :| 0 <= k < |rows| && Clash(rows[k], Row(Some(a), None, None));
      assert rows[k].artistId == Some(a);
      assert RowMatches(res[k], t);
    }
  }

  /** After an artist is removed, no row holds that artist id any more. */
  lemma RemovedArtistGone(rows: seq<Row>, a: string)
    ensures forall i :: 0 <= i < |RemoveMatching(rows, a, "_", "_")| ==>
      RemoveMatching(rows, a, "_", "_")[i].artistId != Some(a)
  {
    var res := RemoveMatching(rows, a, "_", "_");
    forall i | 0 <= i < |res|
      ensures res[i].artistId != Some(a)
    {
      assert res[i] in res;
    }
  }

  /** Removing with `'_'` for a missing id also deletes a row whose value in
      that column is literally `_`: the placeholder is an ordinary value. */
  lemma PlaceholderDeletes()
    ensures RemoveMatching([Row(None, None, Some("_"))], "a", Target(None), Target(None)) == []
  {
  }
}

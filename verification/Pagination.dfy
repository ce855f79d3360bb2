/** Keyset pagination: cursor tokens, the keyset predicate, and the file listing that follows them. */
module Pagination {
  import opened Arithmetic
  import opened Options
  import opened Text

  datatype Cursor = Cursor(sort: string, order: string, value: string, id: string)

  const NO_CURSOR := Cursor("", "", "", "")

  // The JSON and base64 layer: how a cursor is written and read back.
  datatype Codec = Codec(write: Cursor -> string, read: string -> Option<Cursor>) {
    ghost predicate Faithful() {
      forall c :: write(c) != "" && read(TrimSpace(write(c))) == Some(c)
    }
  }

  function Encode(codec: Codec, c: Cursor): string {
    if c.id == "" then "" else codec.write(c)
  }

  datatype Decoded = Good(cursor: Cursor) | BadCursor

  function Decode(codec: Codec, token: string): Decoded {
    if token == "" then Good(NO_CURSOR)
    else
      var c := codec.read(TrimSpace(token));
      if c.None? || (c.value.order != "ASC" && c.value.order != "DESC") then BadCursor else Good(c.value)
  }

  // Something was decoded, and it names a direction.
  predicate ReadsCursor(c: Option<Cursor>) {
    c.Some? && c.value.order in {"ASC", "DESC"}
  }

  lemma TokenRoundTrip(codec: Codec, c: Cursor)
    requires codec.Faithful()
    ensures Decode(codec, Encode(codec, c)) ==
              if c.id == "" then Good(NO_CURSOR)
              else if c.order == "ASC" || c.order == "DESC" then Good(c) else BadCursor
  {
    assert codec.write(c) != "" && codec.read(TrimSpace(codec.write(c))) == Some(c);
  }

  // ---- rows and their order ----

  datatype Row<V> = Row(id: string, value: V)

  // How the database compares a sort column and ids, and how a sort value travels in a cursor.
  datatype Column<!V(!new)> = Column(le: (V, V) -> bool, idLe: (string, string) -> bool, show: V -> string,
    parse: string -> V) {
    ghost predicate Lawful() {
      && (forall v, w {:trigger le(v, w)} :: le(v, w) || le(w, v))
      && (forall u, v, w {:trigger le(u, v), le(v, w)} :: le(u, v) && le(v, w) ==> le(u, w))
      && (forall i, j {:trigger idLe(i, j)} :: (idLe(i, j) || idLe(j, i)) && (idLe(i, j) && idLe(j, i) ==> i == j))
      && (forall i, j, k {:trigger idLe(i, j), idLe(j, k)} :: idLe(i, j) && idLe(j, k) ==> idLe(i, k))
      && (forall v {:trigger show(v)} :: le(v, parse(show(v))) && le(parse(show(v)), v))
    }

    predicate Less(v: V, w: V) { !le(w, v) }

    predicate Same(v: V, w: V) { le(v, w) && le(w, v) }

    predicate IdLess(i: string, j: string) { !idLe(j, i) }

    // Strictly earlier in ORDER BY column, id (both ASC or both DESC).
    predicate Before(r: Row<V>, s: Row<V>, desc: bool) {
      if desc then Less(s.value, r.value) || (Same(s.value, r.value) && IdLess(s.id, r.id))
      else Less(r.value, s.value) || (Same(r.value, s.value) && IdLess(r.id, s.id))
    }

    // The keyset predicate the cursor adds to the query.
    predicate Passes(c: Cursor, row: Row<V>) {
      if c.id == "" then true
      else
        var v := parse(c.value);
        if c.order == "DESC" then Less(row.value, v) || (Same(row.value, v) && IdLess(row.id, c.id))
        else Less(v, row.value) || (Same(row.value, v) && IdLess(c.id, row.id))
    }
  }

  function Filter<V(!new)>(col: Column<V>, rows: seq<Row<V>>, c: Cursor): seq<Row<V>> {
    if rows == [] then []
    else (if col.Passes(c, rows[0]) then [rows[0]] else []) + Filter(col, rows[1..], c)
  }

  function Insert<V(!new)>(col: Column<V>, r: Row<V>, sorted: seq<Row<V>>, desc: bool): seq<Row<V>> {
    if sorted == [] || col.Before(r, sorted[0], desc) then [r] + sorted
    else [sorted[0]] + Insert(col, r, sorted[1..], desc)
  }

  // ORDER BY column, id.
  function OrderBy<V(!new)>(col: Column<V>, rows: seq<Row<V>>, desc: bool): seq<Row<V>> {
    if rows == [] then [] else Insert(col, rows[0], OrderBy(col, rows[1..], desc), desc)
  }

  ghost predicate Sorted<V(!new)>(col: Column<V>, rows: seq<Row<V>>, desc: bool) {
    forall i, j :: 0 <= i < j < |rows| ==> col.Before(rows[i], rows[j], desc)
  }

  ghost predicate UniqueIds<V>(rows: seq<Row<V>>) {
    && (forall i, j :: 0 <= i < j < |rows| ==> rows[i].id != rows[j].id)
    && (forall i :: 0 <= i < |rows| ==> rows[i].id != "")
  }

  // ---- the listing is the rows, sorted ----

  lemma BeforeIsTotal<V(!new)>(col: Column<V>, r: Row<V>, s: Row<V>, desc: bool)
    requires col.Lawful() && r.id != s.id
    ensures col.Before(r, s, desc) <==> !col.Before(s, r, desc)
  {
    assert col.le(r.value, s.value) || col.le(s.value, r.value);
    assert col.idLe(r.id, s.id) || col.idLe(s.id, r.id);
  }

  lemma BeforeIsTransitive<V(!new)>(col: Column<V>, r: Row<V>, s: Row<V>, t: Row<V>, desc: bool)
    requires col.Lawful() && col.Before(r, s, desc) && col.Before(s, t, desc)
    ensures col.Before(r, t, desc)
  {
    assert col.le(r.value, s.value) || col.le(s.value, r.value);
    assert col.le(s.value, t.value) || col.le(t.value, s.value);
    assert col.le(r.value, t.value) || col.le(t.value, r.value);
    assert col.idLe(r.id, s.id) || col.idLe(s.id, r.id);
    assert col.idLe(s.id, t.id) || col.idLe(t.id, s.id);
    assert col.idLe(r.id, t.id) || col.idLe(t.id, r.id);
  }

  lemma {:induction false} InsertMembers<V(!new)>(col: Column<V>, r: Row<V>, sorted: seq<Row<V>>, desc: bool)
    ensures multiset(Insert(col, r, sorted, desc)) == multiset(sorted) + multiset{r}
  {
    if sorted != [] && !col.Before(r, sorted[0], desc) {
      InsertMembers(col, r, sorted[1..], desc);
      assert sorted == [sorted[0]] + sorted[1..];
    }
  }

  lemma {:induction false} OrderByPermutes<V(!new)>(col: Column<V>, rows: seq<Row<V>>, desc: bool)
    ensures multiset(OrderBy(col, rows, desc)) == multiset(rows)
  {
    if rows != [] {
      OrderByPermutes(col, rows[1..], desc);
      InsertMembers(col, rows[0], OrderBy(col, rows[1..], desc), desc);
      assert rows == [rows[0]] + rows[1..];
    }
  }

  lemma SortedCons<V(!new)>(col: Column<V>, r: Row<V>, rest: seq<Row<V>>, desc: bool)
    requires Sorted(col, rest, desc) && forall x :: x in rest ==> col.Before(r, x, desc)
    ensures Sorted(col, [r] + rest, desc)
  {
    var s := [r] + rest;
    forall i, j | 0 <= i < j < |s| ensures col.Before(s[i], s[j], desc) {
      if i == 0 {
        assert s[j] in rest;
      } else {
        assert s[i] == rest[i-1] && s[j] == rest[j-1];
      }
    }
  }

  lemma SortedTail<V(!new)>(col: Column<V>, s: seq<Row<V>>, desc: bool)
    requires Sorted(col, s, desc) && s != []
    ensures Sorted(col, s[1..], desc) && forall x :: x in s[1..] ==> col.Before(s[0], x, desc)
  {
  }

  lemma {:induction false} InsertSorted<V(!new)>(col: Column<V>, r: Row<V>, s: seq<Row<V>>, desc: bool)
    requires col.Lawful() && Sorted(col, s, desc) && forall x :: x in s ==> x.id != r.id
    ensures Sorted(col, Insert(col, r, s, desc), desc)
  {
    if s == [] {
    } else {
      SortedTail(col, s, desc);
      assert s == [s[0]] + s[1..];
      if col.Before(r, s[0], desc) {
        forall x | x in s ensures col.Before(r, x, desc) {
          if x != s[0] { BeforeIsTransitive(col, r, s[0], x, desc); }
        }
        SortedCons(col, r, s, desc);
      } else {
        BeforeIsTotal(col, r, s[0], desc);
        InsertSorted(col, r, s[1..], desc);
        InsertMembers(col, r, s[1..], desc);
        forall x | x in Insert(col, r, s[1..], desc) ensures col.Before(s[0], x, desc) {
          assert x in multiset(Insert(col, r, s[1..], desc));
        }
        SortedCons(col, s[0], Insert(col, r, s[1..], desc), desc);
      }
    }
  }

  lemma UniqueTail<V>(rows: seq<Row<V>>)
    requires UniqueIds(rows) && rows != []
    ensures UniqueIds(rows[1..]) && forall x :: x in rows[1..] ==> x.id != rows[0].id
  {
  }

  lemma OrderByMembers<V(!new)>(col: Column<V>, rows: seq<Row<V>>, desc: bool)
    ensures forall x :: x in OrderBy(col, rows, desc) <==> x in rows
  {
    OrderByPermutes(col, rows, desc);
    forall x ensures x in OrderBy(col, rows, desc) <==> x in rows {
      assert x in multiset(OrderBy(col, rows, desc)) <==> x in multiset(rows);
    }
  }

  lemma {:induction false} OrderBySorts<V(!new)>(col: Column<V>, rows: seq<Row<V>>, desc: bool)
    requires col.Lawful() && UniqueIds(rows)
    ensures Sorted(col, OrderBy(col, rows, desc), desc)
  {
    if rows != [] {
      UniqueTail(rows);
      OrderBySorts(col, rows[1..], desc);
      OrderByMembers(col, rows[1..], desc);
      InsertSorted(col, rows[0], OrderBy(col, rows[1..], desc), desc);
    }
  }

  // ---- filtering before or after sorting is the same ----

  lemma {:induction false} FilterMembers<V(!new)>(col: Column<V>, rows: seq<Row<V>>, c: Cursor)
    ensures forall x :: x in Filter(col, rows, c) <==> x in rows && col.Passes(c, x)
  {
    if rows != [] {
      FilterMembers(col, rows[1..], c);
      assert rows == [rows[0]] + rows[1..];
    }
  }

  lemma InsertInFront<V(!new)>(col: Column<V>, r: Row<V>, s: seq<Row<V>>, desc: bool)
    requires forall x :: x in s ==> col.Before(r, x, desc)
    ensures Insert(col, r, s, desc) == [r] + s
  {
    if s != [] { assert s[0] in s; }
  }

  lemma BeforeHead<V(!new)>(col: Column<V>, r: Row<V>, h: Row<V>, rest: seq<Row<V>>, desc: bool)
    requires !col.Before(r, h, desc)
    ensures Insert(col, r, [h] + rest, desc) == [h] + Insert(col, r, rest, desc)
  {
    assert ([h] + rest)[1..] == rest;
  }

  lemma FilterCons<V(!new)>(col: Column<V>, r: Row<V>, rows: seq<Row<V>>, c: Cursor)
    ensures Filter(col, [r] + rows, c) == (if col.Passes(c, r) then [r] else []) + Filter(col, rows, c)
  {
    assert ([r] + rows)[1..] == rows;
  }

  lemma {:induction false} FilterInsert<V(!new)>(col: Column<V>, r: Row<V>, s: seq<Row<V>>, c: Cursor, desc: bool)
    requires col.Lawful() && Sorted(col, s, desc)
    ensures Filter(col, Insert(col, r, s, desc), c) ==
              if col.Passes(c, r) then Insert(col, r, Filter(col, s, c), desc) else Filter(col, s, c)
  {
    if s == [] {
      FilterCons(col, r, s, c);
    } else {
      SortedTail(col, s, desc);
      assert s == [s[0]] + s[1..];
      if col.Before(r, s[0], desc) {
        FilterCons(col, r, s, c);
        FilterMembers(col, s, c);
        forall x | x in s ensures col.Before(r, x, desc) {
          if x != s[0] { BeforeIsTransitive(col, r, s[0], x, desc); }
        }
        InsertInFront(col, r, Filter(col, s, c), desc);
      } else {
        var rest := Insert(col, r, s[1..], desc);
        assert Insert(col, r, s, desc) == [s[0]] + rest;
        FilterInsert(col, r, s[1..], c, desc);
        FilterCons(col, s[0], rest, c);
        FilterCons(col, s[0], s[1..], c);
        BeforeHead(col, r, s[0], Filter(col, s[1..], c), desc);
        assert [] + Filter(col, s[1..], c) == Filter(col, s[1..], c);
      }
    }
  }

  lemma {:induction false} FilterCommutes<V(!new)>(col: Column<V>, rows: seq<Row<V>>, c: Cursor, desc: bool)
    requires col.Lawful() && UniqueIds(rows)
    ensures OrderBy(col, Filter(col, rows, c), desc) == Filter(col, OrderBy(col, rows, desc), c)
  {
    if rows != [] {
      UniqueTail(rows);
      FilterCommutes(col, rows[1..], c, desc);
      OrderBySorts(col, rows[1..], desc);
      FilterInsert(col, rows[0], OrderBy(col, rows[1..], desc), c, desc);
      var rest := Filter(col, rows[1..], c);
      if col.Passes(c, rows[0]) {
        assert Filter(col, rows, c) == [rows[0]] + rest && ([rows[0]] + rest)[1..] == rest;
      } else {
        assert Filter(col, rows, c) == rest;
      }
    }
  }

  // ---- the rows after a cursor are the rest of the listing ----

  function CursorAt<V(!new)>(col: Column<V>, sort: string, desc: bool, r: Row<V>): Cursor {
    Cursor(sort, if desc then "DESC" else "ASC", col.show(r.value), r.id)
  }

  lemma PassesIsAfter<V(!new)>(col: Column<V>, sort: string, desc: bool, r: Row<V>, x: Row<V>)
    requires col.Lawful() && r.id != ""
    ensures col.Passes(CursorAt(col, sort, desc, r), x) <==> col.Before(r, x, desc)
  {
    var v := col.parse(col.show(r.value));
    assert col.le(r.value, v) && col.le(v, r.value);
    assert col.le(x.value, v) && col.le(v, r.value) ==> col.le(x.value, r.value);
    assert col.le(x.value, r.value) && col.le(r.value, v) ==> col.le(x.value, v);
    assert col.le(v, r.value) && col.le(r.value, x.value) ==> col.le(v, x.value);
    assert col.le(r.value, v) && col.le(v, x.value) ==> col.le(r.value, x.value);
  }

  lemma {:induction false} FilterSplit<V(!new)>(col: Column<V>, s: seq<Row<V>>, k: nat, c: Cursor)
    requires k <= |s|
    requires forall i :: 0 <= i < |s| ==> (col.Passes(c, s[i]) <==> k <= i)
    ensures Filter(col, s, c) == s[k..]
  {
    if s == [] {
    } else {
      FilterSplit(col, s[1..], if k == 0 then 0 else k - 1, c);
      assert s == [s[0]] + s[1..];
    }
  }

  lemma FilterIsSuffix<V(!new)>(col: Column<V>, sort: string, s: seq<Row<V>>, k: nat, desc: bool)
    requires col.Lawful() && Sorted(col, s, desc) && 0 < k <= |s| && s[k-1].id != ""
    requires forall i, j :: 0 <= i < j < |s| ==> s[i].id != s[j].id
    ensures Filter(col, s, CursorAt(col, sort, desc, s[k-1])) == s[k..]
  {
    var c := CursorAt(col, sort, desc, s[k-1]);
    forall i | 0 <= i < |s| ensures col.Passes(c, s[i]) <==> k <= i {
      PassesIsAfter(col, sort, desc, s[k-1], s[i]);
      if i < k - 1 {
        BeforeIsTotal(col, s[i], s[k-1], desc);
      } else if i == k - 1 {
        assert col.le(s[i].value, s[i].value) && col.idLe(s[i].id, s[i].id);
      }
    }
    FilterSplit(col, s, k, c);
  }

  // ---- the handler ----

  datatype Listing<V> = Malformed | Page(files: seq<Row<V>>, next: string)

  function CursorFor(cur: Cursor, sort: string, desc: bool): Cursor {
    if cur.id != "" && (cur.sort != sort || cur.order != if desc then "DESC" else "ASC") then NO_CURSOR else cur
  }

  lemma MalformedExactly<V(!new)>(col: Column<V>, codec: Codec, rows: seq<Row<V>>, token: string, sort: string,
                                  desc: bool, limit: nat)
    requires limit >= 1
    ensures ListingOf(col, codec, rows, token, sort, desc, limit).Malformed? <==>
              token != "" && !ReadsCursor(codec.read(TrimSpace(token)))
  {
  }

  // Cursor mode: the rows matching the base query, one page at a time.
  method ListFiles<V(!new)>(col: Column<V>, codec: Codec, rows: seq<Row<V>>, token: string, sort: string, desc: bool,
                     limit: nat)
    returns (r: Listing<V>)
    requires limit >= 1
    ensures r == ListingOf(col, codec, rows, token, sort, desc, limit)
  {
    var decoded := Decode(codec, token);
    if decoded.BadCursor? {
      return Malformed;
    }
    var cur := decoded.cursor;
    var order := if desc then "DESC" else "ASC";
    if cur.id != "" && (cur.sort != sort || cur.order != order) {
      cur := NO_CURSOR;
    }
    // SELECT ... WHERE keyset predicate ORDER BY column, id LIMIT limit
    var result := OrderBy(col, Filter(col, rows, cur), desc);
    var files, lastID, lastSortVal := Scan(col, result, limit);
    var nextCursor := "";
    if |files| == limit && lastID != "" {
      nextCursor := Encode(codec, Cursor(sort, order, lastSortVal, lastID));
    }
    r := Page(files, nextCursor);
  }

  // Reads up to limit rows of the result, remembering the last one for the next cursor.
  method Scan<V(!new)>(col: Column<V>, result: seq<Row<V>>, limit: nat)
    returns (files: seq<Row<V>>, lastID: string, lastSortVal: string)
    ensures files == result[..Least(limit, |result|)]
    ensures if files == [] then lastID == ""
            else lastID == files[|files|-1].id && lastSortVal == col.show(files[|files|-1].value)
  {
    files, lastID, lastSortVal := [], "", "";
    var i := 0;
    while i < |result| && i < limit
      invariant 0 <= i <= Least(limit, |result|) && files == result[..i]
      invariant if i == 0 then lastID == "" else lastID == result[i-1].id && lastSortVal == col.show(result[i-1].value)
    {
      files := files + [result[i]];
      lastID := result[i].id;
      lastSortVal := col.show(result[i].value);
      i := i + 1;
    }
  }

  function Next<V(!new)>(col: Column<V>, codec: Codec, files: seq<Row<V>>, sort: string, desc: bool, limit: nat): string
  {
    if |files| == limit && files != [] && files[|files|-1].id != ""
    then Encode(codec, CursorAt(col, sort, desc, files[|files|-1])) else ""
  }

  function ListingOf<V(!new)>(col: Column<V>, codec: Codec, rows: seq<Row<V>>, token: string, sort: string, desc: bool,
                       limit: nat): Listing<V>
  {
    var decoded := Decode(codec, token);
    if decoded.BadCursor? then Malformed
    else
      var result := OrderBy(col, Filter(col, rows, CursorFor(decoded.cursor, sort, desc)), desc);
      var files := result[..Least(limit, |result|)];
      Page(files, Next(col, codec, files, sort, desc, limit))
  }

  // The token a client holds after reading the first k rows: none, or the cursor at row k - 1.
  ghost predicate TokenAt<V(!new)>(col: Column<V>, codec: Codec, all: seq<Row<V>>, token: string, sort: string,
                            desc: bool, k: nat)
  {
    k <= |all| && if k == 0 then token == "" else token == codec.write(CursorAt(col, sort, desc, all[k-1]))
  }

  lemma OrderedIds<V(!new)>(col: Column<V>, rows: seq<Row<V>>, desc: bool)
    requires col.Lawful() && UniqueIds(rows)
    ensures UniqueIds(OrderBy(col, rows, desc))
  {
    var all := OrderBy(col, rows, desc);
    OrderBySorts(col, rows, desc);
    OrderByMembers(col, rows, desc);
    forall i, j | 0 <= i < j < |all| ensures all[i].id != all[j].id {
      BeforeIsIrreflexive(col, all[i], desc);
      assert all[i] in rows && all[j] in rows && all[i] != all[j];
      RowsDifferById(rows, all[i], all[j]);
    }
    forall i | 0 <= i < |all| ensures all[i].id != "" {
      assert all[i] in rows;
    }
  }

  lemma BeforeIsIrreflexive<V(!new)>(col: Column<V>, r: Row<V>, desc: bool)
    requires col.Lawful()
    ensures !col.Before(r, r, desc)
  {
    assert col.le(r.value, r.value) && col.idLe(r.id, r.id);
  }

  lemma RowsDifferById<V>(rows: seq<Row<V>>, x: Row<V>, y: Row<V>)
    requires UniqueIds(rows) && x in rows && y in rows && x != y
    ensures x.id != y.id
  {
    var i :| 0 <= i < |rows| && rows[i] == x;
    var j :| 0 <= j < |rows| && rows[j] == y;
    if i < j { assert rows[i].id != rows[j].id; } else { assert rows[j].id != rows[i].id; }
  }

  lemma {:induction false} NoCursorFiltersNothing<V(!new)>(col: Column<V>, rows: seq<Row<V>>)
    ensures Filter(col, rows, NO_CURSOR) == rows
  {
    if rows != [] {
      NoCursorFiltersNothing(col, rows[1..]);
      assert rows == [rows[0]] + rows[1..];
    }
  }

  // The page r holds the rows from k on, up to limit of them, and the token after them; no token
  // when the page is short.
  ghost predicate Continues<V(!new)>(col: Column<V>, codec: Codec, all: seq<Row<V>>, r: Listing<V>, sort: string,
                              desc: bool, limit: nat, k: nat)
    requires k <= |all|
  {
    var end := k + Least(limit, |all| - k);
    && r.Page? && r.files == all[k..end]
    && (if end == k + limit then r.next != "" && TokenAt(col, codec, all, r.next, sort, desc, end) else r.next == "")
  }

  // One page continues exactly where the token points.
  lemma PageContinues<V(!new)>(col: Column<V>, codec: Codec, rows: seq<Row<V>>, token: string, sort: string, desc: bool,
                        limit: nat, k: nat)
    requires col.Lawful() && codec.Faithful() && UniqueIds(rows) && limit >= 1
    requires TokenAt(col, codec, OrderBy(col, rows, desc), token, sort, desc, k)
    ensures Continues(col, codec, OrderBy(col, rows, desc), ListingOf(col, codec, rows, token, sort, desc, limit), sort,
                desc, limit, k)
  {
    TokenResumes(col, codec, rows, token, sort, desc, k);
    OrderedIds(col, rows, desc);
    PageTokens(col, codec, OrderBy(col, rows, desc), sort, desc, limit, k);
  }

  // The query behind a token finds the rest of the listing.
  lemma TokenResumes<V(!new)>(col: Column<V>, codec: Codec, rows: seq<Row<V>>, token: string, sort: string, desc: bool,
                       k: nat)
    requires col.Lawful() && codec.Faithful() && UniqueIds(rows)
    requires TokenAt(col, codec, OrderBy(col, rows, desc), token, sort, desc, k)
    ensures Decode(codec, token).Good?
    ensures OrderBy(col, Filter(col, rows, CursorFor(Decode(codec, token).cursor, sort, desc)), desc)
            == OrderBy(col, rows, desc)[k..]
  {
    var all := OrderBy(col, rows, desc);
    if k == 0 {
      NoCursorFiltersNothing(col, rows);
    } else {
      OrderBySorts(col, rows, desc);
      OrderedIds(col, rows, desc);
      var c := CursorAt(col, sort, desc, all[k-1]);
      TokenRoundTrip(codec, c);
      assert Decode(codec, token) == Good(c) && CursorFor(c, sort, desc) == c;
      FilterCommutes(col, rows, c, desc);
      FilterIsSuffix(col, sort, all, k, desc);
    }
  }

  lemma PageTokens<V(!new)>(col: Column<V>, codec: Codec, all: seq<Row<V>>, sort: string, desc: bool, limit: nat,
                     k: nat)
    requires codec.Faithful() && UniqueIds(all) && limit >= 1 && k <= |all|
    ensures var files := all[k..][..Least(limit, |all| - k)];
            Continues(col, codec, all, Page(files, Next(col, codec, files, sort, desc, limit)), sort, desc, limit, k)
  {
    var end := k + Least(limit, |all| - k);
    var files := all[k..][..Least(limit, |all| - k)];
    assert files == all[k..end];
    if end == k + limit {
      assert files[|files|-1] == all[end-1] && all[end-1].id != "";
      assert codec.write(CursorAt(col, sort, desc, all[end-1])) != "";
    }
  }

  // Following the next cursors from page one ends, and the pages together are the whole sorted
  // listing: no row is skipped or repeated.
  method FollowCursors<V(!new)>(col: Column<V>, codec: Codec, rows: seq<Row<V>>, sort: string, desc: bool, limit: nat)
    returns (got: seq<Row<V>>)
    requires col.Lawful() && codec.Faithful() && UniqueIds(rows) && limit >= 1
    ensures got == OrderBy(col, rows, desc)
  {
    got := [];
    var token := "";
    ghost var all := OrderBy(col, rows, desc);
    var more := true;
    while more
      invariant |got| <= |all| && got == all[..|got|]
      invariant if more then TokenAt(col, codec, all, token, sort, desc, |got|) else |got| == |all|
      decreases |all| - |got|, more
    {
      PageContinues(col, codec, rows, token, sort, desc, limit, |got|);
      var page := ListFiles(col, codec, rows, token, sort, desc, limit);
      ghost var k := |got|;
      got := got + page.files;
      assert got == all[..|got|] by { assert all[..k] + all[k..|got|] == all[..|got|]; }
      token := page.next;
      more := token != "";
    }
  }

  // What the sorted listing is.
  lemma ListingIsSortedRows<V(!new)>(col: Column<V>, rows: seq<Row<V>>, desc: bool)
    requires col.Lawful() && UniqueIds(rows)
    ensures Sorted(col, OrderBy(col, rows, desc), desc)
    ensures multiset(OrderBy(col, rows, desc)) == multiset(rows)
  {
    OrderBySorts(col, rows, desc);
    OrderByPermutes(col, rows, desc);
  }
}

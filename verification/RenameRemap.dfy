/** The in-place rewrite of the mapping table after a folder was renamed. */
module RenameRemap {
  import opened Lists
  import opened LocalTree
  import opened Options
  import opened SyncState

  function Moved(m: Mapping, from: Path): set<Path> {
    set k | k in m && from <= k
  }

  // Where a key at or under `from` goes, and where one at or under `to` came from.
  function Target(from: Path, to: Path, k: Path): Path
    requires from <= k
  {
    to + k[|from|..]
  }

  lemma TargetInverts(from: Path, to: Path, k: Path)
    requires from <= k
    ensures to <= Target(from, to, k) && Target(to, from, Target(from, to, k)) == k
    ensures k != from ==> Target(from, to, k) != [] && k != [] && from <= Parent(k)
                          && Parent(Target(from, to, k)) == Target(from, to, Parent(k))
                            && Last(Target(from, to, k)) == Last(k)
  {
    var t := Target(from, to, k);
    assert t[|to|..] == k[|from|..];
    assert from + k[|from|..] == k;
  }

  ghost function Targets(m: Mapping, from: Path, to: Path): set<Path> {
    set k | k in m && from <= k :: Target(from, to, k)
  }

  // One key of the table is moved: assigned first, then deleted.
  function MoveKey(m: Mapping, k: Path, t: Path): Mapping {
    if k in m then m[t := m[k]] - {k} else m
  }

  // The keys are moved one after the other.
  function MoveAll(m: Mapping, order: seq<Path>, from: Path, to: Path): Mapping
    decreases |order|
  {
    if order == [] then m
    else
      var init, last := order[..|order|-1], order[|order|-1];
      var before := MoveAll(m, init, from, to);
      if from <= last then MoveKey(before, last, Target(from, to, last)) else before
  }

  // The list has the keys to be moved, each once.
  ghost predicate Enumerates(order: seq<Path>, m: Mapping, from: Path) {
    Distinct(order) && Elements(order) == Moved(m, from) && forall k :: k in order ==> from <= k
  }

  // ---- one key after another ----

  // The keys of `order` have been moved, those of `moves` are to come.
  ghost predicate Halfway(order: seq<Path>, moves: set<Path>, m: Mapping, from: Path) {
    && Distinct(order) && moves !! Elements(order) && moves + Elements(order) == Moved(m, from)
  }

  lemma TakeNext(order: seq<Path>, moves: set<Path>, m: Mapping, from: Path, k: Path)
    requires Halfway(order, moves, m, from) && k in moves
    ensures from <= k && Halfway(order + [k], moves - {k}, m, from)
  {
    Joined(order, [k]);
    assert Elements([k]) == {k};
  }

  lemma AllTaken(order: seq<Path>, m: Mapping, from: Path)
    requires Halfway(order, {}, m, from)
    ensures Enumerates(order, m, from)
  {
    assert Elements(order) == Moved(m, from);
    forall k | k in order ensures from <= k { assert k in Elements(order); }
  }

  lemma MoveNext(m: Mapping, order: seq<Path>, from: Path, to: Path, k: Path)
    requires from <= k
    ensures MoveAll(m, order + [k], from, to) == MoveKey(MoveAll(m, order, from, to), k, Target(from, to, k))
  {
    assert (order + [k])[..|order|] == order;
  }

  // ---- what survives it ----

  ghost predicate Hits(order: seq<Path>, from: Path, to: Path, q: Path) {
    exists k :: k in order && from <= k && q == Target(from, to, k)
  }

  // A key that no move has assigned is there if it was there and has not been moved.
  lemma {:induction false} Untargeted(m: Mapping, order: seq<Path>, from: Path, to: Path, q: Path)
    requires (forall k :: k in order ==> from <= k) && !Hits(order, from, to, q)
    ensures var m' := MoveAll(m, order, from, to);
            (q in m' <==> q in m && q !in order) && (q in m' ==> m'[q] == m[q])
    decreases |order|
  {
    if order != [] {
      var init, last := order[..|order|-1], order[|order|-1];
      assert order == init + [last];
      assert forall k :: k in init ==> k in order;
      Untargeted(m, init, from, to, q);
      assert last in order;
    }
  }

  // Each move finds its place free: not mapped, or mapped by a key that has moved before.
  ghost predicate Safe(m: Mapping, order: seq<Path>, from: Path, to: Path) {
    forall i :: 0 <= i < |order| && from <= order[i] && Target(from, to, order[i]) in m ==>
      Target(from, to, order[i]) in order[..i]
  }

  lemma NotHitTwice(order: seq<Path>, from: Path, to: Path, k: Path)
    requires (forall x :: x in order ==> from <= x) && from <= k && k !in order
    ensures !Hits(order, from, to, Target(from, to, k))
  {
    forall x | x in order && from <= x ensures Target(from, to, x) != Target(from, to, k) {
      TargetInverts(from, to, x);
      TargetInverts(from, to, k);
    }
  }

  lemma Split(order: seq<Path>, m: Mapping, from: Path)
    requires order != [] && Distinct(order) && (forall k :: k in order ==> from <= k && k in m)
    ensures var init, last := order[..|order|-1], order[|order|-1];
            && order == init + [last] && Distinct(init) && last !in init && last in m && from <= last
            && (forall k :: k in init ==> from <= k && k in m)
  {
    var init, last := order[..|order|-1], order[|order|-1];
    assert last in order && order == init + [last];
    forall k | k in init ensures k in order && k != last {
      var i :| 0 <= i < |init| && init[i] == k;
      assert order[i] == k;
    }
  }

  lemma SafeBefore(m: Mapping, order: seq<Path>, from: Path, to: Path)
    requires order != [] && from <= order[|order|-1]
    ensures var init, last := order[..|order|-1], order[|order|-1];
            Safe(m, order, from, to) <==>
              Safe(m, init, from, to) && (Target(from, to, last) in m ==> Target(from, to, last) in init)
  {
    var init := order[..|order|-1];
    assert forall i :: 0 <= i < |init| ==> init[i] == order[i] && init[..i] == order[..i];
  }

  // After a safe prefix no key has been assigned that is still to be moved.
  lemma NotYetHit(m: Mapping, order: seq<Path>, from: Path, to: Path, k: Path)
    requires (forall x :: x in order ==> from <= x) && Safe(m, order, from, to) && k in m && k !in order
    ensures !Hits(order, from, to, k)
  {
    if x :| x in order && from <= x && k == Target(from, to, x) {
      var i :| 0 <= i < |order| && order[i] == x;
      assert k in order[..i];
    }
  }

  // The moves made so far, on their own.
  ghost predicate Carried(m: Mapping, m': Mapping, order: seq<Path>, from: Path, to: Path) {
    forall k :: k in order && from <= k && k in m ==> Target(from, to, k) in m' && m'[Target(from, to, k)] == m[k]
  }

  lemma CarryOneMore(m: Mapping, m': Mapping, init: seq<Path>, from: Path, to: Path, last: Path)
    requires (forall k :: k in init ==> from <= k) && from <= last && last !in init && last in m
    requires Carried(m, m', init, from, to) && last in m' && m'[last] == m[last]
    requires !Hits(init, from, to, last) && Target(from, to, last) != last
    ensures Carried(m, MoveKey(m', last, Target(from, to, last)), init + [last], from, to)
  {
    NotHitTwice(init, from, to, last);
  }

  // Exactly when every move finds its place free, none loses an entry; and then each is carried over.
  lemma {:induction false} SurvivesExactly(m: Mapping, order: seq<Path>, from: Path, to: Path)
    requires Distinct(order) && (forall k :: k in order ==> from <= k && k in m)
    ensures var m' := MoveAll(m, order, from, to);
            |m'| <= |m| && (|m'| == |m| <==> Safe(m, order, from, to))
            && (Safe(m, order, from, to) ==> Carried(m, m', order, from, to))
    decreases |order|
  {
    if order != [] {
      var init, last := order[..|order|-1], order[|order|-1];
      Split(order, m, from);
      var before, t := MoveAll(m, init, from, to), Target(from, to, last);
      SafeBefore(m, order, from, to);
      SurvivesExactly(m, init, from, to);
      NotHitTwice(init, from, to, last);
      Untargeted(m, init, from, to, t);
      MoveSize(before, last, t);
      if Safe(m, init, from, to) {
        NotYetHit(m, init, from, to, last);
        Untargeted(m, init, from, to, last);
        if t !in m || t in init { CarryOneMore(m, before, init, from, to, last); }
      }
    }
  }

  lemma MoveSize(m: Mapping, k: Path, t: Path)
    ensures var m' := MoveKey(m, k, t); |m'| <= |m| && (k in m ==> (|m'| == |m| <==> t !in m))
  {
    if k in m {
      assert MoveKey(m, k, t).Keys == m.Keys + {t} - {k};
      assert |m.Keys + {t}| == |m.Keys| + if t in m then 0 else 1 by {
        if t in m { assert m.Keys + {t} == m.Keys; }
      }
      assert |MoveKey(m, k, t).Keys| == |MoveKey(m, k, t)| && |m.Keys| == |m|;
    }
  }

  // ---- what the rewrite amounts to ----

  // Every entry at or under the old path turns up unchanged under the new one, and every other key is
  // untouched.
  ghost predicate Rewritten(m: Mapping, m': Mapping, from: Path, to: Path) {
    && m'.Keys == (m.Keys - Moved(m, from)) + Targets(m, from, to)
    && (forall k :: k in m && from <= k ==> Target(from, to, k) in m' && m'[Target(from, to, k)] == m[k])
    && forall k :: k in m && !(from <= k) ==> k in m' && m'[k] == m[k]
  }

  lemma Enumerated(m: Mapping, order: seq<Path>, from: Path, to: Path)
    requires Enumerates(order, m, from)
    ensures forall k :: k in order <==> k in m && from <= k
    ensures forall q :: Hits(order, from, to, q) <==> q in Targets(m, from, to)
  {
    forall k ensures k in order <==> k in m && from <= k {
      assert k in Elements(order) <==> k in Moved(m, from);
    }
  }

  // For all paths, equal and nested ones too, and for every order of the table: the rewrite keeps its
  // size if and only if each key finds its new place free, and then it loses and overwrites nothing.
  lemma ClashLosesEntries(m: Mapping, order: seq<Path>, from: Path, to: Path)
    requires Enumerates(order, m, from)
    ensures var m' := MoveAll(m, order, from, to);
            && |m'| <= |m| && (|m'| == |m| <==> Safe(m, order, from, to))
            && (Safe(m, order, from, to) ==> Rewritten(m, m', from, to))
  {
    Enumerated(m, order, from, to);
    SurvivesExactly(m, order, from, to);
    if Safe(m, order, from, to) { CarriedIsRewritten(m, order, from, to); }
  }

  lemma CarriedIsRewritten(m: Mapping, order: seq<Path>, from: Path, to: Path)
    requires Enumerates(order, m, from) && Safe(m, order, from, to)
    requires Carried(m, MoveAll(m, order, from, to), order, from, to)
    ensures Rewritten(m, MoveAll(m, order, from, to), from, to)
  {
    Enumerated(m, order, from, to);
    var m' := MoveAll(m, order, from, to);
    forall q | q !in Targets(m, from, to)
      ensures (q in m' <==> q in m && !(from <= q)) && (q in m' ==> m'[q] == m[q])
    {
      Untargeted(m, order, from, to, q);
    }
    forall k | k in m && !(from <= k) ensures k !in Targets(m, from, to) { NotOverwritten(m, order, from, to, k); }
    assert m'.Keys == (m.Keys - Moved(m, from)) + Targets(m, from, to);
  }

  // No safe move lands on an entry that stays.
  lemma NotOverwritten(m: Mapping, order: seq<Path>, from: Path, to: Path, k: Path)
    requires Enumerates(order, m, from) && Safe(m, order, from, to) && k in m && !(from <= k)
    ensures k !in Targets(m, from, to)
  {
    Enumerated(m, order, from, to);
    NotYetHit(m, order, from, to, k);
  }

  // ---- without regard to the order ----

  // No key sits where a moved one is to go.
  ghost predicate Unclashed(m: Mapping, from: Path, to: Path) {
    Targets(m, from, to) !! m.Keys
  }

  lemma NothingUnderNewPath(m: Mapping, from: Path, to: Path)
    requires forall k :: k in m ==> !(to <= k)
    ensures Unclashed(m, from, to)
  {
    forall k | k in m && from <= k ensures Target(from, to, k) !in m {
      TargetInverts(from, to, k);
    }
  }

  // Without a clash nothing is lost or overwritten, in any order.
  lemma RemapIsBijective(m: Mapping, order: seq<Path>, from: Path, to: Path)
    requires Unclashed(m, from, to) && Enumerates(order, m, from)
    ensures var m' := MoveAll(m, order, from, to); Rewritten(m, m', from, to) && |m'| == |m|
  {
    Enumerated(m, order, from, to);
    forall k | k in order ensures Target(from, to, k) !in m {
      assert Target(from, to, k) in Targets(m, from, to);
    }
    assert Safe(m, order, from, to);
    ClashLosesEntries(m, order, from, to);
  }

  lemma Comparable(p: Path, q: Path, k: Path)
    requires p <= k && q <= k
    ensures p <= q || q <= p
  {
    assert p == k[..|p|] && q == k[..|q|];
  }

  lemma SafeOne(m: Mapping, order: seq<Path>, from: Path, to: Path, k: Path)
    requires Enumerates(order, m, from) && Safe(m, order, from, to) && k in m && from <= k
    ensures Target(from, to, k) in m ==> from <= Target(from, to, k)
    ensures Target(from, to, k) != k
  {
    Enumerated(m, order, from, to);
    var i :| 0 <= i < |order| && order[i] == k;
    assert forall x :: x in order[..i] ==> x in order && x != k;
  }

  lemma TargetOutside(from: Path, to: Path, k: Path)
    requires !(from <= to) && !(to <= from) && from <= k
    ensures !(from <= Target(from, to, k))
  {
    var t := Target(from, to, k);
    if from <= t { Comparable(from, to, t); }
  }

  // Between paths of which neither lies in the other the order does not matter.
  lemma ApartIsUnclashed(m: Mapping, order: seq<Path>, from: Path, to: Path)
    requires !(from <= to) && !(to <= from)
    requires Enumerates(order, m, from)
    ensures Safe(m, order, from, to) <==> Unclashed(m, from, to)
  {
    Enumerated(m, order, from, to);
    forall k | k in order ensures !(from <= Target(from, to, k)) { TargetOutside(from, to, k); }
    if Safe(m, order, from, to) {
      forall k | k in m && from <= k ensures Target(from, to, k) !in m {
        SafeOne(m, order, from, to, k);
      }
    } else {
      var i :| 0 <= i < |order| && from <= order[i] && Target(from, to, order[i]) in m;
      assert order[i] in order;
    }
  }

  // A folder matched to its own old path: every key is assigned to itself and deleted.
  lemma {:induction false} SamePathErases(m: Mapping, order: seq<Path>, path: Path)
    requires forall k :: k in order ==> path <= k
    ensures MoveAll(m, order, path, path) == m - Elements(order)
    decreases |order|
  {
    if order != [] {
      var init, last := order[..|order|-1], order[|order|-1];
      assert order == init + [last] && last in order;
      forall k | k in init ensures path <= k { assert k in order; }
      SamePathErases(m, init, path);
      assert Target(path, path, last) == last;
      assert Elements(order) == Elements(init) + {last};
    }
  }

  // A folder matched to a path above it: the entry of that path is overwritten, whatever the order.
  lemma UpwardOverwrites(m: Mapping, order: seq<Path>, from: Path, to: Path)
    requires Enumerates(order, m, from)
    requires to <= from && to != from && from in m && to in m
    ensures !Safe(m, order, from, to) && |MoveAll(m, order, from, to)| < |m|
  {
    Enumerated(m, order, from, to);
    ClashLosesEntries(m, order, from, to);
    var i :| 0 <= i < |order| && order[i] == from;
    assert Target(from, to, from) == to;
    if to in order[..i] { assert to in order; }
  }

  // ---- the orders that work ----

  // Some order works exactly when every clash is with a key that moves away itself.
  ghost predicate Movable(m: Mapping, from: Path, to: Path) {
    (from == to ==> Moved(m, from) == {}) && Targets(m, from, to) !! (m.Keys - Moved(m, from))
  }

  // Of some keys, one that can go next: its new place is not taken by another of them.
  lemma {:induction false} FreeNext(keys: set<Path>, from: Path, to: Path) returns (k: Path)
    requires keys != {} && from != to && forall x :: x in keys ==> from <= x
    ensures k in keys && Target(from, to, k) !in keys
  {
    if |to| < |from| {
      k := Extreme(keys, -1);
    } else {
      k := Extreme(keys, 1);
      if |to| == |from| { assert Target(from, to, k)[..|from|] == to; }
    }
  }

  // A longest key, or with sign -1 a shortest one.
  lemma {:induction false} Extreme(keys: set<Path>, sign: int) returns (k: Path)
    requires keys != {} && (sign == 1 || sign == -1)
    ensures k in keys && forall x :: x in keys ==> sign * |x| <= sign * |k|
    decreases |keys|
  {
    k :| k in keys;
    var rest := keys - {k};
    if rest != {} {
      var other := Extreme(rest, sign);
      if sign * |k| < sign * |other| { k := other; }
    }
  }

  // Orders the remaining keys so that each finds its place free, given those that moved before.
  lemma {:induction false} OrderRest(m: Mapping, before: seq<Path>, rest: set<Path>, from: Path, to: Path)
    returns (order: seq<Path>)
    requires Distinct(before) && Elements(before) !! rest && Elements(before) + rest == Moved(m, from)
    requires (rest != {} ==> from != to) && Movable(m, from, to) && Safe(m, before, from, to)
    ensures Enumerates(order, m, from) && Safe(m, order, from, to)
    decreases rest
  {
    if rest == {} {
      order := before;
      forall k | k in order ensures from <= k { assert k in Elements(order); }
    } else {
      var k := FreeNext(rest, from, to);
      GoesNext(m, before, rest, from, to, k);
      order := OrderRest(m, before + [k], rest - {k}, from, to);
    }
  }

  lemma GoesNext(m: Mapping, before: seq<Path>, rest: set<Path>, from: Path, to: Path, k: Path)
    requires Distinct(before) && Elements(before) !! rest && Elements(before) + rest == Moved(m, from)
    requires Movable(m, from, to) && Safe(m, before, from, to)
    requires k in rest && from <= k && Target(from, to, k) !in rest
    ensures Distinct(before + [k]) && Elements(before + [k]) == Elements(before) + {k}
            && Safe(m, before + [k], from, to)
  {
    Joined(before, [k]);
    assert Elements([k]) == {k};
    var more := before + [k];
    assert more[..|before|] == before;
    SafeBefore(m, more, from, to);
    assert Target(from, to, k) in Targets(m, from, to);
    assert Target(from, to, k) in m ==> Target(from, to, k) in Elements(before);
  }

  // Some order of the table loses nothing if and only if every clash is with a key that moves away.
  lemma SomeOrderWorks(m: Mapping, from: Path, to: Path)
    ensures Movable(m, from, to) <==>
              exists order :: Enumerates(order, m, from) && Safe(m, order, from, to)
  {
    if Movable(m, from, to) {
      var order := OrderRest(m, [], Moved(m, from), from, to);
    }
    if order :| Enumerates(order, m, from) && Safe(m, order, from, to) {
      SafeIsMovable(m, order, from, to);
    }
  }

  lemma SafeIsMovable(m: Mapping, order: seq<Path>, from: Path, to: Path)
    requires Enumerates(order, m, from) && Safe(m, order, from, to)
    ensures Movable(m, from, to)
  {
    forall k | k in m && from <= k
      ensures Target(from, to, k) in m ==> Target(from, to, k) in Moved(m, from)
      ensures k in m ==> Target(from, to, k) != k
    {
      SafeOne(m, order, from, to, k);
    }
    assert forall k :: from <= k && from == to ==> Target(from, to, k) == k;
  }

  // ---- the loop ----

  // The rewrite, in whatever order the table lists its keys.
  method RemapKeys(m: Mapping, from: Path, to: Path) returns (m': Mapping, ghost order: seq<Path>)
    ensures Enumerates(order, m, from) && m' == MoveAll(m, order, from, to)
    ensures Unclashed(m, from, to) ==> Rewritten(m, m', from, to)
    ensures from == to ==> m' == m - Moved(m, from)
  {
    m', order := m, [];
    var moves := Moved(m, from);
    while moves != {}
      invariant Halfway(order, moves, m, from) && m' == MoveAll(m, order, from, to)
      decreases moves
    {
      var k :| k in moves;
      TakeNext(order, moves, m, from, k);
      MoveNext(m, order, from, to, k);
      m' := MoveKey(m', k, Target(from, to, k));
      moves := moves - {k};
      order := order + [k];
    }
    AllTaken(order, m, from);
    if Unclashed(m, from, to) { RemapIsBijective(m, order, from, to); }
    if from == to { SamePathErases(m, order, from); }
  }

  // ---- with the remote rename ----

  // The remote folder has been renamed and moved under the new parent; the table is rewritten to match.
  ghost function Renamed(s: State, m': Mapping, from: Path, to: Path): State
    requires from in s.mapping && to != [] && FolderAt(s, Parent(to))
  {
    s.(mapping := m',
       remote := s.remote[s.mapping[from].id := Node(FolderKind, Last(to), Some(IdAt(s, Parent(to))))])
  }

  ghost predicate RenameOk(s: State, m': Mapping, from: Path, to: Path) {
    && Core(s) && from in s.mapping && s.mapping[from].FolderEntry? && to != [] && FolderAt(s, Parent(to))
      && !(from <= to)
    && Rewritten(s.mapping, m', from, to) && Unclashed(s.mapping, from, to)
  }

  lemma NotUnder(from: Path, q: Path)
    requires q != [] && !(from <= q)
    ensures !(from <= Parent(q))
  {
  }

  // Folders outside the renamed one keep their place and id.
  lemma RenamedFolder(s: State, m': Mapping, from: Path, to: Path, d: Path)
    requires RenameOk(s, m', from, to) && FolderAt(s, d)
    ensures var d' := if from <= d then Target(from, to, d) else d;
            FolderAt(Renamed(s, m', from, to), d') && IdAt(Renamed(s, m', from, to), d') == IdAt(s, d)
  {
    if from <= d {
      TargetInverts(from, to, d);
    }
  }

  lemma RenamedOther(s: State, m': Mapping, from: Path, to: Path, q: Path)
    requires RenameOk(s, m', from, to) && Placed(s, q) && !(from <= q)
    ensures Placed(Renamed(s, m', from, to), q)
  {
    NotUnder(from, q);
    RenamedFolder(s, m', from, to, Parent(q));
  }

  lemma RenamedRoot(s: State, m': Mapping, from: Path, to: Path)
    requires RenameOk(s, m', from, to) && Placed(s, from)
    ensures Target(from, to, from) == to && Placed(Renamed(s, m', from, to), to)
  {
    NotUnder(from, to);
    RenamedFolder(s, m', from, to, Parent(to));
    assert Target(from, to, from) == to;
  }

  lemma RenamedBelow(s: State, m': Mapping, from: Path, to: Path, k: Path)
    requires RenameOk(s, m', from, to) && Placed(s, k) && from <= k && k != from
    ensures Placed(Renamed(s, m', from, to), Target(from, to, k))
  {
    TargetInverts(from, to, k);
    RenamedFolder(s, m', from, to, Parent(k));
  }

  lemma RenamedCore(s: State, m': Mapping, from: Path, to: Path)
    requires RenameOk(s, m', from, to) && Placed(s, from)
    ensures Core(Renamed(s, m', from, to))
  {
    forall t | t in m'
      ensures t != [] && exists k ::
              k in s.mapping && m'[t] == s.mapping[k] && t == if from <= k then Target(from, to, k) else k
    {
      if t in Targets(s.mapping, from, to) {
        var k :| k in s.mapping && from <= k && Target(from, to, k) == t;
        TargetInverts(from, to, k);
      }
    }
  }

  // After a rename the table is linked again.
  lemma RenameKeepsLinked(s: State, m': Mapping, from: Path, to: Path)
    requires Linked(s) && RenameOk(s, m', from, to)
    ensures Linked(Renamed(s, m', from, to))
  {
    var s' := Renamed(s, m', from, to);
    RenamedCore(s, m', from, to);
    RenamedRoot(s, m', from, to);
    forall t | t in m' ensures Placed(s', t) {
      if t in Targets(s.mapping, from, to) {
        var k :| k in s.mapping && from <= k && Target(from, to, k) == t;
        assert Placed(s, k);
        if k != from { RenamedBelow(s, m', from, to, k); }
      } else {
        assert Placed(s, t);
        RenamedOther(s, m', from, to, t);
      }
    }
  }
}

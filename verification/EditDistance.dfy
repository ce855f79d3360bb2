/** Filename edit distance: the flattened dynamic-programming table of the fuzzy search. */
module EditDistance {

  // One column of an alignment of two strings.
  datatype Edit =
    | Keep(c: char)
    | Substitute(from: char, to: char)
    | Insert(c: char)
    | Delete(c: char)
    | Transpose(first: char, second: char)
  {
    function Consumes(): string {
      match this
      case Keep(c) => [c]
      case Substitute(x, _) => [x]
      case Insert(_) => []
      case Delete(c) => [c]
      case Transpose(x, y) => [x, y]
    }

    function Produces(): string {
      match this
      case Keep(c) => [c]
      case Substitute(_, y) => [y]
      case Insert(c) => [c]
      case Delete(_) => []
      case Transpose(x, y) => [y, x]
    }

    function Price(): nat {
      if Keep? then 0 else 1
    }
  }

  // A script is an alignment: edits of disjoint, consecutive pieces, left to right.
  type Script = seq<Edit>

  function Source(script: Script): string {
    if script == [] then [] else Source(script[..|script|-1]) + script[|script|-1].Consumes()
  }

  function Target(script: Script): string {
    if script == [] then [] else Target(script[..|script|-1]) + script[|script|-1].Produces()
  }

  function Cost(script: Script): nat {
    if script == [] then 0 else Cost(script[..|script|-1]) + script[|script|-1].Price()
  }

  ghost predicate Aligns(script: Script, a: string, b: string) {
    Source(script) == a && Target(script) == b
  }

  function Mismatch(x: char, y: char): nat {
    if x == y then 0 else 1
  }

  function Min3(a: int, b: int, c: int): (m: int)
    ensures m <= a && m <= b && m <= c && (m == a || m == b || m == c)
  {
    var m := if b < a then b else a;
    if c < m then c else m
  }

  predicate Swapped(a: string, b: string, i: nat, j: nat)
    requires i <= |a| && j <= |b|
  {
    i > 1 && j > 1 && a[i-1] == b[j-2] && a[i-2] == b[j-1]
  }

  // Optimal string alignment distance of a[..i] and b[..j], by recursion on the last characters.
  function Prefixes(a: string, b: string, i: nat, j: nat): nat
    requires i <= |a| && j <= |b|
    decreases i + j
  {
    if i == 0 then j
    else if j == 0 then i
    else
      var plain := Min3(Prefixes(a, b, i-1, j) + 1, Prefixes(a, b, i, j-1) + 1,
                        Prefixes(a, b, i-1, j-1) + Mismatch(a[i-1], b[j-1]));
      if Swapped(a, b, i, j) && Prefixes(a, b, i-2, j-2) + 1 < plain then Prefixes(a, b, i-2, j-2) + 1 else plain
  }

  function Distance(a: string, b: string): nat {
    Prefixes(a, b, |a|, |b|)
  }

  // ---- the distance is the least cost over all alignments ----

  lemma ScriptSnoc(script: Script, e: Edit)
    ensures Source(script + [e]) == Source(script) + e.Consumes()
    ensures Target(script + [e]) == Target(script) + e.Produces()
    ensures Cost(script + [e]) == Cost(script) + e.Price()
  {
    var s := script + [e];
    assert s[..|s|-1] == script;
  }

  // Whether e can be the last edit of an alignment of a[..i] and b[..j].
  ghost predicate Ends(e: Edit, a: string, b: string, i: nat, j: nat)
    requires i <= |a| && j <= |b|
  {
    && |e.Consumes()| <= i && e.Consumes() == a[i-|e.Consumes()|..i]
    && |e.Produces()| <= j && e.Produces() == b[j-|e.Produces()|..j]
  }

  lemma LastPiece(init: string, piece: string, a: string, i: nat)
    requires i <= |a| && init + piece == a[..i]
    ensures |piece| <= i && init == a[..i-|piece|] && piece == a[i-|piece|..i]
  {
    assert init == (init + piece)[..i-|piece|];
    assert piece == (init + piece)[i-|piece|..];
  }

  ghost function Optimum(a: string, b: string, i: nat, j: nat): nat
    requires i <= |a| && j <= |b|
  {
    Prefixes(a, b, i, j)
  }

  lemma CellAtMost(a: string, b: string, i: nat, j: nat)
    requires i <= |a| && j <= |b|
    ensures i > 0 ==> Optimum(a, b, i, j) <= Optimum(a, b, i-1, j) + 1
    ensures j > 0 ==> Optimum(a, b, i, j) <= Optimum(a, b, i, j-1) + 1
    ensures i > 0 && j > 0 ==> Optimum(a, b, i, j) <= Optimum(a, b, i-1, j-1) + Mismatch(a[i-1], b[j-1])
    ensures Swapped(a, b, i, j) ==> Optimum(a, b, i, j) <= Optimum(a, b, i-2, j-2) + 1
  {
  }

  // An edit that takes c characters and gives p costs no less than the recursion allows.
  lemma MoveAtMost(a: string, b: string, i: nat, j: nat, c: nat, p: nat, price: nat)
    requires c <= i <= |a| && p <= j <= |b|
    requires || (c + p == 1 && price == 1) || (c == 1 && p == 1 && price >= Mismatch(a[i-1], b[j-1]))
             || (c == 2 && p == 2 && price == 1 && Swapped(a, b, i, j))
    ensures Optimum(a, b, i, j) <= Optimum(a, b, i-c, j-p) + price
  {
    CellAtMost(a, b, i, j);
  }

  lemma StepCostsAtMost(a: string, b: string, i: nat, j: nat, e: Edit)
    requires i <= |a| && j <= |b| && Ends(e, a, b, i, j)
    ensures Optimum(a, b, i, j) <= Optimum(a, b, i-|e.Consumes()|, j-|e.Produces()|) + e.Price()
  {
    if e.Keep? {
      assert e.Consumes()[0] == e.c == e.Produces()[0];
    } else if e.Transpose? {
      assert e.Consumes()[0] == e.first && e.Consumes()[1] == e.second && e.Produces()[0] == e.second
        && e.Produces()[1] == e.first;
    }
    MoveAtMost(a, b, i, j, |e.Consumes()|, |e.Produces()|, e.Price());
  }

  lemma {:induction false} NoAlignmentIsCheaper(script: Script, a: string, b: string, i: nat, j: nat)
    requires i <= |a| && j <= |b| && Aligns(script, a[..i], b[..j])
    ensures Optimum(a, b, i, j) <= Cost(script)
  {
    if script == [] {
    } else {
      var init, e := script[..|script|-1], script[|script|-1];
      assert Ends(e, a, b, i, j) && Aligns(init, a[..i-|e.Consumes()|], b[..j-|e.Produces()|]) by {
        LastPiece(Source(init), e.Consumes(), a, i);
        LastPiece(Target(init), e.Produces(), b, j);
      }
      NoAlignmentIsCheaper(init, a, b, i - |e.Consumes()|, j - |e.Produces()|);
      StepCostsAtMost(a, b, i, j, e);
    }
  }

  // Whether ending an alignment of a[..i] and b[..j] with e is optimal.
  ghost predicate Optimal(e: Edit, a: string, b: string, i: nat, j: nat)
    requires i <= |a| && j <= |b| && Ends(e, a, b, i, j)
  {
    Optimum(a, b, i, j) == Optimum(a, b, i-|e.Consumes()|, j-|e.Produces()|) + e.Price()
  }

  lemma BestLastEdit(a: string, b: string, i: nat, j: nat) returns (e: Edit)
    requires i <= |a| && j <= |b| && (i > 0 || j > 0)
    ensures Ends(e, a, b, i, j) && |e.Consumes()| + |e.Produces()| > 0
    ensures Optimal(e, a, b, i, j)
  {
    if j == 0 {
      e := Delete(a[i-1]);
    } else if i == 0 {
      e := Insert(b[j-1]);
    } else {
      e := BestInnerEdit(a, b, i, j);
    }
  }

  lemma CellIsSwap(a: string, b: string, i: nat, j: nat)
    requires 0 < i <= |a| && 0 < j <= |b|
    requires Prefixes(a, b, i, j) != Prefixes(a, b, i-1, j) + 1
    requires Prefixes(a, b, i, j) != Prefixes(a, b, i, j-1) + 1
    requires Prefixes(a, b, i, j) != Prefixes(a, b, i-1, j-1) + Mismatch(a[i-1], b[j-1])
    ensures Swapped(a, b, i, j) && Prefixes(a, b, i, j) == Prefixes(a, b, i-2, j-2) + 1
  {
  }

  lemma InnerEditsEnd(a: string, b: string, i: nat, j: nat)
    requires 0 < i <= |a| && 0 < j <= |b|
    ensures Ends(Delete(a[i-1]), a, b, i, j) && Ends(Insert(b[j-1]), a, b, i, j)
    ensures Ends(Diagonal(a[i-1], b[j-1]), a, b, i, j)
    ensures Swapped(a, b, i, j) ==> Ends(Transpose(a[i-2], a[i-1]), a, b, i, j)
  {
    LastChars(a, i);
    LastChars(b, j);
    if Swapped(a, b, i, j) {
      var e := Transpose(a[i-2], a[i-1]);
      assert e.Consumes() == a[i-2..i] && e.Produces() == b[j-2..j];
    }
  }

  lemma LastChars(s: string, n: nat)
    requires 0 < n <= |s|
    ensures s[n-1..n] == [s[n-1]] && s[n..n] == [] && (n > 1 ==> s[n-2..n] == [s[n-2], s[n-1]])
  {
  }

  function Diagonal(x: char, y: char): Edit {
    if x == y then Keep(x) else Substitute(x, y)
  }

  lemma BestInnerEdit(a: string, b: string, i: nat, j: nat) returns (e: Edit)
    requires 0 < i <= |a| && 0 < j <= |b|
    ensures Ends(e, a, b, i, j) && |e.Consumes()| + |e.Produces()| > 0
    ensures Optimal(e, a, b, i, j)
  {
    InnerEditsEnd(a, b, i, j);
    var x, y := a[i-1], b[j-1];
    if Optimal(Delete(x), a, b, i, j) {
      e := Delete(x);
    } else if Optimal(Insert(y), a, b, i, j) {
      e := Insert(y);
    } else if Optimal(Diagonal(x, y), a, b, i, j) {
      e := Diagonal(x, y);
    } else {
      CellIsSwap(a, b, i, j);
      e := Transpose(a[i-2], x);
    }
  }

  ghost predicate Attains(script: Script, a: string, b: string, i: nat, j: nat)
    requires i <= |a| && j <= |b|
  {
    Cost(script) == Optimum(a, b, i, j)
  }

  lemma {:induction false} SomeAlignmentAttains(a: string, b: string, i: nat, j: nat) returns (script: Script)
    requires i <= |a| && j <= |b|
    ensures Aligns(script, a[..i], b[..j]) && Attains(script, a, b, i, j)
    decreases i + j
  {
    if i == 0 && j == 0 {
      script := [];
    } else {
      var e := BestLastEdit(a, b, i, j);
      var c, p := |e.Consumes()|, |e.Produces()|;
      var init := SomeAlignmentAttains(a, b, i - c, j - p);
      assert a[..i] == a[..i-c] + a[i-c..i] && b[..j] == b[..j-p] + b[j-p..j];
      ScriptSnoc(init, e);
      script := init + [e];
    }
  }

  lemma DistanceIsLeastAlignmentCost(a: string, b: string)
    ensures exists s :: Aligns(s, a, b) && Cost(s) == Distance(a, b)
    ensures forall s :: Aligns(s, a, b) ==> Distance(a, b) <= Cost(s)
  {
    assert a[..|a|] == a && b[..|b|] == b;
    var best := SomeAlignmentAttains(a, b, |a|, |b|);
    forall s | Aligns(s, a, b) ensures Distance(a, b) <= Cost(s) {
      NoAlignmentIsCheaper(s, a, b, |a|, |b|);
    }
  }

  // ---- symmetry, zero, bounds ----

  lemma {:induction false} PrefixesSymmetric(a: string, b: string, i: nat, j: nat)
    requires i <= |a| && j <= |b|
    ensures Prefixes(a, b, i, j) == Prefixes(b, a, j, i)
    decreases i + j
  {
    if i > 0 && j > 0 {
      PrefixesSymmetric(a, b, i-1, j);
      PrefixesSymmetric(a, b, i, j-1);
      PrefixesSymmetric(a, b, i-1, j-1);
      if Swapped(a, b, i, j) {
        PrefixesSymmetric(a, b, i-2, j-2);
      }
      CellSymmetric(a, b, i, j);
    }
  }

  lemma CellSymmetric(a: string, b: string, i: nat, j: nat)
    requires 0 < i <= |a| && 0 < j <= |b|
    requires Prefixes(a, b, i-1, j) == Prefixes(b, a, j, i-1) && Prefixes(a, b, i, j-1) == Prefixes(b, a, j-1, i)
    requires Prefixes(a, b, i-1, j-1) == Prefixes(b, a, j-1, i-1)
    requires Swapped(a, b, i, j) ==> Prefixes(a, b, i-2, j-2) == Prefixes(b, a, j-2, i-2)
    ensures Prefixes(a, b, i, j) == Prefixes(b, a, j, i)
  {
  }

  lemma DistanceIsSymmetric(a: string, b: string)
    ensures Distance(a, b) == Distance(b, a)
  {
    PrefixesSymmetric(a, b, |a|, |b|);
  }

  lemma {:induction false} FreeScriptChangesNothing(script: Script)
    requires Cost(script) == 0
    ensures Source(script) == Target(script)
  {
    if script != [] {
      FreeScriptChangesNothing(script[..|script|-1]);
    }
  }

  lemma {:induction false} EqualPrefixesAreAtDistanceZero(a: string, i: nat)
    requires i <= |a|
    ensures Prefixes(a, a, i, i) == 0
  {
    if i > 0 {
      EqualPrefixesAreAtDistanceZero(a, i - 1);
    }
  }

  // The early return for equal inputs agrees with the table, and nothing else is at distance 0.
  lemma DistanceIsZeroExactlyOnEqual(a: string, b: string)
    ensures Distance(a, b) == 0 <==> a == b
  {
    EqualPrefixesAreAtDistanceZero(a, |a|);
    if Distance(a, b) == 0 {
      var s := SomeAlignmentAttains(a, b, |a|, |b|);
      FreeScriptChangesNothing(s);
      assert a[..|a|] == a && b[..|b|] == b;
    }
  }

  ghost predicate InBounds(a: string, b: string, i: nat, j: nat)
    requires i <= |a| && j <= |b|
  {
    var d := Prefixes(a, b, i, j);
    i - j <= d && j - i <= d && d <= if i < j then j else i
  }

  lemma {:induction false} PrefixesBounds(a: string, b: string, i: nat, j: nat)
    requires i <= |a| && j <= |b|
    ensures InBounds(a, b, i, j)
    decreases i + j
  {
    if i > 0 && j > 0 {
      PrefixesBounds(a, b, i-1, j);
      PrefixesBounds(a, b, i, j-1);
      PrefixesBounds(a, b, i-1, j-1);
      if Swapped(a, b, i, j) {
        PrefixesBounds(a, b, i-2, j-2);
      }
    }
  }

  // Between the length difference and the longer length.
  lemma DistanceBounds(a: string, b: string)
    ensures |a| - |b| <= Distance(a, b) && |b| - |a| <= Distance(a, b)
    ensures Distance(a, b) <= if |a| < |b| then |b| else |a|
  {
    PrefixesBounds(a, b, |a|, |b|);
  }

  lemma CellUnfolds(a: string, b: string, i: nat, j: nat, del: nat, ins: nat, diag: nat, swap: nat)
    requires 0 < i <= |a| && 0 < j <= |b|
    requires del == Prefixes(a, b, i-1, j) && ins == Prefixes(a, b, i, j-1) && diag == Prefixes(a, b, i-1, j-1)
    requires Swapped(a, b, i, j) ==> swap == Prefixes(a, b, i-2, j-2)
    ensures var plain := Min3(del + 1, ins + 1, diag + Mismatch(a[i-1], b[j-1]));
            Prefixes(a, b, i, j) == if Swapped(a, b, i, j) && swap + 1 < plain then swap + 1 else plain
  {
  }

  // c is a reversed with a third character put in between.
  ghost predicate ReversedAround(a: string, c: string) {
    |a| == 2 && |c| == 3 && a[0] == c[2] && a[1] == c[0] && a[0] != a[1] && c[1] != a[0] && c[1] != a[1]
  }

  lemma FirstColumns(a: string, c: string)
    requires ReversedAround(a, c)
    ensures Prefixes(a, c, 2, 1) == 1 && Prefixes(a, c, 1, 2) == 2
  {
    CellUnfolds(a, c, 1, 1, 1, 1, 0, 0);
    CellUnfolds(a, c, 2, 1, 1, 2, 1, 0);
    CellUnfolds(a, c, 1, 2, 2, 1, 1, 0);
  }

  lemma FarApart(a: string, c: string)
    requires ReversedAround(a, c)
    ensures Distance(a, c) == 3
  {
    FirstColumns(a, c);
    CellUnfolds(a, c, 1, 1, 1, 1, 0, 0);
    CellUnfolds(a, c, 2, 2, 2, 1, 1, 0);
    CellUnfolds(a, c, 1, 3, 3, 2, 2, 0);
    CellUnfolds(a, c, 2, 3, 2, 2, 2, 0);
  }

  lemma Nearby(script: Script, a: string, b: string)
    requires Aligns(script, a, b) && Cost(script) == 1
    ensures Distance(a, b) <= 1
  {
    DistanceIsLeastAlignmentCost(a, b);
  }

  // The source names Damerau-Levenshtein, but an edited piece is never edited again: the triangle
  // inequality fails, so this is the optimal-string-alignment variant.
  lemma TriangleInequalityFails()
    ensures Distance("CA", "ABC") > Distance("CA", "AC") + Distance("AC", "ABC")
  {
    SwapIsNear();
    InsertIsNear();
    FarApart("CA", "ABC");
  }

  lemma SwapIsNear()
    ensures Distance("CA", "AC") <= 1
  {
    var swap := [Transpose('C', 'A')];
    assert swap[..0] == [];
    Nearby(swap, "CA", "AC");
  }

  lemma InsertIsNear()
    ensures Distance("AC", "ABC") <= 1
  {
    var insert := [Keep('A')] + [Insert('B')] + [Keep('C')];
    ScriptSnoc([], Keep('A'));
    ScriptSnoc([Keep('A')], Insert('B'));
    ScriptSnoc([Keep('A')] + [Insert('B')], Keep('C'));
    Nearby(insert, "AC", "ABC");
  }

  // ---- the table ----

  function Cell(i: nat, j: nat, width: nat): nat {
    i * width + j
  }

  lemma CellInTable(i: nat, j: nat, rows: nat, width: nat)
    requires i < rows && j < width
    ensures Cell(i, j, width) < rows * width
  {
    assert (i + 1) * width <= rows * width;
  }

  lemma EarlierRow(i: nat, j: nat, p: nat, q: nat, width: nat)
    requires j < width && i < p
    ensures Cell(i, j, width) < Cell(p, q, width)
  {
    assert (i + 1) * width <= p * width;
  }

  lemma CellIsInjective(i: nat, j: nat, p: nat, q: nat, width: nat)
    requires j < width && q < width && (i != p || j != q)
    ensures Cell(i, j, width) != Cell(p, q, width)
  {
    if i < p {
      EarlierRow(i, j, p, q, width);
    } else if p < i {
      EarlierRow(p, q, i, j, width);
    }
  }

  // The cells the loops have written: the borders, the rows above i, and row i left of column j.
  predicate Reached(p: nat, q: nat, i: nat, j: nat) {
    p < i || (p == i && q < j) || q == 0 || p == 0
  }

  // Every cell reached holds the distance of the two prefixes it stands for.
  ghost predicate Filled(d: seq<int>, a: string, b: string, i: nat, j: nat) {
    && |d| == (|a| + 1) * (|b| + 1)
    && forall p: nat, q: nat {:trigger Cell(p, q, |b| + 1)} ::
         p <= |a| && q <= |b| && Reached(p, q, i, j) ==>
           Cell(p, q, |b| + 1) < |d| && d[Cell(p, q, |b| + 1)] == Prefixes(a, b, p, q)
  }

  lemma FilledNext(d: seq<int>, dist: int, a: string, b: string, i: nat, j: nat)
    requires 1 <= i <= |a| && 1 <= j <= |b|
    requires Filled(d, a, b, i, j) && Cell(i, j, |b| + 1) < |d|
    requires dist == Prefixes(a, b, i, j)
    ensures Filled(d[Cell(i, j, |b| + 1) := dist], a, b, i, j + 1)
  {
    var w := |b| + 1;
    var d' := d[Cell(i, j, w) := dist];
    forall p: nat, q: nat {:trigger Cell(p, q, w)} | p <= |a| && q <= |b| && Reached(p, q, i, j + 1)
      ensures Cell(p, q, w) < |d'| && d'[Cell(p, q, w)] == Prefixes(a, b, p, q)
    {
      if p != i || q != j {
        CellIsInjective(p, q, i, j, w);
        assert Reached(p, q, i, j);
      }
    }
  }

  lemma ReadFilled(d: seq<int>, a: string, b: string, i: nat, j: nat, p: nat, q: nat)
    requires Filled(d, a, b, i, j) && p <= |a| && q <= |b| && Reached(p, q, i, j)
    ensures Cell(p, q, |b| + 1) < |d| && d[Cell(p, q, |b| + 1)] == Prefixes(a, b, p, q)
  {
  }

  method InitBorders(d: array<int>, a: string, b: string)
    requires d.Length == (|a| + 1) * (|b| + 1)
    modifies d
    ensures Filled(d[..], a, b, 1, 1)
  {
    var width := |b| + 1;
    for i := 0 to |a| + 1
      invariant forall p: nat {:trigger Cell(p, 0, width)} :: p < i ==>
                Cell(p, 0, width) < d.Length && d[Cell(p, 0, width)] == p
    {
      CellInTable(i, 0, |a| + 1, width);
      forall p: nat | p < i ensures Cell(p, 0, width) != Cell(i, 0, width) {
        CellIsInjective(p, 0, i, 0, width);
      }
      d[Cell(i, 0, width)] := i;
    }
    for j := 0 to |b| + 1
      invariant forall p: nat {:trigger Cell(p, 0, width)} :: p <= |a| ==>
                Cell(p, 0, width) < d.Length && d[Cell(p, 0, width)] == p
      invariant forall q: nat {:trigger Cell(0, q, width)} :: q < j ==>
                Cell(0, q, width) < d.Length && d[Cell(0, q, width)] == q
    {
      CellInTable(0, j, |a| + 1, width);
      forall p: nat | p <= |a| && p != 0 ensures Cell(p, 0, width) != Cell(0, j, width) {
        CellIsInjective(p, 0, 0, j, width);
      }
      d[Cell(0, j, width)] := j;
    }
  }

  lemma RowDone(d: seq<int>, a: string, b: string, i: nat)
    requires Filled(d, a, b, i, |b| + 1)
    ensures Filled(d, a, b, i + 1, 1)
  {
    forall p: nat, q: nat {:trigger Cell(p, q, |b| + 1)} | p <= |a| && q <= |b| && Reached(p, q, i + 1, 1)
      ensures Cell(p, q, |b| + 1) < |d| && d[Cell(p, q, |b| + 1)] == Prefixes(a, b, p, q)
    {
      assert Reached(p, q, i, |b| + 1);
    }
  }

  // One cell of the table, from the cells above, to the left and diagonal.
  method Relax(d: array<int>, a: string, b: string, i: nat, j: nat) returns (dist: int)
    requires 1 <= i <= |a| && 1 <= j <= |b| && Filled(d[..], a, b, i, j)
    ensures dist == Prefixes(a, b, i, j)
  {
    var width := |b| + 1;
    var cost := 1;
    if a[i-1] == b[j-1] {
      cost := 0;
    }
    ReadFilled(d[..], a, b, i, j, i-1, j);
    ReadFilled(d[..], a, b, i, j, i, j-1);
    ReadFilled(d[..], a, b, i, j, i-1, j-1);
    dist := Min3(d[Cell(i-1, j, width)] + 1, d[Cell(i, j-1, width)] + 1, d[Cell(i-1, j-1, width)] + cost);
    if i > 1 && j > 1 && a[i-1] == b[j-2] && a[i-2] == b[j-1] {
      ReadFilled(d[..], a, b, i, j, i-2, j-2);
      var t := d[Cell(i-2, j-2, width)] + 1;
      if t < dist {
        dist := t;
      }
    }
  }

  method DamerauLevenshtein(a: string, b: string) returns (dist: int)
    ensures dist == Distance(a, b)
  {
    if a == b {
      DistanceIsZeroExactlyOnEqual(a, b);
      return 0;
    }
    var la, lb := |a|, |b|;
    if la == 0 { return lb; }
    if lb == 0 { return la; }
    var d := new int[(la + 1) * (lb + 1)];
    InitBorders(d, a, b);
    for i := 1 to la + 1
      invariant Filled(d[..], a, b, i, 1)
    {
      for j := 1 to lb + 1
        invariant Filled(d[..], a, b, i, j)
      {
        dist := Relax(d, a, b, i, j);
        CellInTable(i, j, la + 1, lb + 1);
        FilledNext(d[..], dist, a, b, i, j);
        d[Cell(i, j, lb + 1)] := dist;
      }
      RowDone(d[..], a, b, i);
    }
    ReadFilled(d[..], a, b, la + 1, 1, la, lb);
    dist := d[Cell(la, lb, lb + 1)];
  }
}

/** When the edit distance obeys the triangle inequality. */
module EditComposition {
  import opened EditDistance

  // ---- scripts without swaps ----

  ghost predicate Plain(script: Script) {
    forall e :: e in script ==> !e.Transpose?
  }

  // No swap of the script exchanges two different characters.
  ghost predicate NoRealSwap(script: Script) {
    forall e :: e in script && e.Transpose? ==> e.first == e.second
  }

  // No two different neighbours of one string stand reversed in the other.
  predicate SwapFree(a: string, b: string) {
    forall i, j :: 0 <= i < |a| - 1 && 0 <= j < |b| - 1 && a[i] == b[j+1] && a[i+1] == b[j] ==> a[i] == a[i+1]
  }

  // What a piece of a script consumes and produces stands in the two strings.
  lemma {:induction false} PieceStands(script: Script, a: string, b: string, k: nat)
    requires k < |script| && Source(script) <= a && Target(script) <= b
    ensures var i, j, e := |Source(script[..k])|, |Target(script[..k])|, script[k];
            && i + |e.Consumes()| <= |a| && a[i..i+|e.Consumes()|] == e.Consumes()
            && j + |e.Produces()| <= |b| && b[j..j+|e.Produces()|] == e.Produces()
    decreases |script|
  {
    var init, last := script[..|script|-1], script[|script|-1];
    assert Source(init) <= a && Target(init) <= b;
    if k < |init| {
      PieceStands(init, a, b, k);
      assert init[..k] == script[..k];
    } else {
      assert script[..k] == init;
      AtEnd(Source(init), last.Consumes(), a);
      AtEnd(Target(init), last.Produces(), b);
    }
  }

  lemma AtEnd(init: string, piece: string, s: string)
    requires init + piece <= s
    ensures |init| + |piece| <= |s| && s[|init|..|init|+|piece|] == piece
  {
    assert s[..|init|+|piece|] == init + piece;
    assert s[|init|..|init|+|piece|] == s[..|init|+|piece|][|init|..];
  }

  lemma SwapStands(script: Script, a: string, b: string, k: nat)
    requires Aligns(script, a, b) && k < |script| && script[k].Transpose?
    ensures var i, j, e := |Source(script[..k])|, |Target(script[..k])|, script[k];
            i < |a| - 1 && j < |b| - 1 && a[i] == e.first && a[i+1] == e.second && b[j] == e.second && b[j+1] == e.first
  {
    PieceStands(script, a, b, k);
    Both(a, |Source(script[..k])|, script[k].first, script[k].second);
    Both(b, |Target(script[..k])|, script[k].second, script[k].first);
  }

  lemma Both(s: string, i: nat, x: char, y: char)
    requires i + 2 <= |s| && s[i..i+2] == [x, y]
    ensures s[i] == x && s[i+1] == y
  {
    assert s[i] == s[i..i+2][0] && s[i+1] == s[i..i+2][1];
  }

  lemma SwapFreeScripts(script: Script, a: string, b: string)
    requires SwapFree(a, b) && Aligns(script, a, b)
    ensures NoRealSwap(script)
  {
    forall e | e in script && e.Transpose? ensures e.first == e.second {
      var k :| 0 <= k < |script| && script[k] == e;
      SwapStands(script, a, b, k);
    }
  }

  // ---- getting rid of swaps ----

  lemma TwoMore(script: Script, d: Edit, e: Edit)
    ensures Source(script + [d] + [e]) == Source(script) + d.Consumes() + e.Consumes()
    ensures Target(script + [d] + [e]) == Target(script) + d.Produces() + e.Produces()
    ensures Cost(script + [d] + [e]) == Cost(script) + d.Price() + e.Price()
  {
    ScriptSnoc(script, d);
    ScriptSnoc(script + [d], e);
  }

  ghost predicate Replaces(script: Script, plain: Script) {
    Plain(plain) && Source(plain) == Source(script) && Target(plain) == Target(script)
  }

  ghost predicate Unswaps(script: Script, plain: Script) {
    Replaces(script, plain) && Cost(plain) <= 2 * Cost(script) && (NoRealSwap(script) ==> Cost(plain) <= Cost(script))
  }

  lemma Regroup(s: string, x: string, y: string)
    ensures s + x + y == s + (x + y)
  {
  }

  // Two edits that together do what e does.
  lemma ReplaceByTwo(script: Script, plain: Script, e: Edit, d1: Edit, d2: Edit)
    requires Replaces(script, plain) && !d1.Transpose? && !d2.Transpose?
    requires d1.Consumes() + d2.Consumes() == e.Consumes() && d1.Produces() + d2.Produces() == e.Produces()
    ensures Replaces(script + [e], plain + [d1] + [d2])
  {
    ScriptSnoc(script, e);
    TwoMore(plain, d1, d2);
    Regroup(Source(plain), d1.Consumes(), d2.Consumes());
    Regroup(Target(plain), d1.Produces(), d2.Produces());
  }

  lemma UnswapTwo(script: Script, plain: Script, e: Edit, d1: Edit, d2: Edit)
    requires Unswaps(script, plain) && e.Transpose? && !d1.Transpose? && !d2.Transpose?
    requires d1.Consumes() + d2.Consumes() == e.Consumes() && d1.Produces() + d2.Produces() == e.Produces()
    requires d1.Price() + d2.Price() <= 2 * e.Price()
    requires e.first == e.second ==> d1.Price() + d2.Price() <= e.Price()
    ensures Unswaps(script + [e], plain + [d1] + [d2])
  {
    ReplaceByTwo(script, plain, e, d1, d2);
    ScriptSnoc(script, e);
    TwoMore(plain, d1, d2);
    if NoRealSwap(script + [e]) { NoRealSwapInit(script, e); }
  }

  lemma UnswapSwap(script: Script, plain: Script, x: char, y: char)
    requires Unswaps(script, plain)
    ensures x == y ==> Unswaps(script + [Transpose(x, y)], plain + [Keep(x)] + [Keep(x)])
    ensures x != y ==> Unswaps(script + [Transpose(x, y)], plain + [Substitute(x, y)] + [Substitute(y, x)])
  {
    if x == y {
      UnswapTwo(script, plain, Transpose(x, y), Keep(x), Keep(x));
    } else {
      UnswapTwo(script, plain, Transpose(x, y), Substitute(x, y), Substitute(y, x));
    }
  }

  lemma NoRealSwapInit(script: Script, e: Edit)
    requires NoRealSwap(script + [e])
    ensures NoRealSwap(script) && (e.Transpose? ==> e.first == e.second)
  {
    assert e == (script + [e])[|script|];
    assert forall d :: d in script ==> d in script + [e];
  }

  lemma UnswapOther(script: Script, plain: Script, e: Edit)
    requires Unswaps(script, plain) && !e.Transpose?
    ensures Unswaps(script + [e], plain + [e])
  {
    ScriptSnoc(script, e);
    ScriptSnoc(plain, e);
    if NoRealSwap(script + [e]) { NoRealSwapInit(script, e); }
  }

  // Each swap becomes two keeps, when it exchanged nothing, or two substitutions.
  lemma {:induction false} Unswap(script: Script) returns (plain: Script)
    ensures Unswaps(script, plain)
    decreases |script|
  {
    if script == [] { return []; }
    var init, e := script[..|script|-1], script[|script|-1];
    var before := Unswap(init);
    LastJoins(script);
    if e.Transpose? {
      UnswapSwap(init, before, e.first, e.second);
      plain := if e.first == e.second then before + [Keep(e.first)] + [Keep(e.first)]
               else before + [Substitute(e.first, e.second)] + [Substitute(e.second, e.first)];
    } else {
      UnswapOther(init, before, e);
      plain := before + [e];
    }
  }

  // ---- one script after another ----

  ghost predicate Composes(s: Script, t: Script, r: Script) {
    Source(r) == Source(s) && Target(r) == Target(t) && Cost(r) <= Cost(s) + Cost(t)
  }

  // What becomes of a character that s makes with d and t takes with e.
  function Meet(d: Edit, e: Edit): Script {
    match (d, e)
    case (Keep(_), _) => [e]
    case (_, Keep(_)) => [d]
    case (Substitute(x, _), Substitute(_, z)) => [Substitute(x, z)]
    case (Substitute(x, _), Delete(_)) => [Delete(x)]
    case (Insert(_), Substitute(_, z)) => [Insert(z)]
    case _ => []
  }

  lemma MeetStep(s: Script, t: Script, d: Edit, e: Edit, r: Script)
    requires !d.Transpose? && !e.Transpose? && !d.Delete? && !e.Insert? && d.Produces() == e.Consumes()
    requires Composes(s, t, r)
    ensures Composes(s + [d], t + [e], r + Meet(d, e))
  {
    ScriptSnoc(s, d);
    ScriptSnoc(t, e);
    assert d.Produces()[0] == e.Consumes()[0];
    if Meet(d, e) == [] {
      assert r + [] == r;
    } else {
      ScriptSnoc(r, Meet(d, e)[0]);
      assert r + Meet(d, e) == r + [Meet(d, e)[0]];
    }
  }

  lemma LastJoins(script: Script)
    requires script != []
    ensures script == script[..|script|-1] + [script[|script|-1]]
  {
  }

  lemma InsertAfter(s: Script, t: Script, e: Edit, r: Script)
    requires e.Insert? && Composes(s, t, r)
    ensures Composes(s, t + [e], r + [e])
  {
    ScriptSnoc(t, e);
    ScriptSnoc(r, e);
  }

  lemma DeleteBefore(s: Script, t: Script, d: Edit, r: Script)
    requires d.Delete? && Composes(s, t, r)
    ensures Composes(s + [d], t, r + [d])
  {
    ScriptSnoc(s, d);
    ScriptSnoc(r, d);
  }

  // Without their last edits the scripts still fit: those say nothing, or the same character.
  lemma StillFit(s: Script, t: Script, d: Edit, e: Edit)
    requires Plain(s + [d]) && Plain(t + [e]) && Target(s + [d]) == Source(t + [e]) && !d.Delete? && !e.Insert?
    ensures !d.Transpose? && !e.Transpose? && Target(s) == Source(t) && d.Produces() == e.Consumes()
  {
    ScriptSnoc(s, d);
    ScriptSnoc(t, e);
    assert d == (s + [d])[|s|] && e == (t + [e])[|t|];
    SameLast(Target(s), d.Produces(), Source(t), e.Consumes());
  }

  // Plain scripts compose, at no more than the sum of their costs.
  lemma {:induction false} Compose(s: Script, t: Script) returns (r: Script)
    requires Plain(s) && Plain(t) && Target(s) == Source(t)
    ensures Composes(s, t, r)
    decreases |s| + |t|
  {
    if t != [] { LastJoins(t); }
    if s != [] { LastJoins(s); }
    if t != [] && t[|t|-1].Insert? {
      var t', e := t[..|t|-1], t[|t|-1];
      ScriptSnoc(t', e);
      r := Compose(s, t');
      InsertAfter(s, t', e, r);
      r := r + [e];
    } else if s != [] && s[|s|-1].Delete? {
      var s', d := s[..|s|-1], s[|s|-1];
      ScriptSnoc(s', d);
      r := Compose(s', t);
      DeleteBefore(s', t, d, r);
      r := r + [d];
    } else if s == [] || t == [] {
      r := ComposeEnd(s, t);
    } else {
      var s', d, t', e := s[..|s|-1], s[|s|-1], t[..|t|-1], t[|t|-1];
      StillFit(s', t', d, e);
      r := Compose(s', t');
      MeetStep(s', t', d, e, r);
      r := r + Meet(d, e);
    }
  }

  lemma SameLast(u: string, x: string, v: string, y: string)
    requires u + x == v + y && |x| == 1 && |y| == 1
    ensures u == v && x == y
  {
    assert |u| == |v|;
    assert u == (u + x)[..|u|] && v == (v + y)[..|v|];
    assert x == (u + x)[|u|..] && y == (v + y)[|v|..];
  }

  lemma ComposeEnd(s: Script, t: Script) returns (r: Script)
    requires Plain(s) && Plain(t) && Target(s) == Source(t) && (s == [] || t == [])
    requires (t != [] ==> !t[|t|-1].Insert?) && (s != [] ==> !s[|s|-1].Delete?)
    ensures Composes(s, t, r)
  {
    if s != [] { LeavesSomething(s); }
    if t != [] { TakesSomething(t); }
    r := [];
  }

  lemma LeavesSomething(s: Script)
    requires s != [] && !s[|s|-1].Delete?
    ensures |Target(s)| > 0
  {
  }

  lemma TakesSomething(t: Script)
    requires t != [] && !t[|t|-1].Insert?
    ensures |Source(t)| > 0
  {
  }

  // ---- the triangle inequality ----

  lemma BestPlain(a: string, b: string) returns (s: Script)
    ensures Plain(s) && Aligns(s, a, b) && Cost(s) <= 2 * Distance(a, b)
    ensures SwapFree(a, b) ==> Cost(s) <= Distance(a, b)
  {
    DistanceIsLeastAlignmentCost(a, b);
    var best :| Aligns(best, a, b) && Cost(best) == Distance(a, b);
    if SwapFree(a, b) { SwapFreeScripts(best, a, b); }
    s := Unswap(best);
  }

  // It holds through b whenever neither leg can use a swap, and for all strings up to a factor of two.
  lemma Triangle(a: string, b: string, c: string)
    ensures Distance(a, c) <= 2 * (Distance(a, b) + Distance(b, c))
    ensures SwapFree(a, b) && SwapFree(b, c) ==> Distance(a, c) <= Distance(a, b) + Distance(b, c)
  {
    var s := BestPlain(a, b);
    var t := BestPlain(b, c);
    var r := Compose(s, t);
    DistanceIsLeastAlignmentCost(a, c);
    assert Aligns(r, a, c);
  }

  // ---- common beginnings and ends do not matter ----

  lemma {:induction false} Neighbours(a: string, b: string, i: nat, j: nat)
    requires i <= |a| && j <= |b|
    ensures i < |a| ==> Optimum(a, b, i, j) <= Optimum(a, b, i + 1, j) + 1
    ensures j < |b| ==> Optimum(a, b, i, j) <= Optimum(a, b, i, j + 1) + 1
    decreases i + j
  {
    if i > 0 { Neighbours(a, b, i - 1, j); }
    if j > 0 { Neighbours(a, b, i, j - 1); }
    if i < |a| { BelowNeighbour(a, b, i, j); }
    if j < |b| { BesideNeighbour(a, b, i, j); }
  }

  // The four ways a cell can come about.
  lemma CellIsOneOf(a: string, b: string, i: nat, j: nat)
    requires 0 < i <= |a| && 0 < j <= |b|
    ensures var d := Optimum(a, b, i, j);
            || d == Optimum(a, b, i-1, j) + 1 || d == Optimum(a, b, i, j-1) + 1
            || d == Optimum(a, b, i-1, j-1) + Mismatch(a[i-1], b[j-1])
            || (Swapped(a, b, i, j) && d == Optimum(a, b, i-2, j-2) + 1)
  {
  }

  lemma Borders(a: string, b: string, i: nat, j: nat)
    requires i <= |a| && j <= |b|
    ensures Optimum(a, b, 0, j) == j && Optimum(a, b, i, 0) == i
  {
  }

  lemma BelowNeighbour(a: string, b: string, i: nat, j: nat)
    requires i < |a| && j <= |b| && (j > 0 ==> Optimum(a, b, i, j-1) <= Optimum(a, b, i+1, j-1) + 1)
    ensures Optimum(a, b, i, j) <= Optimum(a, b, i + 1, j) + 1
  {
    if j == 0 {
      Borders(a, b, i, 0);
      Borders(a, b, i + 1, 0);
    } else {
      CellIsOneOf(a, b, i + 1, j);
      CellAtMost(a, b, i, j);
      CellAtMost(a, b, i, j - 1);
    }
  }

  lemma BesideNeighbour(a: string, b: string, i: nat, j: nat)
    requires i <= |a| && j < |b| && (i > 0 ==> Optimum(a, b, i-1, j) <= Optimum(a, b, i-1, j+1) + 1)
    ensures Optimum(a, b, i, j) <= Optimum(a, b, i, j + 1) + 1
  {
    if i == 0 {
      Borders(a, b, 0, j);
      Borders(a, b, 0, j + 1);
    } else {
      CellIsOneOf(a, b, i, j + 1);
      CellAtMost(a, b, i, j);
      CellAtMost(a, b, i - 1, j);
    }
  }

  // Equal last characters are kept.
  lemma SameLastCell(a: string, b: string, i: nat, j: nat)
    requires 0 < i <= |a| && 0 < j <= |b| && a[i-1] == b[j-1]
    ensures Optimum(a, b, i, j) == Optimum(a, b, i-1, j-1)
  {
    CellAtMost(a, b, i, j);
    CellIsOneOf(a, b, i, j);
    Neighbours(a, b, i - 1, j - 1);
    if i > 1 && j > 1 { CellAtMost(a, b, i - 1, j - 1); }
  }

  lemma {:induction false} CellIgnoresRest(a: string, b: string, u: string, v: string, i: nat, j: nat)
    requires i <= |a| && i <= |u| && j <= |b| && j <= |v| && a[..i] == u[..i] && b[..j] == v[..j]
    ensures Optimum(a, b, i, j) == Optimum(u, v, i, j)
    decreases i + j
  {
    if i > 0 && j > 0 {
      SameBefore(a, u, i);
      SameBefore(b, v, j);
      CellIgnoresRest(a, b, u, v, i - 1, j);
      CellIgnoresRest(a, b, u, v, i, j - 1);
      CellIgnoresRest(a, b, u, v, i - 1, j - 1);
      if Swapped(a, b, i, j) { CellIgnoresRest(a, b, u, v, i - 2, j - 2); }
      SameCell(a, b, u, v, i, j);
    } else {
      Borders(a, b, i, j);
      Borders(u, v, i, j);
    }
  }

  lemma SameCell(a: string, b: string, u: string, v: string, i: nat, j: nat)
    requires 0 < i <= |a| && i <= |u| && 0 < j <= |b| && j <= |v|
    requires a[i-1] == u[i-1] && b[j-1] == v[j-1] && (i > 1 ==> a[i-2] == u[i-2]) && (j > 1 ==> b[j-2] == v[j-2])
    requires Optimum(a, b, i-1, j) == Optimum(u, v, i-1, j) && Optimum(a, b, i, j-1) == Optimum(u, v, i, j-1)
    requires Optimum(a, b, i-1, j-1) == Optimum(u, v, i-1, j-1)
    requires Swapped(a, b, i, j) ==> Optimum(a, b, i-2, j-2) == Optimum(u, v, i-2, j-2)
    ensures Optimum(a, b, i, j) == Optimum(u, v, i, j)
  {
    CellAtMost(a, b, i, j);
    CellAtMost(u, v, i, j);
    CellIsOneOf(a, b, i, j);
    CellIsOneOf(u, v, i, j);
  }

  lemma SameBefore(s: string, t: string, n: nat)
    requires 0 < n <= |s| && n <= |t| && s[..n] == t[..n]
    ensures s[n-1] == t[n-1] && s[..n-1] == t[..n-1] && (n > 1 ==> s[n-2] == t[n-2] && s[..n-2] == t[..n-2])
  {
    assert s[..n][n-1] == s[n-1] && t[..n][n-1] == t[n-1];
    assert s[..n][..n-1] == s[..n-1] && t[..n][..n-1] == t[..n-1];
    if n > 1 {
      assert s[..n][n-2] == s[n-2] && t[..n][n-2] == t[n-2];
      assert s[..n][..n-2] == s[..n-2] && t[..n][..n-2] == t[..n-2];
    }
  }

  lemma {:induction false} CommonEnd(u: string, v: string, w: string)
    ensures Distance(u + w, v + w) == Distance(u, v)
    decreases |w|
  {
    if w == [] {
      assert u + w == u && v + w == v;
    } else {
      var c, w' := w[|w|-1], w[..|w|-1];
      var a, b := u + w, v + w;
      CommonEnd(u, v, w');
      SameLastCell(a, b, |a|, |b|);
      assert a[..|a|-1] == u + w' && b[..|b|-1] == v + w';
      CellIgnoresRest(a, b, u + w', v + w', |a| - 1, |b| - 1);
    }
  }

  // The cell of p + u and p + v against that of u and v, whose borders stand for everything inside p.
  ghost function Inner(u: string, v: string, m: nat, r: nat, c: nat): nat
    requires r <= m + |u| && c <= m + |v|
  {
    Optimum(u, v, if r < m then 0 else r - m, if c < m then 0 else c - m)
  }

  lemma JoinedChars(p: string, u: string, n: nat)
    requires |p| < n <= |p| + |u|
    ensures (p + u)[n-1] == u[n-|p|-1] && (n > |p| + 1 ==> (p + u)[n-2] == u[n-|p|-2])
  {
  }

  lemma CellBounds(a: string, b: string, i: nat, j: nat)
    requires i <= |a| && j <= |b|
    ensures i - j <= Optimum(a, b, i, j) && j - i <= Optimum(a, b, i, j)
    ensures Optimum(a, b, i, j) <= if i < j then j else i
  {
    PrefixesBounds(a, b, i, j);
  }

  // A swap of p + u and p + v is one of u and v, or it reaches into p.
  lemma SwapInside(p: string, u: string, v: string, r: nat, c: nat)
    requires |p| < r <= |p| + |u| && |p| < c <= |p| + |v| && Swapped(p + u, p + v, r, c)
    requires r > |p| + 1 && c > |p| + 1 ==> Inner(u, v, |p|, r - 2, c - 2) <= Optimum(p + u, p + v, r - 2, c - 2)
    ensures Inner(u, v, |p|, r, c) <= Optimum(p + u, p + v, r - 2, c - 2) + 1
  {
    JoinedChars(p, u, r);
    JoinedChars(p, v, c);
    if r > |p| + 1 && c > |p| + 1 {
      CellAtMost(u, v, r - |p|, c - |p|);
    } else {
      CellBounds(p + u, p + v, r - 2, c - 2);
      CellBounds(u, v, r - |p|, c - |p|);
    }
  }

  // Bounds on its neighbours bound a cell.
  lemma NoMoreThan(u: string, v: string, i: nat, j: nat, del: nat, ins: nat, diag: nat, d: nat)
    requires 0 < i <= |u| && 0 < j <= |v|
    requires Optimum(u, v, i-1, j) <= del && Optimum(u, v, i, j-1) <= ins && Optimum(u, v, i-1, j-1) <= diag
    requires d == del + 1 || d == ins + 1 || d == diag + Mismatch(u[i-1], v[j-1])
    ensures Optimum(u, v, i, j) <= d
  {
    CellAtMost(u, v, i, j);
  }

  ghost predicate Less(p: string, u: string, v: string, r: int, c: int) {
    0 <= r <= |p| + |u| && 0 <= c <= |p| + |v| ==> Inner(u, v, |p|, r, c) <= Optimum(p + u, p + v, r, c)
  }

  lemma {:induction false} InnerIsLess(p: string, u: string, v: string, r: nat, c: nat)
    requires r <= |p| + |u| && c <= |p| + |v|
    ensures Less(p, u, v, r, c)
    decreases r + c
  {
    if r <= |p| || c <= |p| {
      InnerBorder(p, u, v, r, c);
    } else {
      InnerIsLess(p, u, v, r - 1, c);
      InnerIsLess(p, u, v, r, c - 1);
      InnerIsLess(p, u, v, r - 1, c - 1);
      if r > 1 && c > 1 { InnerIsLess(p, u, v, r - 2, c - 2); }
      InnerStep(p, u, v, r, c);
    }
  }

  lemma InnerBorder(p: string, u: string, v: string, r: nat, c: nat)
    requires r <= |p| + |u| && c <= |p| + |v| && (r <= |p| || c <= |p|)
    ensures Less(p, u, v, r, c)
  {
    CellBounds(p + u, p + v, r, c);
    Borders(u, v, if r < |p| then 0 else r - |p|, if c < |p| then 0 else c - |p|);
  }

  lemma InnerStep(p: string, u: string, v: string, r: nat, c: nat)
    requires |p| < r <= |p| + |u| && |p| < c <= |p| + |v|
    requires Less(p, u, v, r - 1, c) && Less(p, u, v, r, c - 1) && Less(p, u, v, r - 1, c - 1)
    requires r > 1 && c > 1 ==> Less(p, u, v, r - 2, c - 2)
    ensures Less(p, u, v, r, c)
  {
    var a, b := p + u, p + v;
    var d := Optimum(a, b, r, c);
    CellIsOneOf(a, b, r, c);
    if Swapped(a, b, r, c) && d == Optimum(a, b, r - 2, c - 2) + 1 {
      SwapInside(p, u, v, r, c);
    } else {
      JoinedChars(p, u, r);
      JoinedChars(p, v, c);
      NoMoreThan(u, v, r - |p|, c - |p|, Optimum(a, b, r - 1, c), Optimum(a, b, r, c - 1), Optimum(a, b, r - 1, c - 1),
        d);
    }
  }

  ghost predicate Kept(p: string, u: string, v: string, i: int, j: int) {
    0 <= i <= |u| && 0 <= j <= |v| ==> Optimum(p + u, p + v, |p| + i, |p| + j) <= Optimum(u, v, i, j)
  }

  lemma {:induction false} StartIsKept(p: string, u: string, v: string, i: nat, j: nat)
    requires i <= |u| && j <= |v|
    ensures Kept(p, u, v, i, j)
    decreases i + j
  {
    if i == 0 && j == 0 {
      StartCorner(p, u, v);
    } else if i == 0 || j == 0 {
      if j > 0 { StartIsKept(p, u, v, 0, j - 1); } else { StartIsKept(p, u, v, i - 1, 0); }
      StartBorder(p, u, v, i, j);
    } else {
      StartIsKept(p, u, v, i - 1, j);
      StartIsKept(p, u, v, i, j - 1);
      StartIsKept(p, u, v, i - 1, j - 1);
      if i > 1 && j > 1 { StartIsKept(p, u, v, i - 2, j - 2); }
      StartStep(p, u, v, i, j);
    }
  }

  lemma StartCorner(p: string, u: string, v: string)
    ensures Optimum(p + u, p + v, |p|, |p|) == 0 && Kept(p, u, v, 0, 0)
  {
    CellIgnoresRest(p + u, p + v, p, p, |p|, |p|);
    EqualPrefixesAreAtDistanceZero(p, |p|);
  }

  lemma StartBorder(p: string, u: string, v: string, i: nat, j: nat)
    requires i <= |u| && j <= |v| && (i == 0) != (j == 0)
    requires Kept(p, u, v, if i > 0 then i - 1 else 0, if j > 0 then j - 1 else 0)
    ensures Kept(p, u, v, i, j)
  {
    CellAtMost(p + u, p + v, |p| + i, |p| + j);
    Borders(u, v, i, j);
    Borders(u, v, if i > 0 then i - 1 else 0, if j > 0 then j - 1 else 0);
  }

  lemma StartStep(p: string, u: string, v: string, i: nat, j: nat)
    requires 0 < i <= |u| && 0 < j <= |v|
    requires Kept(p, u, v, i - 1, j) && Kept(p, u, v, i, j - 1) && Kept(p, u, v, i - 1, j - 1)
    requires i > 1 && j > 1 ==> Kept(p, u, v, i - 2, j - 2)
    ensures Kept(p, u, v, i, j)
  {
    var a, b := p + u, p + v;
    JoinedChars(p, u, |p| + i);
    JoinedChars(p, v, |p| + j);
    CellIsOneOf(u, v, i, j);
    if Swapped(u, v, i, j) && Optimum(u, v, i, j) == Optimum(u, v, i - 2, j - 2) + 1 {
      CellAtMost(a, b, |p| + i, |p| + j);
    } else {
      NoMoreThan(a, b, |p| + i, |p| + j, Optimum(u, v, i - 1, j), Optimum(u, v, i, j - 1), Optimum(u, v, i - 1, j - 1),
                 Optimum(u, v, i, j));
    }
  }

  lemma CommonStart(p: string, u: string, v: string)
    ensures Distance(p + u, p + v) == Distance(u, v)
  {
    InnerIsLess(p, u, v, |p| + |u|, |p| + |v|);
    StartIsKept(p, u, v, |u|, |v|);
  }

  // Only the differing middles count.
  lemma CommonEndsDoNotMatter(p: string, u: string, v: string, w: string)
    ensures Distance(p + u + w, p + v + w) == Distance(u, v)
  {
    CommonEnd(p + u, p + v, w);
    CommonStart(p, u, v);
  }

  // ---- which strings are always between ----

  // All characters are equal.
  predicate Uniform(b: string) {
    forall i :: 0 <= i < |b| - 1 ==> b[i] == b[i+1]
  }

  // The triangle inequality holds through b, whatever the other two strings.
  ghost predicate Between(b: string) {
    forall a, c :: Distance(a, c) <= Distance(a, b) + Distance(b, c)
  }

  lemma OneEdit(a: string, b: string, s: Script)
    requires Aligns(s, a, b) && Cost(s) <= 1
    ensures Distance(a, b) <= 1
  {
    DistanceIsLeastAlignmentCost(a, b);
  }

  lemma SwapThenInsert(x: char, y: char, z: char)
    ensures Distance([y, x], [x, y]) <= 1 && Distance([x, y], [x, z, y]) <= 1
  {
    ScriptSnoc([], Transpose(y, x));
    assert [] + [Transpose(y, x)] == [Transpose(y, x)];
    OneEdit([y, x], [x, y], [Transpose(y, x)]);
    ScriptSnoc([], Keep(x));
    TwoMore([Keep(x)], Insert(z), Keep(y));
    assert [] + [Keep(x)] == [Keep(x)] && [Keep(x)] + [Insert(z)] + [Keep(y)] == [Keep(x), Insert(z), Keep(y)];
    OneEdit([x, y], [x, z, y], [Keep(x), Insert(z), Keep(y)]);
  }

  function Third(x: char, y: char): (z: char)
    ensures z != x && z != y
  {
    if x != 'a' && y != 'a' then 'a' else if x != 'b' && y != 'b' then 'b' else 'c'
  }

  // Two different neighbours of b: swap them on one side, and put a third character between them on the other.
  lemma NotBetween(b: string, k: nat)
    requires k + 1 < |b| && b[k] != b[k+1]
    ensures exists a, c :: Distance(a, c) > Distance(a, b) + Distance(b, c)
  {
    var p, x, y, w := b[..k], b[k], b[k+1], b[k+2..];
    var z := Third(x, y);
    assert b == p + [x, y] + w;
    var a, c := p + [y, x] + w, p + [x, z, y] + w;
    CommonEndsDoNotMatter(p, [y, x], [x, y], w);
    CommonEndsDoNotMatter(p, [x, y], [x, z, y], w);
    CommonEndsDoNotMatter(p, [y, x], [x, z, y], w);
    SwapThenInsert(x, y, z);
    FarApart([y, x], [x, z, y]);
    assert Distance(a, c) > Distance(a, b) + Distance(b, c);
  }

  // The triangle inequality holds through b exactly when b repeats one character.
  lemma BetweenExactlyWhenUniform(b: string)
    ensures Between(b) <==> Uniform(b)
  {
    if Uniform(b) {
      forall a, c ensures Distance(a, c) <= Distance(a, b) + Distance(b, c) {
        UniformNeighbours(b);
        Triangle(a, b, c);
      }
    } else {
      var k :| 0 <= k < |b| - 1 && b[k] != b[k+1];
      NotBetween(b, k);
    }
  }

  lemma UniformNeighbours(b: string)
    requires Uniform(b)
    ensures forall a :: SwapFree(a, b) && SwapFree(b, a)
  {
    forall a ensures SwapFree(a, b) && SwapFree(b, a) {
      assert forall j :: 0 <= j < |b| - 1 ==> b[j] == b[j+1];
    }
  }
}

/** Sequences used as lists without repetition, and their sets of elements. */
module Lists {

  function Elements<T>(s: seq<T>): set<T> {
    set x | x in s
  }

  ghost predicate Distinct<T>(s: seq<T>) {
    forall i, j :: 0 <= i < j < |s| ==> s[i] != s[j]
  }

  lemma Joined<T>(a: seq<T>, b: seq<T>)
    requires Distinct(a) && Distinct(b) && Elements(a) !! Elements(b)
    ensures Distinct(a + b) && Elements(a + b) == Elements(a) + Elements(b)
  {
    forall i, j | 0 <= i < j < |a + b| ensures (a + b)[i] != (a + b)[j] {
      if i < |a| <= j { assert (a + b)[i] in Elements(a) && (a + b)[j] in Elements(b); }
    }
  }

  lemma Popped<T>(s: seq<T>)
    requires s != [] && Distinct(s)
    ensures var last, init := s[|s| - 1], s[..|s| - 1];
            Distinct(init) && Elements(s) == Elements(init) + {last} && last !in Elements(init)
  {
  }

  lemma OneMore<T>(s: seq<T>, i: nat)
    requires i < |s| && Distinct(s)
    ensures s[i] in Elements(s) && s[i] !in Elements(s[..i]) && Elements(s[..i + 1]) == Elements(s[..i]) + {s[i]}
  {
  }

  lemma {:induction false} DistinctSize<T>(s: seq<T>)
    requires Distinct(s)
    ensures |Elements(s)| == |s|
    decreases |s|
  {
    if s == [] {
      assert Elements(s) == {};
    } else {
      var init, last := s[..|s| - 1], s[|s| - 1];
      Popped(s);
      DistinctSize(init);
      assert |Elements(init) + {last}| == |Elements(init)| + 1;
    }
  }

  lemma Parted<T>(s: seq<T>, i: nat)
    requires i <= |s| && Distinct(s)
    ensures Elements(s) == Elements(s[..i]) + Elements(s[i..]) && Elements(s[..i]) !! Elements(s[i..])
    ensures |Elements(s[..i])| == i
    ensures forall x :: x in Elements(s[..i]) ==> exists k :: 0 <= k < i && s[k] == x
    ensures forall x :: x in Elements(s[i..]) ==> exists k :: i <= k < |s| && s[k] == x
  {
    DistinctSize(s[..i]);
    assert s == s[..i] + s[i..];
    forall x | x in Elements(s[i..]) ensures exists k :: i <= k < |s| && s[k] == x {
      var k :| 0 <= k < |s[i..]| && s[i..][k] == x;
      assert s[i + k] == x;
    }
  }

  lemma {:induction false} SubsetSize<T>(a: set<T>, b: set<T>)
    requires a <= b
    ensures |a| <= |b|
    decreases a
  {
    if a != {} {
      var x :| x in a;
      SubsetSize(a - {x}, b - {x});
    }
  }
}

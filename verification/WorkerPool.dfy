/** The bounded worker pool: every interleaving of its workers runs each item exactly once. */
module WorkerPool {
  import opened Lists

  // Item indices below n, as a set.
  function Below(n: nat): (s: set<nat>)
    ensures |s| == n && forall i: nat :: i in s <==> i < n
  {
    if n == 0 then {} else Below(n - 1) + {n - 1}
  }

  ghost function Failing(fails: seq<bool>, s: set<nat>): set<nat> {
    set i | i in s && i < |fails| && fails[i]
  }

  // idx is shared by the workers; `running` says which item each busy worker holds.
  datatype Pool = Pool(idx: nat, running: map<nat, nat>, stopped: set<nat>, finished: seq<nat>, failed: nat)

  // Every item handed out is finished or in hand, not both.
  ghost predicate Covers(finished: set<nat>, held: set<nat>, idx: nat) {
    finished + held == Below(idx) && finished !! held
  }

  ghost predicate OneEach(running: map<nat, nat>) {
    forall v, w :: v in running && w in running && running[v] == running[w] ==> v == w
  }

  ghost predicate Inv(p: Pool, fails: seq<bool>, workers: nat) {
    && p.idx <= |fails| && Distinct(p.finished)
    && Covers(Elements(p.finished), p.running.Values, p.idx) && OneEach(p.running)
    && p.running.Keys + p.stopped <= Below(workers) && p.running.Keys !! p.stopped
    && (p.stopped != {} ==> p.idx == |fails|)
    && p.failed == |Failing(fails, Elements(p.finished))|
  }

  // One turn of a worker: it stops, takes the next item, or reports the item it holds.
  predicate CanStep(p: Pool, workers: nat, w: nat) {
    w < workers && w !in p.stopped
  }

  function Step(p: Pool, fails: seq<bool>, w: nat): Pool {
    if w in p.running then
      var i := p.running[w];
      p.(running := p.running - {w}, finished := p.finished + [i],
         failed := p.failed + if i < |fails| && fails[i] then 1 else 0)
    else if p.idx < |fails| then
      p.(running := p.running[w := p.idx], idx := p.idx + 1)
    else
      p.(stopped := p.stopped + {w})
  }

  lemma ValuesWith(m: map<nat, nat>, w: nat, i: nat)
    requires w !in m && OneEach(m)
    ensures m[w := i].Values == m.Values + {i} && (i !in m.Values ==> OneEach(m[w := i]))
  {
    forall k ensures k in m[w := i].Values <==> k in m.Values + {i} {
      assert m[w := i][w] == i;
      if k in m.Values {
        var v :| v in m && m[v] == k;
        assert m[w := i][v] == k;
      }
    }
  }

  lemma TakeKeepsInv(p: Pool, fails: seq<bool>, workers: nat, w: nat)
    requires Inv(p, fails, workers) && CanStep(p, workers, w) && w !in p.running && p.idx < |fails|
    ensures Inv(Step(p, fails, w), fails, workers)
  {
    ValuesWith(p.running, w, p.idx);
    HandOut(Elements(p.finished), p.running.Values, p.idx);
  }

  lemma HandOut(finished: set<nat>, held: set<nat>, idx: nat)
    requires Covers(finished, held, idx)
    ensures idx !in held && Covers(finished, held + {idx}, idx + 1)
  {
    assert idx !in Below(idx);
    assert Below(idx + 1) == Below(idx) + {idx};
  }

  lemma ValuesWithout(m: map<nat, nat>, w: nat)
    requires w in m && OneEach(m)
    ensures OneEach(m - {w}) && (m - {w}).Values == m.Values - {m[w]} && m[w] in m.Values
  {
    forall k ensures k in (m - {w}).Values <==> k in m.Values - {m[w]} {
      if k in m.Values - {m[w]} {
        var v :| v in m && m[v] == k;
        assert (m - {w})[v] == k;
      }
    }
  }

  lemma OneMoreFinished(fails: seq<bool>, s: seq<nat>, i: nat)
    requires Distinct(s) && i !in Elements(s) && i < |fails|
    ensures Distinct(s + [i]) && Elements(s + [i]) == Elements(s) + {i}
    ensures |Failing(fails, Elements(s + [i]))| == |Failing(fails, Elements(s))| + if fails[i] then 1 else 0
  {
    assert Elements(s + [i]) == Elements(s) + {i};
    assert Failing(fails, Elements(s) + {i}) == Failing(fails, Elements(s)) + if fails[i] then {i} else {};
    assert forall k :: k in s ==> k in Elements(s);
  }

  lemma FinishHandsBack(p: Pool, fails: seq<bool>, workers: nat, w: nat)
    requires Inv(p, fails, workers) && w in p.running
    ensures p.running[w] < p.idx && p.running[w] !in Elements(p.finished)
    ensures Covers(Elements(p.finished) + {p.running[w]}, (p.running - {w}).Values, p.idx) && OneEach(p.running - {w})
  {
    ValuesWithout(p.running, w);
    HandBack(Elements(p.finished), p.running.Values, p.idx, p.running[w]);
  }

  lemma FinishKeepsInv(p: Pool, fails: seq<bool>, workers: nat, w: nat)
    requires Inv(p, fails, workers) && CanStep(p, workers, w) && w in p.running
    ensures Inv(Step(p, fails, w), fails, workers)
  {
    FinishHandsBack(p, fails, workers, w);
    OneMoreFinished(fails, p.finished, p.running[w]);
  }

  lemma HandBack(finished: set<nat>, held: set<nat>, idx: nat, i: nat)
    requires Covers(finished, held, idx) && i in held
    ensures i < idx && i !in finished && Covers(finished + {i}, held - {i}, idx)
  {
    assert i in Below(idx);
  }

  lemma StepKeepsInv(p: Pool, fails: seq<bool>, workers: nat, w: nat)
    requires Inv(p, fails, workers) && CanStep(p, workers, w)
    ensures Inv(Step(p, fails, w), fails, workers)
  {
    if w in p.running {
      FinishKeepsInv(p, fails, workers, w);
    } else if p.idx < |fails| {
      TakeKeepsInv(p, fails, workers, w);
    }
  }

  // Two turns for each item still to come, one for each item in hand, one for each worker to stop.
  ghost function TurnsLeft(p: Pool, fails: seq<bool>, workers: nat): int {
    2 * (|fails| - p.idx) + |p.running| + |Below(workers) - p.stopped|
  }

  lemma SizeWithout(m: map<nat, nat>, w: nat, i: nat)
    ensures w in m ==> |m - {w}| == |m| - 1
    ensures w !in m ==> |m[w := i]| == |m| + 1
  {
    assert (m - {w}).Keys == m.Keys - {w};
    assert m[w := i].Keys == m.Keys + {w};
  }

  lemma StopSize(workers: nat, stopped: set<nat>, w: nat)
    requires w < workers && w !in stopped
    ensures |Below(workers) - (stopped + {w})| == |Below(workers) - stopped| - 1
  {
    assert Below(workers) - (stopped + {w}) == (Below(workers) - stopped) - {w};
  }

  lemma StepUsesATurn(p: Pool, fails: seq<bool>, workers: nat, w: nat)
    requires CanStep(p, workers, w) && p.idx <= |fails|
    ensures TurnsLeft(Step(p, fails, w), fails, workers) == TurnsLeft(p, fails, workers) - 1
  {
    SizeWithout(p.running, w, p.idx);
    StopSize(workers, p.stopped, w);
  }

  // When every worker has stopped, each item was run exactly once and each failure counted.
  lemma AllStopped(p: Pool, fails: seq<bool>, workers: nat)
    requires Inv(p, fails, workers) && p.stopped == Below(workers) && (workers > 0 || fails == [])
    ensures Distinct(p.finished) && Elements(p.finished) == Below(|fails|)
    ensures p.failed == |Failing(fails, Below(|fails|))|
  {
    if workers > 0 {
      assert 0 in p.stopped;
    }
    assert p.running.Keys == {};
    assert p.running == map[];
  }

  lemma Start(fails: seq<bool>, workers: nat)
    ensures Inv(Pool(0, map[], {}, [], 0), fails, workers)
  {
    assert Failing(fails, Elements([])) == {};
    assert Below(0) == {};
  }

  // parallelMap: at each turn any worker that has not stopped may move. At most `concurrency` items are
  // ever in hand, and the pool stops after a fixed number of turns.
  method ParallelMap(fails: seq<bool>, concurrency: nat) returns (finished: seq<nat>, failed: nat)
    requires concurrency > 0
    ensures Distinct(finished) && Elements(finished) == Below(|fails|)
    ensures failed == |Failing(fails, Below(|fails|))|
  {
    var workers := if concurrency < |fails| then concurrency else |fails|;
    var p := Pool(0, map[], {}, [], 0);
    Start(fails, workers);
    while p.stopped != Below(workers)
      invariant Inv(p, fails, workers)
      decreases TurnsLeft(p, fails, workers)
    {
      SomeoneMoves(p, workers);
      var w :| w in Below(workers) && CanStep(p, workers, w);
      StepKeepsInv(p, fails, workers, w);
      StepUsesATurn(p, fails, workers, w);
      p := Step(p, fails, w);
    }
    AllStopped(p, fails, workers);
    finished, failed := p.finished, p.failed;
  }

  lemma SomeoneMoves(p: Pool, workers: nat)
    requires p.stopped <= Below(workers) && p.stopped != Below(workers)
    ensures exists w :: w in Below(workers) && CanStep(p, workers, w)
  {
    var w :| w in Below(workers) && w !in p.stopped;
    assert CanStep(p, workers, w);
  }

  lemma AtMostWorkersInHand(p: Pool, fails: seq<bool>, workers: nat)
    requires Inv(p, fails, workers)
    ensures |p.running| <= workers
  {
    SubsetSize(p.running.Keys, Below(workers));
    assert |p.running| == |p.running.Keys|;
  }
}

/** Fixed-window rate limiting: the Redis counter script and the middleware around it. */
module RateLimiter {
  import opened Arithmetic
  import opened Options

  type Positive = n: nat | n > 0 witness 1

  // A Redis counter key, created by INCR and so at least 1, and when it expires (milliseconds), if
  // an expiry is set.
  datatype Counter = Counter(count: Positive, expires: Option<nat>)

  type Redis = map<string, Counter>

  predicate Live(redis: Redis, key: string, now: nat) {
    key in redis && (redis[key].expires.Some? ==> now < redis[key].expires.value)
  }

  // The counter after one run of the script.
  function Bumped(redis: Redis, key: string, now: nat, window: nat): Counter {
    if !Live(redis, key, now) then Counter(1, Some(now + window))
    else if redis[key].expires.None? then Counter(redis[key].count + 1, Some(now + window))
    else Counter(redis[key].count + 1, redis[key].expires)
  }

  // Whole seconds and at least one, as EXPIRE takes them.
  function WindowMillis(window: int): (w: nat)
    ensures w >= 1000 && (window >= 1000 ==> w <= window < w + 1000)
  {
    if window / 1000 < 1 then 1000 else window / 1000 * 1000
  }

  predicate Admits(redis: Redis, key: string, now: nat, capacity: int, window: int) {
    capacity <= 0 || window <= 0 || key == "" || Bumped(redis, key, now, WindowMillis(window)).count <= capacity
  }

  function After(redis: Redis, key: string, now: nat, capacity: int, window: int): Redis {
    if capacity <= 0 || window <= 0 || key == "" then redis
    else redis[key := Bumped(redis, key, now, WindowMillis(window))]
  }

  class Limiter {
    var redis: Redis
    const capacity: int
    const window: int // milliseconds

    constructor (capacity: int, window: int)
      ensures this.capacity == capacity && this.window == window && redis == map[]
    {
      this.capacity, this.window := capacity, window;
      redis := map[];
    }

    // The script's commands run as one atomic step: INCR, EXPIRE on the first hit, TTL, and EXPIRE
    // again for a counter found without one.
    method RunScript(key: string, now: nat, windowSec: nat) returns (n: nat, ttl: int)
      requires windowSec > 0
      modifies this
      ensures redis == old(redis)[key := Bumped(old(redis), key, now, windowSec * 1000)]
      ensures n == redis[key].count && redis[key].expires.Some?
      ensures ttl == (redis[key].expires.value - now + 500) / 1000
    {
      // An expired key counts as absent.
      redis :=
        redis[key := if Live(redis, key, now) then redis[key].(count := redis[key].count + 1) else Counter(1, None)];
      n := redis[key].count;
      if n == 1 {
        redis := redis[key := redis[key].(expires := Some(now + windowSec * 1000))];
      }
      ttl := if redis[key].expires.None? then -1 else (redis[key].expires.value - now + 500) / 1000;
      if ttl < 0 {
        redis := redis[key := redis[key].(expires := Some(now + windowSec * 1000))];
        ttl := windowSec;
      }
    }

    method Handle(key: string, now: nat) returns (admitted: bool)
      modifies this
      ensures admitted == Admits(old(redis), key, now, capacity, window)
      ensures redis == After(old(redis), key, now, capacity, window)
    {
      if capacity <= 0 || window <= 0 {
        return true;
      }
      var windowSec := window / 1000;
      if windowSec < 1 {
        windowSec := 1;
      }
      if key == "" {
        return true;
      }
      var count, ttl := RunScript(key, now, windowSec);
      admitted := count <= capacity;
    }
  }

  // ---- runs ----

  datatype Request = Request(key: string, time: nat)

  ghost predicate InOrder(rs: seq<Request>) {
    forall i, j :: 0 <= i < j < |rs| ==> rs[i].time <= rs[j].time
  }

  // How many requests for key the limiter admits at times lo..hi of a run.
  function Admitted(redis: Redis, rs: seq<Request>, key: string, lo: nat, hi: nat, capacity: int, window: int): nat
    decreases |rs|
  {
    if rs == [] then 0
    else
      var r := rs[0];
      (if r.key == key && lo <= r.time <= hi && Admits(redis, r.key, r.time, capacity, window) then 1 else 0)
      + Admitted(After(redis, r.key, r.time, capacity, window), rs[1..], key, lo, hi, capacity, window)
  }

  // How many windows can start at times x..hi.
  function Starts(x: nat, hi: nat, w: nat): nat
    requires w > 0
  {
    if x > hi then 0 else (hi - x) / w + 1
  }

  function CeilDiv(l: nat, w: nat): nat
    requires w > 0
  {
    (l + w - 1) / w
  }

  lemma StartsNext(x: nat, hi: nat, w: nat)
    requires w > 0 && x <= hi
    ensures Starts(x, hi, w) == 1 + Starts(x + w, hi, w)
  {
    if x + w <= hi {
      DivPlusMultiple(hi - x - w, 1, w);
    }
  }

  lemma StartsMonotone(x: nat, y: nat, hi: nat, w: nat)
    requires w > 0 && x <= y
    ensures Starts(y, hi, w) <= Starts(x, hi, w)
  {
    if y <= hi { DivMonotone(hi - y, hi - x, w); }
  }

  // An upper bound on what can still be admitted for key from time now to hi.
  function Budget(redis: Redis, key: string, now: nat, hi: nat, capacity: nat, w: nat): int
    requires w > 0
  {
    if !Live(redis, key, now) then capacity * Starts(now, hi, w)
    else
      (if redis[key].count < capacity then capacity - redis[key].count else 0)
      + capacity * Starts(if redis[key].expires.Some? then redis[key].expires.value else now + w, hi, w)
  }

  lemma BudgetIsNonnegative(redis: Redis, key: string, now: nat, hi: nat, capacity: nat, w: nat)
    requires w > 0
    ensures Budget(redis, key, now, hi, capacity, w) >= 0
  {
    MulMonotone(capacity, 0, Starts(now, hi, w));
    if Live(redis, key, now) {
      MulMonotone(capacity, 0, Starts(if redis[key].expires.Some? then redis[key].expires.value else now + w, hi, w));
    }
  }

  lemma BudgetWaits(redis: Redis, key: string, now: nat, later: nat, hi: nat, capacity: nat, w: nat)
    requires w > 0 && now <= later
    ensures Budget(redis, key, later, hi, capacity, w) <= Budget(redis, key, now, hi, capacity, w)
  {
    if !Live(redis, key, now) {
      StartsMonotone(now, later, hi, w);
      MulMonotone(capacity, Starts(later, hi, w), Starts(now, hi, w));
    } else if !Live(redis, key, later) {
      var e := redis[key].expires.value;
      StartsMonotone(e, later, hi, w);
      MulMonotone(capacity, Starts(later, hi, w), Starts(e, hi, w));
    } else if redis[key].expires.None? {
      StartsMonotone(now + w, later + w, hi, w);
      MulMonotone(capacity, Starts(later + w, hi, w), Starts(now + w, hi, w));
    }
  }

  lemma BudgetPays(redis: Redis, key: string, now: nat, hi: nat, capacity: nat, w: nat)
    requires w > 0 && capacity > 0 && now <= hi
    ensures var b := Bumped(redis, key, now, w);
            Budget(redis[key := b], key, now, hi, capacity, w) + (if b.count <= capacity then 1 else 0)
            <= Budget(redis, key, now, hi, capacity, w)
  {
    if !Live(redis, key, now) {
      StartsNext(now, hi, w);
      var k := Starts(now + w, hi, w);
      assert capacity * (1 + k) == capacity + capacity * k;
    }
  }

  lemma {:induction false} NoneAdmittedAfter(redis: Redis, rs: seq<Request>, key: string, lo: nat, hi: nat,
                                             capacity: int, window: int)
    requires forall i :: 0 <= i < |rs| ==> rs[i].time > hi
    ensures Admitted(redis, rs, key, lo, hi, capacity, window) == 0
    decreases |rs|
  {
    if rs == [] {
    } else {
      assert rs[0].time > hi;
      NoneAdmittedAfter(After(redis, rs[0].key, rs[0].time, capacity, window), rs[1..], key, lo, hi, capacity, window);
    }
  }

  lemma {:induction false} AdmittedWithinBudget(redis: Redis, rs: seq<Request>, key: string, now: nat, lo: nat, hi: nat,
                                               capacity: nat, window: nat)
    requires InOrder(rs) && (rs != [] ==> now <= rs[0].time)
    requires capacity > 0 && window > 0 && key != ""
    ensures Admitted(redis, rs, key, lo, hi, capacity, window)
            <= Budget(redis, key, now, hi, capacity, WindowMillis(window))
    decreases |rs|
  {
    var w := WindowMillis(window);
    if rs == [] {
      MulMonotone(capacity, 0, Starts(now, hi, w));
      BudgetIsNonnegative(redis, key, now, hi, capacity, w);
    } else if rs[0].time > hi {
      NoneAdmittedAfter(redis, rs, key, lo, hi, capacity, window);
      BudgetIsNonnegative(redis, key, now, hi, capacity, w);
    } else {
      var r := rs[0];
      var next := After(redis, r.key, r.time, capacity, window);
      AdmittedWithinBudget(next, rs[1..], key, r.time, lo, hi, capacity, window);
      BudgetWaits(redis, key, now, r.time, hi, capacity, w);
      if r.key == key {
        BudgetPays(redis, key, r.time, hi, capacity, w);
      }
    }
  }

  lemma BudgetBound(redis: Redis, key: string, lo: nat, hi: nat, capacity: nat, w: nat)
    requires w > 0 && lo <= hi
    ensures Budget(redis, key, lo, hi, capacity, w) <= capacity * (CeilDiv(hi - lo, w) + 1)
  {
    var k := CeilDiv(hi - lo, w);
    if !Live(redis, key, lo) {
      DivMonotone(hi - lo, hi - lo + w - 1, w);
      MulMonotone(capacity, Starts(lo, hi, w), k + 1);
    } else {
      var e := if redis[key].expires.Some? then redis[key].expires.value else lo + w;
      StartsMonotone(lo + 1, e, hi, w);
      if lo < hi {
        DivPlusMultiple(hi - lo - 1, 1, w);
      }
      assert Starts(lo + 1, hi, w) <= k;
      MulMonotone(capacity, Starts(e, hi, w), k);
      assert capacity * (k + 1) == capacity * k + capacity;
    }
  }

  // Over any interval of length L, at most capacity * (ceil(L / window) + 1) requests for a key pass,
  // whatever the traffic for it and for other keys, and whatever Redis held at the start.
  lemma {:induction false} AdmittedInInterval(redis: Redis, rs: seq<Request>, key: string, lo: nat, hi: nat,
                                              capacity: nat, window: nat)
    requires InOrder(rs) && lo <= hi && capacity > 0 && window > 0 && key != ""
    ensures Admitted(redis, rs, key, lo, hi, capacity, window)
            <= capacity * (CeilDiv(hi - lo, WindowMillis(window)) + 1)
    decreases |rs|
  {
    if rs != [] && rs[0].time < lo {
      AdmittedInInterval(After(redis, rs[0].key, rs[0].time, capacity, window), rs[1..], key, lo, hi, capacity, window);
    } else {
      AdmittedWithinBudget(redis, rs, key, lo, lo, hi, capacity, window);
      BudgetBound(redis, key, lo, hi, capacity, WindowMillis(window));
    }
  }

  function Hits(rs: seq<Request>, key: string): nat {
    if rs == [] then 0 else (if rs[0].key == key then 1 else 0) + Hits(rs[1..], key)
  }

  // Within one lifetime of a counter, exactly the first requests up to capacity pass.
  lemma {:induction false} AdmittedInLifetime(redis: Redis, rs: seq<Request>, key: string, end: nat,
                                              capacity: nat, window: nat)
    requires capacity > 0 && window > 0 && key != ""
    requires key in redis && redis[key].expires == Some(end)
    requires forall i :: 0 <= i < |rs| ==> rs[i].time < end
    ensures Admitted(redis, rs, key, 0, end, capacity, window)
            == if redis[key].count < capacity then Least(Hits(rs, key), capacity - redis[key].count) else 0
    decreases |rs|
  {
    if rs == [] {
    } else {
      assert rs[0].time < end;
      AdmittedInLifetime(After(redis, rs[0].key, rs[0].time, capacity, window), rs[1..], key, end, capacity, window);
    }
  }
}

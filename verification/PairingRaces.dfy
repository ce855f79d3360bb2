/** How many token pairs a pairing code can hand out when handlers interleave. */
module PairingRaces {
  import opened DevicePairing
  import opened Options

  // ---- counting along a schedule ----

  // The step is a poll that hands out tokens of the code.
  predicate DeliversFor(s: System, a: Action, code: string) {
    HandsOut(s, a).Some? && NextCommand(s, a.thread).code == code
  }

  // The step starts an approval of the code that passes its check.
  predicate Passes(s: System, a: Action, code: string) {
    a.Begin? && a.request.Approve? && a.request.code == code && Plan(s.redis, a.request, a.time) != []
  }

  function Deliveries(s: System, actions: seq<Action>, code: string): nat
    decreases |actions|
  {
    if actions == [] then 0
    else
      var init, last := actions[..|actions|-1], actions[|actions|-1];
      Deliveries(s, init, code) + if DeliversFor(SystemAfter(s, init), last, code) then 1 else 0
  }

  function Passed(s: System, actions: seq<Action>, code: string): nat
    decreases |actions|
  {
    if actions == [] then 0
    else
      var init, last := actions[..|actions|-1], actions[|actions|-1];
      Passed(s, init, code) + if Passes(SystemAfter(s, init), last, code) then 1 else 0
  }

  // ---- what a state can still hand out ----

  predicate WritesApproval(cmd: Command) {
    cmd.HSet? && ("tokens" in cmd.values || ("state" in cmd.values && cmd.values["state"] == "approved"))
  }

  // It stores tokens and marks the code approved, and that is all it does.
  predicate IsApproval(cmd: Command) {
    && cmd.HSet? && "tokens" in cmd.values
    && cmd.values == map["state" := "approved", "tokens" := cmd.values["tokens"]]
  }

  // Only the first command of an approval marks the code approved, together with its tokens.
  ghost predicate WellFormed(s: System) {
    forall t, k :: 0 <= t < |s.threads| && 0 <= k < |s.threads[t].plan| && WritesApproval(s.threads[t].plan[k]) ==>
      k == 0 && IsApproval(s.threads[t].plan[k])
  }

  // The thread passed the check of an approval and has not written yet.
  predicate Owes(t: Thread, code: string) {
    t.pc == 0 && t.plan != [] && WritesApproval(t.plan[0]) && t.plan[0].code == code
  }

  function Owing(threads: seq<Thread>, code: string): nat {
    if threads == [] then 0
    else Owing(threads[..|threads|-1], code) + if Owes(threads[|threads|-1], code) then 1 else 0
  }

  predicate Waiting(redis: Redis, code: string) {
    code in redis && "tokens" in redis[code].fields && Field(redis[code].fields, "state") == "approved"
  }

  function Outstanding(s: System, code: string): nat {
    Owing(s.threads, code) + if Waiting(s.redis, code) then 1 else 0
  }

  lemma {:induction false} OwingAfter(threads: seq<Thread>, t: nat, now: Thread, code: string)
    requires t < |threads|
    ensures Owing(threads[t := now], code) + (if Owes(threads[t], code) then 1 else 0)
         == Owing(threads, code) + if Owes(now, code) then 1 else 0
    decreases |threads|
  {
    var init := threads[..|threads|-1];
    if t < |threads| - 1 {
      OwingAfter(init, t, now, code);
      assert threads[t := now][..|threads|-1] == init[t := now];
    } else {
      assert threads[t := now][..|threads|-1] == init;
    }
  }

  lemma OwingMore(threads: seq<Thread>, now: Thread, code: string)
    ensures Owing(threads + [now], code) == Owing(threads, code) + if Owes(now, code) then 1 else 0
  {
    assert (threads + [now])[..|threads|] == threads;
  }

  lemma {:induction false} SomeoneOwes(threads: seq<Thread>, code: string)
    ensures Owing(threads, code) > 0 ==> exists t :: 0 <= t < |threads| && Owes(threads[t], code)
    decreases |threads|
  {
    if threads != [] { SomeoneOwes(threads[..|threads|-1], code); }
  }

  // ---- the upper bound ----

  lemma PlanIsWellFormed(redis: Redis, r: Request, now: nat, k: nat)
    requires k < |Plan(redis, r, now)| && WritesApproval(Plan(redis, r, now)[k])
    ensures k == 0 && r.Approve? && IsApproval(Plan(redis, r, now)[k]) && Plan(redis, r, now)[k].code == r.code
  {
  }

  lemma ActKeepsWellFormed(s: System, a: Action)
    requires WellFormed(s)
    ensures WellFormed(Act(s, a))
  {
    var s' := Act(s, a);
    forall t, k | 0 <= t < |s'.threads| && 0 <= k < |s'.threads[t].plan| && WritesApproval(s'.threads[t].plan[k])
      ensures k == 0 && IsApproval(s'.threads[t].plan[k])
    {
      if t < |s.threads| {
        assert s'.threads[t].plan == s.threads[t].plan;
      } else {
        PlanIsWellFormed(s.redis, a.request, a.time, k);
      }
    }
  }

  // A command makes tokens available only by an approval, and a poll that hands them out removes them.
  lemma RunWaiting(redis: Redis, cmd: Command, now: nat, code: string)
    ensures Waiting(Run(redis, cmd, now), code) ==> Waiting(redis, code) || (WritesApproval(cmd) && cmd.code == code)
    ensures Delivered(redis, cmd, now).Some? && cmd.code == code ==>
            Waiting(redis, code) && !Waiting(Run(redis, cmd, now), code)
  {
  }

  function One(b: bool): nat {
    if b then 1 else 0
  }

  lemma ResumeSpends(s: System, t: nat, now: nat, code: string)
    requires WellFormed(s) && CanResume(s, t)
    ensures Outstanding(Act(s, Resume(t, now)), code) + One(DeliversFor(s, Resume(t, now), code))
         <= Outstanding(s, code)
  {
    var th := s.threads[t];
    OwingAfter(s.threads, t, th.(pc := th.pc + 1), code);
    RunWaiting(s.redis, NextCommand(s, t), now, code);
    assert WritesApproval(th.plan[th.pc]) ==> th.pc == 0;
  }

  lemma BeginOwes(s: System, r: Request, now: nat, code: string)
    ensures Outstanding(Act(s, Begin(r, now)), code) <= Outstanding(s, code) + One(Passes(s, Begin(r, now), code))
  {
    var plan := Plan(s.redis, r, now);
    OwingMore(s.threads, Thread(plan, 0), code);
    if Owes(Thread(plan, 0), code) { PlanIsWellFormed(s.redis, r, now, 0); }
  }

  lemma ActSpends(s: System, a: Action, code: string)
    requires WellFormed(s)
    ensures WellFormed(Act(s, a))
    ensures Outstanding(Act(s, a), code) + One(DeliversFor(s, a, code))
         <= Outstanding(s, code) + One(Passes(s, a, code))
  {
    ActKeepsWellFormed(s, a);
    if a.Begin? {
      BeginOwes(s, a.request, a.time, code);
    } else if CanResume(s, a.thread) {
      ResumeSpends(s, a.thread, a.time, code);
    }
  }

  // Whatever the schedule, a code hands out no more pairs than it had left and approvals that passed.
  lemma {:induction false} DeliveriesAreBounded(s: System, actions: seq<Action>, code: string)
    requires WellFormed(s)
    ensures WellFormed(SystemAfter(s, actions))
    ensures Deliveries(s, actions, code) + Outstanding(SystemAfter(s, actions), code)
         <= Outstanding(s, code) + Passed(s, actions, code)
    decreases |actions|
  {
    if actions != [] {
      var init, last := actions[..|actions|-1], actions[|actions|-1];
      DeliveriesAreBounded(s, init, code);
      ActSpends(SystemAfter(s, init), last, code);
    }
  }

  // From the start: at most one pair for each approval that passed its check.
  lemma DeliveredNoMoreThanApproved(actions: seq<Action>, code: string)
    ensures Deliveries(IDLE, actions, code) <= Passed(IDLE, actions, code)
    ensures Passed(IDLE, actions, code) <= 1 ==> Deliveries(IDLE, actions, code) <= 1
  {
    DeliveriesAreBounded(IDLE, actions, code);
  }

  // A code that nobody approves hands out nothing, whatever happens to other codes.
  lemma {:induction false} UnapprovedDeliversNothing(actions: seq<Action>, code: string)
    requires forall a | a in actions && a.Begin? && a.request.Approve? :: a.request.code != code
    ensures Deliveries(IDLE, actions, code) == 0
  {
    NonePasses(IDLE, actions, code);
    DeliveredNoMoreThanApproved(actions, code);
  }

  lemma {:induction false} NonePasses(s: System, actions: seq<Action>, code: string)
    requires forall a | a in actions && a.Begin? && a.request.Approve? :: a.request.code != code
    ensures Passed(s, actions, code) == 0
    decreases |actions|
  {
    if actions != [] {
      var init, last := actions[..|actions|-1], actions[|actions|-1];
      assert forall a :: a in init ==> a in actions;
      NonePasses(s, init, code);
      assert last in actions;
    }
  }

  // ---- and that much can be reached ----

  lemma {:induction false} Extended(s: System, actions: seq<Action>, more: seq<Action>, code: string)
    ensures SystemAfter(s, actions + more) == SystemAfter(SystemAfter(s, actions), more)
    ensures Deliveries(s, actions + more, code)
            == Deliveries(s, actions, code) + Deliveries(SystemAfter(s, actions), more, code)
    ensures Passed(s, actions + more, code) == Passed(s, actions, code) + Passed(SystemAfter(s, actions), more, code)
    decreases |more|
  {
    if more == [] {
      assert actions + more == actions;
    } else {
      var init, last := more[..|more|-1], more[|more|-1];
      Extended(s, actions, init, code);
      assert (actions + more)[..|actions + more| - 1] == actions + init;
    }
  }

  // A live code whose verifier is known to the poller.
  predicate Open(s: System, code: string, now: nat) {
    Live(s.redis, code, now) && "verifier_hash" in s.redis[code].fields
  }

  lemma StepOne(s: System, a: Action, code: string)
    ensures SystemAfter(s, [a]) == Act(s, a)
    ensures Deliveries(s, [a], code) == One(DeliversFor(s, a, code)) && Passed(s, [a], code) == One(Passes(s, a, code))
  {
    assert [a][..0] == [];
  }

  lemma StepMore(s: System, actions: seq<Action>, a: Action, code: string)
    ensures var s' := SystemAfter(s, actions);
            && SystemAfter(s, actions + [a]) == Act(s', a)
            && Deliveries(s, actions + [a], code) == Deliveries(s, actions, code) + One(DeliversFor(s', a, code))
            && Passed(s, actions + [a], code) == Passed(s, actions, code) + One(Passes(s', a, code))
  {
    Extended(s, actions, [a], code);
    StepOne(SystemAfter(s, actions), a, code);
  }

  // A poll collects what waits and leaves the code open.
  lemma Collect(s: System, code: string, now: nat) returns (actions: seq<Action>)
    requires Open(s, code, now) && Waiting(s.redis, code)
    ensures Deliveries(s, actions, code) == 1 && Passed(s, actions, code) == 0
    ensures var s' := SystemAfter(s, actions);
            Open(s', code, now) && !Waiting(s'.redis, code) && Owing(s'.threads, code) == Owing(s.threads, code)
  {
    var vh, t := s.redis[code].fields["verifier_hash"], |s.threads|;
    var begin, resume := Begin(Poll(code, vh), now), Resume(t, now);
    StepOne(s, begin, code);
    StepMore(s, [begin], resume, code);
    var mid := Act(s, begin);
    assert mid.threads[t].plan == [PollScript(code, vh)];
    OwingMore(s.threads, Thread([PollScript(code, vh)], 0), code);
    OwingAfter(mid.threads, t, Thread([PollScript(code, vh)], 1), code);
    actions := [begin] + [resume];
  }

  // A pending approval overwrites whatever state the code is in by now.
  lemma Write(s: System, code: string, now: nat) returns (actions: seq<Action>)
    requires WellFormed(s) && Open(s, code, now) && Owing(s.threads, code) > 0
    ensures Deliveries(s, actions, code) == 0 && Passed(s, actions, code) == 0
    ensures var s' := SystemAfter(s, actions);
            Open(s', code, now) && Waiting(s'.redis, code) && Owing(s'.threads, code) == Owing(s.threads, code) - 1
  {
    SomeoneOwes(s.threads, code);
    var t :| 0 <= t < |s.threads| && Owes(s.threads[t], code);
    StepOne(s, Resume(t, now), code);
    OwingAfter(s.threads, t, s.threads[t].(pc := 1), code);
    assert IsApproval(s.threads[t].plan[0]);
    actions := [Resume(t, now)];
  }

  lemma {:induction false} CollectAll(s: System, code: string, now: nat) returns (actions: seq<Action>)
    requires WellFormed(s) && Open(s, code, now)
    ensures Deliveries(s, actions, code) == Outstanding(s, code) && Passed(s, actions, code) == 0
    decreases Outstanding(s, code)
  {
    if Outstanding(s, code) == 0 {
      actions := [];
    } else {
      var first := [];
      if !Waiting(s.redis, code) { first := Write(s, code, now); }
      var s1 := SystemAfter(s, first);
      DeliveriesAreBounded(s, first, code);
      var then' := Collect(s1, code, now);
      DeliveriesAreBounded(s1, then', code);
      var rest := CollectAll(SystemAfter(s1, then'), code, now);
      Extended(s, first, then', code);
      Extended(s, first + then', rest, code);
      actions := first + then' + rest;
    }
  }

  // The schedule delivers n pairs of the code, without another approval passing its check.
  ghost predicate Yields(s: System, actions: seq<Action>, code: string, n: nat) {
    Deliveries(s, actions, code) >= n && Passed(s, actions, code) == 0
  }

  // Exactly: without further approvals, some schedule hands out n pairs of an open code if and only if
  // that many have been stored or passed their check.
  lemma OutstandingIsExact(s: System, code: string, now: nat, n: nat)
    requires WellFormed(s) && Open(s, code, now)
    ensures (exists actions :: Yields(s, actions, code, n)) <==> n <= Outstanding(s, code)
  {
    if n <= Outstanding(s, code) {
      var actions := CollectAll(s, code, now);
      assert Yields(s, actions, code, n);
    }
    if actions :| Yields(s, actions, code, n) {
      DeliveriesAreBounded(s, actions, code);
    }
  }

  // No schedule without a further approval delivers two pairs.
  ghost predicate NeverTwice(s: System, code: string) {
    !exists actions :: Yields(s, actions, code, 2)
  }

  // From here on an open code delivers at most one pair exactly when at most one is outstanding.
  lemma AtMostOneExactly(s: System, code: string, now: nat)
    requires WellFormed(s) && Open(s, code, now)
    ensures NeverTwice(s, code) <==> Outstanding(s, code) <= 1
  {
    OutstandingIsExact(s, code, now, 2);
  }

  // ---- schedules from the start that deliver when they should not ----

  // The thread has done its work.
  function Finished(t: Thread): Thread {
    Thread(t.plan, |t.plan|)
  }

  // Lets one handler run to its end, which is what the atomic model does in one step.
  lemma {:induction false} Finish(s: System, t: nat, now: nat, code: string) returns (actions: seq<Action>)
    requires t < |s.threads| && s.threads[t].pc <= |s.threads[t].plan|
    requires forall k :: s.threads[t].pc <= k < |s.threads[t].plan| ==> !s.threads[t].plan[k].PollScript?
    ensures var th, s' := s.threads[t], SystemAfter(s, actions);
            && s'.redis == RunAll(s.redis, th.plan[th.pc..], now)
            && s'.threads == s.threads[t := Finished(th)]
    ensures Deliveries(s, actions, code) == 0 && Passed(s, actions, code) == 0
    decreases |s.threads[t].plan| - s.threads[t].pc
  {
    var th := s.threads[t];
    if th.pc == |th.plan| {
      actions := [];
      assert s.threads[t := Finished(th)] == s.threads;
    } else {
      var first := Resume(t, now);
      var s1 := Act(s, first);
      StepOne(s, first, code);
      var rest := Finish(s1, t, now, code);
      assert s1.threads[t := Finished(th)] == s.threads[t := Finished(th)];
      assert th.plan[th.pc..][1..] == th.plan[th.pc + 1..];
      Extended(s, [first], rest, code);
      actions := [first] + rest;
    }
  }

  // An undisturbed handler does under the scheduler what it does in the atomic model.
  lemma Uninterrupted(s: System, r: Request, now: nat, code: string) returns (actions: seq<Action>)
    requires !r.Poll?
    ensures var plan, s' := Plan(s.redis, r, now), SystemAfter(s, actions);
            s'.redis == Handle(s.redis, r, now) && s'.threads == s.threads + [Finished(Thread(plan, 0))]
    ensures Deliveries(s, actions, code) == 0 && Passed(s, actions, code) == One(Passes(s, Begin(r, now), code))
  {
    var begin, t := Begin(r, now), |s.threads|;
    StepOne(s, begin, code);
    var s1 := Act(s, begin);
    var plan := s1.threads[t].plan;
    assert plan[0..] == plan;
    var rest := Finish(s1, t, now, code);
    assert s1.threads[t := Finished(s1.threads[t])] == s.threads + [Finished(Thread(plan, 0))];
    Extended(s, [begin], rest, code);
    actions := [begin] + rest;
  }

  // A live code of this user and verifier, in this state.
  predicate Holds(redis: Redis, code: string, user: string, vh: string, state: string, now: nat) {
    && Live(redis, code, now) && "verifier_hash" in redis[code].fields
    && redis[code].fields["verifier_hash"] == vh && Field(redis[code].fields, "user_id") == user
    && Field(redis[code].fields, "state") == state
  }

  lemma HandlersMoveOn(redis: Redis, code: string, user: string, vh: string, now: nat, device: string, blob: string)
    requires Live(redis, code, now)
    ensures Holds(redis, code, user, vh, "pending", now) ==>
              Holds(Handle(redis, Claim(code, vh, device), now), code, user, vh, "awaiting_approval", now)
    ensures Holds(redis, code, user, vh, "awaiting_approval", now) ==>
              && Holds(Handle(redis, Approve(code, user, blob), now), code, user, vh, "approved", now)
              && Waiting(Handle(redis, Approve(code, user, blob), now), code)
    ensures user != "" && Holds(redis, code, user, vh, Field(redis[code].fields, "state"), now) ==>
              Holds(Handle(redis, Deny(code, user), now), code, user, vh, "denied", now)
  {
    HandleOutcome(redis, Claim(code, vh, device), now);
    HandleOutcome(redis, Approve(code, user, blob), now);
    HandleOutcome(redis, Deny(code, user), now);
  }

  lemma Created(code: string, user: string, role: string, vh: string, now: nat) returns (actions: seq<Action>)
    ensures Holds(SystemAfter(IDLE, actions).redis, code, user, vh, "pending", now)
    ensures |SystemAfter(IDLE, actions).threads| == 1 && WellFormed(SystemAfter(IDLE, actions))
    ensures Owing(SystemAfter(IDLE, actions).threads, code) == 0
    ensures Deliveries(IDLE, actions, code) == 0 && Passed(IDLE, actions, code) == 0
  {
    actions := Uninterrupted(IDLE, Create(code, user, role, vh), now, code);
    HandleOutcome(IDLE.redis, Create(code, user, role, vh), now);
    DeliveriesAreBounded(IDLE, actions, code);
  }

  // A claim that read a pending code makes it wait for approval when it writes, whatever happened since.
  lemma LateClaim(s: System, t: nat, code: string, user: string, vh: string, state: string, device: string, now: nat)
    returns (actions: seq<Action>)
    requires Holds(s.redis, code, user, vh, state, now)
    requires t < |s.threads| && s.threads[t] == Thread(ClaimPlan(code, device), 0)
    ensures Holds(SystemAfter(s, actions).redis, code, user, vh, "awaiting_approval", now)
    ensures SystemAfter(s, actions).threads == s.threads[t := Finished(s.threads[t])]
    ensures Deliveries(s, actions, code) == 0 && Passed(s, actions, code) == 0
  {
    var plan := s.threads[t].plan;
    actions := Finish(s, t, now, code);
    assert plan[0..] == plan;
    RunTwo(s.redis, plan[0], plan[1], now);
  }

  function ClaimPlan(code: string, device: string): seq<Command> {
    [HSet(code, map["state" := "awaiting_approval", "device_name" := device]), PExpire(code, APPROVAL_TTL)]
  }

  lemma Polled(s: System, code: string, user: string, vh: string, now: nat) returns (actions: seq<Action>)
    requires Holds(s.redis, code, user, vh, "approved", now) && Waiting(s.redis, code)
    ensures var s' := SystemAfter(s, actions);
            && Holds(s'.redis, code, user, vh, "consumed", now)
            && s'.threads == s.threads + [Finished(Thread([PollScript(code, vh)], 0))]
    ensures Deliveries(s, actions, code) == 1 && Passed(s, actions, code) == 0
  {
    var begin, resume := Begin(Poll(code, vh), now), Resume(|s.threads|, now);
    StepOne(s, begin, code);
    StepMore(s, [begin], resume, code);
    var mid := Act(s, begin);
    assert mid.threads[|s.threads|].plan == [PollScript(code, vh)];
    actions := [begin] + [resume];
  }

  // An undisturbed approval, then a poll: one pair goes out.
  lemma ApproveAndCollect(s: System, code: string, user: string, vh: string, blob: string, now: nat)
    returns (actions: seq<Action>)
    requires WellFormed(s) && Holds(s.redis, code, user, vh, "awaiting_approval", now)
    ensures var s' := SystemAfter(s, actions);
            && WellFormed(s') && Holds(s'.redis, code, user, vh, "consumed", now)
            && |s'.threads| == |s.threads| + 2 && s'.threads[..|s.threads|] == s.threads
    ensures Deliveries(s, actions, code) == 1 && Passed(s, actions, code) == 1
  {
    var first := Uninterrupted(s, Approve(code, user, blob), now, code);
    HandlersMoveOn(s.redis, code, user, vh, now, "", blob);
    var s1 := SystemAfter(s, first);
    var second := Polled(s1, code, user, vh, now);
    Extended(s, first, second, code);
    actions := first + second;
    DeliveriesAreBounded(s, actions, code);
  }

  // A code created and claimed, with nothing under way.
  lemma Claimed(code: string, user: string, role: string, vh: string, device: string, now: nat)
    returns (actions: seq<Action>)
    ensures var s := SystemAfter(IDLE, actions);
            && WellFormed(s) && Holds(s.redis, code, user, vh, "awaiting_approval", now)
            && |s.threads| == 2 && Owing(s.threads, code) == 0
    ensures Deliveries(IDLE, actions, code) == 0 && Passed(IDLE, actions, code) == 0
  {
    var create := Created(code, user, role, vh, now);
    var s1 := SystemAfter(IDLE, create);
    var claim := Uninterrupted(s1, Claim(code, vh, device), now, code);
    HandlersMoveOn(s1.redis, code, user, vh, now, device, "");
    Extended(IDLE, create, claim, code);
    actions := create + claim;
    DeliveriesAreBounded(IDLE, actions, code);
  }

  // An approval that reads a code waiting for it adds one outstanding pair.
  lemma ApprovalReads(s: System, code: string, user: string, vh: string, blob: string, now: nat)
    requires Holds(s.redis, code, user, vh, "awaiting_approval", now)
    ensures var s' := Act(s, Begin(Approve(code, user, blob), now));
            s'.redis == s.redis && Owing(s'.threads, code) == Owing(s.threads, code) + 1
    ensures Passes(s, Begin(Approve(code, user, blob), now), code)
  {
    var plan := Plan(s.redis, Approve(code, user, blob), now);
    assert plan == [HSet(code, map["state" := "approved", "tokens" := blob]), PExpire(code, APPROVAL_TTL)];
    OwingMore(s.threads, Thread(plan, 0), code);
  }

  // Two approvals that both pass while the code waits: two pairs are outstanding.
  lemma OverlappingApprovals(code: string, user: string, role: string, vh: string, device: string, b1: string,
                             b2: string, now: nat)
    returns (actions: seq<Action>)
    ensures var s := SystemAfter(IDLE, actions);
            WellFormed(s) && Open(s, code, now) && Outstanding(s, code) == 2
    ensures Deliveries(IDLE, actions, code) == 0 && Passed(IDLE, actions, code) == 2
  {
    var claimed := Claimed(code, user, role, vh, device, now);
    var s := SystemAfter(IDLE, claimed);
    var a1, a2 := Begin(Approve(code, user, b1), now), Begin(Approve(code, user, b2), now);
    ApprovalReads(s, code, user, vh, b1, now);
    ApprovalReads(Act(s, a1), code, user, vh, b2, now);
    StepMore(IDLE, claimed, a1, code);
    StepMore(IDLE, claimed + [a1], a2, code);
    actions := claimed + [a1] + [a2];
    DeliveriesAreBounded(IDLE, actions, code);
  }

  // Two claims that both read before either writes: the second reopens a code already delivered, and
  // two approvals that do not overlap each deliver a pair.
  lemma OverlappingClaims(code: string, user: string, role: string, vh: string, d1: string, d2: string, b1: string,
                          b2: string, now: nat)
    returns (actions: seq<Action>)
    ensures Deliveries(IDLE, actions, code) == 2 && Passed(IDLE, actions, code) == 2
  {
    var create := Created(code, user, role, vh, now);
    var c1, c2 := Begin(Claim(code, vh, d1), now), Begin(Claim(code, vh, d2), now);
    StepMore(IDLE, create, c1, code);
    StepMore(IDLE, create + [c1], c2, code);
    var read := create + [c1] + [c2];
    DeliveriesAreBounded(IDLE, read, code);
    var s1 := SystemAfter(IDLE, read);
    var twice := ClaimsDeliverTwice(s1, code, user, vh, d1, d2, b1, b2, now);
    Extended(IDLE, read, twice, code);
    actions := read + twice;
  }

  lemma ClaimsDeliverTwice(s: System, code: string, user: string, vh: string, d1: string, d2: string, b1: string,
                           b2: string, now: nat)
    returns (actions: seq<Action>)
    requires WellFormed(s) && Holds(s.redis, code, user, vh, "pending", now)
    requires |s.threads| == 3 && s.threads[1] == Thread(ClaimPlan(code, d1), 0)
             && s.threads[2] == Thread(ClaimPlan(code, d2), 0)
    ensures Deliveries(s, actions, code) == 2 && Passed(s, actions, code) == 2
  {
    var claim1 := LateClaim(s, 1, code, user, vh, "pending", d1, now);
    DeliveriesAreBounded(s, claim1, code);
    var s1 := SystemAfter(s, claim1);
    var pair1 := ApproveAndCollect(s1, code, user, vh, b1, now);
    var s2 := SystemAfter(s1, pair1);
    assert s2.threads[2] == s2.threads[..3][2];
    var claim2 := LateClaim(s2, 2, code, user, vh, "consumed", d2, now);
    DeliveriesAreBounded(s2, claim2, code);
    var s3 := SystemAfter(s2, claim2);
    var pair2 := ApproveAndCollect(s3, code, user, vh, b2, now);
    Extended(s2, claim2, pair2, code);
    Extended(s1, pair1, claim2 + pair2, code);
    Extended(s, claim1, pair1 + (claim2 + pair2), code);
    actions := claim1 + (pair1 + (claim2 + pair2));
  }

  // A denied code delivers, without another approval, exactly when an approval passed its check and has
  // not written yet.
  lemma DeniedDeliversExactly(s: System, code: string, now: nat)
    requires WellFormed(s) && Open(s, code, now) && Field(s.redis[code].fields, "state") == "denied"
    ensures (exists actions :: Yields(s, actions, code, 1)) <==>
            (exists t :: 0 <= t < |s.threads| && Owes(s.threads[t], code))
  {
    OutstandingIsExact(s, code, now, 1);
    SomeoneOwes(s.threads, code);
    if Owing(s.threads, code) == 0 { OwingNobody(s.threads, code); }
  }

  lemma {:induction false} OwingNobody(threads: seq<Thread>, code: string)
    requires Owing(threads, code) == 0
    ensures forall t :: 0 <= t < |threads| ==> !Owes(threads[t], code)
    decreases |threads|
  {
    if threads != [] {
      var init := threads[..|threads|-1];
      OwingNobody(init, code);
      assert forall t :: 0 <= t < |init| ==> threads[t] == init[t];
    }
  }

  // Such a state is reached: the approval reads, the denial runs to its end, the approval writes.
  lemma DeniedCodeDelivers(code: string, user: string, role: string, vh: string, device: string, blob: string, now: nat)
    returns (actions: seq<Action>)
    requires user != ""
    ensures var s := SystemAfter(IDLE, actions);
            && WellFormed(s) && Holds(s.redis, code, user, vh, "denied", now)
            && exists t :: 0 <= t < |s.threads| && Owes(s.threads[t], code)
  {
    var claimed := Claimed(code, user, role, vh, device, now);
    var s := SystemAfter(IDLE, claimed);
    var approve := Begin(Approve(code, user, blob), now);
    ApprovalReads(s, code, user, vh, blob, now);
    StepMore(IDLE, claimed, approve, code);
    var s1 := Act(s, approve);
    SomeoneOwes(s1.threads, code);
    var t :| 0 <= t < |s1.threads| && Owes(s1.threads[t], code);
    var deny := Uninterrupted(s1, Deny(code, user), now, code);
    HandlersMoveOn(s1.redis, code, user, vh, now, "", "");
    Extended(IDLE, claimed + [approve], deny, code);
    actions := claimed + [approve] + deny;
    DeliveriesAreBounded(IDLE, actions, code);
    assert Owes(SystemAfter(IDLE, actions).threads[t], code);
  }
}

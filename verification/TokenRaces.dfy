/** Refreshes that overlap: how often a token is rotated, and what outlives a revoked family. */
module TokenRaces {
  import opened Options
  import opened SessionTokens

  // A refresh under way: past the replay check, past Parse as well, or over.
  datatype Stage = Checking | Passed | Over

  datatype Worker = Worker(token: Token, role: string, active: bool, ids: Ids, stage: Stage)

  datatype System = System(s: State, workers: seq<Worker>, clock: nat)

  // The scheduler lets some time pass, then starts a refresh, lets one go on, or runs another handler.
  datatype Action =
    | Begin(token: Token, role: string, active: bool, ids: Ids, wait: nat)
    | Resume(worker: nat, wait: nat)
    | Do(event: Event, wait: nat)

  function Act(cfg: Config, y: System, a: Action): System {
    var now := y.clock + a.wait;
    match a
    case Begin(t, role, active, ids, _) =>
      if Replayed(y.s, t, now)
      then System(AfterRevokeFamily(y.s, cfg, t.claims.value.family, now), y.workers, now)
      else System(y.s, y.workers + [Worker(t, role, active, ids, Checking)], now)
    case Resume(w, _) =>
      if w >= |y.workers| then y.(clock := now)
      else
        var k := y.workers[w];
        (match k.stage
         case Over => y.(clock := now)
         case Checking =>
           y.(workers := y.workers[w := k.(stage := if Admits(y.s, k, now) then Passed else Over)], clock := now)
         case Passed => System(Rotated(cfg, y.s, k, now), y.workers[w := k.(stage := Over)], now))
    case Do(e, _) =>
      System(Done(cfg, y.s, e, now), y.workers, now)
  }

  // Any other handler: refreshes go through Begin and Resume.
  function Done(cfg: Config, s: State, e: Event, now: nat): State {
    if e.Rotate? then s else Step(s, cfg, Timed(e, now))
  }

  // Parse, the kind of the token and the account's state.
  predicate Admits(s: State, k: Worker, now: nat) {
    Accepts(s, k.token, now) && k.token.claims.value.kind == Refresh && k.active
  }

  // The identifier is listed and a pair is signed.
  function Rotated(cfg: Config, s: State, k: Worker, now: nat): State {
    if k.token.claims.None? then s
    else
      var c := k.token.claims.value;
      var listed := if c.jti == "" then s else List(s, cfg, JtiKey(c.jti), now);
      listed.(signed := s.signed + PairOf(cfg, c.user, k.role, RotatedFamily(c, k.ids), k.ids, now))
  }

  // Without other handlers in between, the steps of a refresh are the one-step handler.
  lemma Undisturbed(cfg: Config, y: System, t: Token, role: string, active: bool, ids: Ids)
    requires !Replayed(y.s, t, y.clock)
    ensures var w := |y.workers|;
            var y' := Act(cfg, Act(cfg, Act(cfg, y, Begin(t, role, active, ids, 0)), Resume(w, 0)), Resume(w, 0));
            y'.s == AfterRefresh(y.s, cfg, t, role, active, ids, y.clock)
  {
  }

  function Later(cfg: Config, y: System, actions: seq<Action>): System
    decreases |actions|
  {
    if actions == [] then y else Act(cfg, Later(cfg, y, actions[..|actions|-1]), actions[|actions|-1])
  }

  // ---- rotations of one token ----

  predicate Owes(k: Worker, c: Claims) {
    k.stage.Passed? && k.token.claims == Some(c)
  }

  predicate RotatesNow(y: System, a: Action, c: Claims) {
    a.Resume? && a.worker < |y.workers| && Owes(y.workers[a.worker], c)
  }

  predicate PassesNow(y: System, a: Action, c: Claims) {
    && a.Resume? && a.worker < |y.workers| && y.workers[a.worker].stage.Checking?
    && y.workers[a.worker].token.claims == Some(c) && Admits(y.s, y.workers[a.worker], y.clock + a.wait)
  }

  function One(b: bool): nat {
    if b then 1 else 0
  }

  function Rotations(cfg: Config, y: System, actions: seq<Action>, c: Claims): nat
    decreases |actions|
  {
    if actions == [] then 0
    else
      var init, last := actions[..|actions|-1], actions[|actions|-1];
      Rotations(cfg, y, init, c) + One(RotatesNow(Later(cfg, y, init), last, c))
  }

  function Passes(cfg: Config, y: System, actions: seq<Action>, c: Claims): nat
    decreases |actions|
  {
    if actions == [] then 0
    else
      var init, last := actions[..|actions|-1], actions[|actions|-1];
      Passes(cfg, y, init, c) + One(PassesNow(Later(cfg, y, init), last, c))
  }

  function Owing(workers: seq<Worker>, c: Claims): nat {
    if workers == [] then 0
    else Owing(workers[..|workers|-1], c) + One(Owes(workers[|workers|-1], c))
  }

  lemma {:induction false} OwingAfter(workers: seq<Worker>, w: nat, k: Worker, c: Claims)
    requires w < |workers|
    ensures Owing(workers[w := k], c) + One(Owes(workers[w], c)) == Owing(workers, c) + One(Owes(k, c))
    decreases |workers|
  {
    var init := workers[..|workers|-1];
    if w < |workers| - 1 {
      OwingAfter(init, w, k, c);
      assert workers[w := k][..|workers|-1] == init[w := k];
    } else {
      assert workers[w := k][..|workers|-1] == init;
    }
  }

  lemma OwingMore(workers: seq<Worker>, k: Worker, c: Claims)
    ensures Owing(workers + [k], c) == Owing(workers, c) + One(Owes(k, c))
  {
    assert (workers + [k])[..|workers|] == workers;
  }

  lemma {:induction false} SomeoneOwes(workers: seq<Worker>, c: Claims)
    ensures Owing(workers, c) > 0 <==> exists w :: 0 <= w < |workers| && Owes(workers[w], c)
    decreases |workers|
  {
    if workers != [] {
      var init := workers[..|workers|-1];
      SomeoneOwes(init, c);
      assert forall w :: 0 <= w < |init| ==> init[w] == workers[w];
    }
  }

  lemma ActConserves(cfg: Config, y: System, a: Action, c: Claims)
    ensures Owing(Act(cfg, y, a).workers, c) + One(RotatesNow(y, a, c)) == Owing(y.workers, c) + One(PassesNow(y, a, c))
  {
    if a.Begin? {
      OwingMore(y.workers, Worker(a.token, a.role, a.active, a.ids, Checking), c);
    } else if a.Resume? && a.worker < |y.workers| {
      var k := y.workers[a.worker];
      OwingAfter(y.workers, a.worker, k.(stage := Over), c);
      OwingAfter(y.workers, a.worker, k.(stage := Passed), c);
    }
  }

  // Over every schedule: the rotations, with those still owing, are exactly those owing before and the
  // refreshes that passed their checks.
  lemma {:induction false} RotationsAreConserved(cfg: Config, y: System, actions: seq<Action>, c: Claims)
    ensures Rotations(cfg, y, actions, c) + Owing(Later(cfg, y, actions).workers, c)
         == Owing(y.workers, c) + Passes(cfg, y, actions, c)
    decreases |actions|
  {
    if actions != [] {
      var init, last := actions[..|actions|-1], actions[|actions|-1];
      RotationsAreConserved(cfg, y, init, c);
      ActConserves(cfg, Later(cfg, y, init), last, c);
    }
  }

  // ---- after the first rotation ----

  // Identifiers are never empty, and nothing outlives a blacklist entry made now.
  ghost predicate Sound(cfg: Config, y: System) {
    cfg.Valid() && Bounded(y.s, cfg, y.clock) && SoundWorkers(y.workers, y.s.signed)
  }

  ghost predicate SoundWorkers(workers: seq<Worker>, signed: set<Claims>) {
    forall w :: 0 <= w < |workers| ==> SoundWorker(workers[w], signed)
  }

  ghost predicate SoundWorker(k: Worker, signed: set<Claims>) {
    && "" !in {k.ids.access, k.ids.refresh, k.ids.family}
    && (k.stage.Passed? ==> k.token.claims.Some? && k.token.claims.value in signed)
  }

  function NewIdsOf(a: Action): set<string> {
    match a
    case Begin(_, _, _, ids, _) => {ids.access, ids.refresh, ids.family}
    case Do(e, _) => NewIds(e)
    case _ => {}
  }

  ghost predicate Names(actions: seq<Action>) {
    forall i :: 0 <= i < |actions| ==> "" !in NewIdsOf(actions[i])
  }

  lemma StepBounded(cfg: Config, s: State, e: Event, now: nat, then': nat)
    requires cfg.Valid() && Bounded(s, cfg, now) && now <= then' && "" !in NewIds(e)
    ensures Bounded(Done(cfg, s, e, then'), cfg, then') && s.signed <= Done(cfg, s, e, then').signed
  {
    if !e.Rotate? { BoundedStep(s, cfg, Timed(e, then'), now); }
  }

  lemma RotatedBounded(cfg: Config, s: State, k: Worker, now: nat, then': nat)
    requires cfg.Valid() && Bounded(s, cfg, now) && now <= then' && "" !in {k.ids.access, k.ids.refresh, k.ids.family}
    requires k.token.claims.Some? && k.token.claims.value in s.signed
    ensures Bounded(Rotated(cfg, s, k, then'), cfg, then') && s.signed <= Rotated(cfg, s, k, then').signed
  {
    var c := k.token.claims.value;
    forall d | d in Rotated(cfg, s, k, then').signed
      ensures d.expires <= then' + cfg.refreshTtl * 1000 && d.jti != "" && d.family != ""
    {
      if d !in s.signed { PairBounded(cfg, c.user, k.role, RotatedFamily(c, k.ids), k.ids, then', d); }
    }
  }

  lemma BeginIsSound(cfg: Config, y: System, a: Action)
    requires Sound(cfg, y) && a.Begin? && "" !in NewIdsOf(a)
    ensures Sound(cfg, Act(cfg, y, a)) && y.s.signed == Act(cfg, y, a).s.signed
  {
  }

  lemma ResumeIsSound(cfg: Config, y: System, a: Action)
    requires Sound(cfg, y) && a.Resume?
    ensures Sound(cfg, Act(cfg, y, a)) && y.s.signed <= Act(cfg, y, a).s.signed
  {
    if a.worker < |y.workers| {
      var k := y.workers[a.worker];
      assert SoundWorker(k, y.s.signed);
      if k.stage.Passed? { RotatedBounded(cfg, y.s, k, y.clock, y.clock + a.wait); }
    }
  }

  lemma WorkersStaySound(workers: seq<Worker>, signed: set<Claims>, signed': set<Claims>)
    requires SoundWorkers(workers, signed) && signed <= signed'
    ensures SoundWorkers(workers, signed')
  {
  }

  lemma DoneIsSound(cfg: Config, s: State, workers: seq<Worker>, e: Event, now: nat, then': nat)
    requires cfg.Valid() && Bounded(s, cfg, now) && now <= then' && SoundWorkers(workers, s.signed) && "" !in NewIds(e)
    ensures Sound(cfg, System(Done(cfg, s, e, then'), workers, then')) && s.signed <= Done(cfg, s, e, then').signed
  {
    StepBounded(cfg, s, e, now, then');
    WorkersStaySound(workers, s.signed, Done(cfg, s, e, then').signed);
  }

  lemma ActIsSound(cfg: Config, y: System, a: Action)
    requires Sound(cfg, y) && "" !in NewIdsOf(a)
    ensures Sound(cfg, Act(cfg, y, a)) && y.s.signed <= Act(cfg, y, a).s.signed
  {
    match a
    case Begin(_, _, _, _, _) => BeginIsSound(cfg, y, a);
    case Resume(_, _) => ResumeIsSound(cfg, y, a);
    case Do(e, wait) => DoneIsSound(cfg, y.s, y.workers, e, y.clock, y.clock + wait);
  }

  lemma DoneKeepsSpent(cfg: Config, s: State, e: Event, now: nat, then': nat, c: Claims)
    requires cfg.Valid() && Bounded(s, cfg, now) && now <= then' && Spent(s, c)
    ensures Spent(Done(cfg, s, e, then'), c)
  {
    if !e.Rotate? { ListedLonger(s, cfg, Timed(e, then'), now, JtiKey(c.jti)); }
  }

  lemma SpentStays(cfg: Config, y: System, a: Action, c: Claims)
    requires Sound(cfg, y) && Spent(y.s, c)
    ensures Spent(Act(cfg, y, a).s, c)
  {
    if a.Do? { DoneKeepsSpent(cfg, y.s, a.event, y.clock, y.clock + a.wait, c); }
  }

  // A spent token passes no check any more: until it expires its identifier is listed.
  lemma SpentIsRefused(y: System, a: Action, c: Claims)
    requires Spent(y.s, c) && c.jti != ""
    ensures !PassesNow(y, a, c)
  {
  }

  lemma RotationSpendsNow(cfg: Config, y: System, a: Action, c: Claims)
    requires Sound(cfg, y) && RotatesNow(y, a, c)
    ensures Spent(Act(cfg, y, a).s, c) && c.jti != ""
  {
    assert c in y.s.signed;
  }

  lemma {:induction false} SpentForGood(cfg: Config, y: System, actions: seq<Action>, c: Claims)
    requires Sound(cfg, y) && Spent(y.s, c) && c.jti != "" && Names(actions)
    ensures Sound(cfg, Later(cfg, y, actions)) && Spent(Later(cfg, y, actions).s, c) && Passes(cfg, y, actions, c) == 0
    decreases |actions|
  {
    if actions != [] {
      var init, last := actions[..|actions|-1], actions[|actions|-1];
      SpentForGood(cfg, y, init, c);
      ActIsSound(cfg, Later(cfg, y, init), last);
      SpentStays(cfg, Later(cfg, y, init), last, c);
      SpentIsRefused(Later(cfg, y, init), last, c);
    }
  }

  // The schedule rotates the token n times or more.
  ghost predicate Yields(cfg: Config, y: System, actions: seq<Action>, c: Claims, n: nat) {
    Names(actions) && Rotations(cfg, y, actions, c) >= n
  }

  lemma {:induction false} FinishAll(cfg: Config, y: System, c: Claims) returns (actions: seq<Action>)
    ensures Names(actions) && Rotations(cfg, y, actions, c) == Owing(y.workers, c)
    decreases Owing(y.workers, c)
  {
    SomeoneOwes(y.workers, c);
    if Owing(y.workers, c) == 0 {
      actions := [];
    } else {
      var w :| 0 <= w < |y.workers| && Owes(y.workers[w], c);
      var first := Resume(w, 0);
      ActConserves(cfg, y, first, c);
      var rest := FinishAll(cfg, Act(cfg, y, first), c);
      Extended(cfg, y, first, rest, c);
      actions := [first] + rest;
    }
  }

  lemma {:induction false} Extended(cfg: Config, y: System, first: Action, rest: seq<Action>, c: Claims)
    ensures Later(cfg, y, [first] + rest) == Later(cfg, Act(cfg, y, first), rest)
    ensures Rotations(cfg, y, [first] + rest, c)
         == One(RotatesNow(y, first, c)) + Rotations(cfg, Act(cfg, y, first), rest, c)
    decreases |rest|
  {
    if rest == [] {
      assert [first] + rest == [first] && [first][..0] == [];
    } else {
      var init, last := rest[..|rest|-1], rest[|rest|-1];
      Extended(cfg, y, first, init, c);
      assert ([first] + rest)[..|rest|] == [first] + init;
    }
  }

  // Once a token is spent, exactly the refreshes that had passed their checks and not written yet can
  // rotate it again: n of them on some schedule if and only if there are n.
  lemma SpentIsExact(cfg: Config, y: System, c: Claims, n: nat)
    requires Sound(cfg, y) && Spent(y.s, c) && c.jti != ""
    ensures (exists actions :: Yields(cfg, y, actions, c, n)) <==> n <= Owing(y.workers, c)
  {
    if n <= Owing(y.workers, c) {
      var actions := FinishAll(cfg, y, c);
      assert Yields(cfg, y, actions, c, n);
    }
    if actions :| Yields(cfg, y, actions, c, n) {
      SpentForGood(cfg, y, actions, c);
      RotationsAreConserved(cfg, y, actions, c);
    }
  }

  // So a rotation is the last one, on every schedule, if and only if no other refresh of the token had
  // passed its checks by then.
  lemma LastRotationExactly(cfg: Config, y: System, a: Action, c: Claims)
    requires Sound(cfg, y) && RotatesNow(y, a, c) && "" !in NewIdsOf(a)
    ensures (exists actions :: Yields(cfg, Act(cfg, y, a), actions, c, 1)) <==> Owing(y.workers, c) > 1
  {
    ActIsSound(cfg, y, a);
    RotationSpendsNow(cfg, y, a, c);
    ActConserves(cfg, y, a, c);
    SpentIsExact(cfg, Act(cfg, y, a), c, 1);
  }

  // Before the first rotation there is no limit: a token that Parse accepts is rotated n times by n refreshes
  // that all pass before any of them writes.
  lemma {:induction false} AsOftenAsLiked(cfg: Config, y: System, t: Token, role: string, ids: Ids, n: nat)
    returns (actions: seq<Action>)
    requires Accepts(y.s, t, y.clock) && t.claims.value.kind == Refresh && "" !in {ids.access, ids.refresh, ids.family}
    ensures Names(actions) && Rotations(cfg, y, actions, t.claims.value) == n + Owing(y.workers, t.claims.value)
    decreases n
  {
    var c := t.claims.value;
    if n == 0 {
      actions := FinishAll(cfg, y, c);
    } else {
      var begin, resume := Begin(t, role, true, ids, 0), Resume(|y.workers|, 0);
      var y1 := Act(cfg, y, begin);
      var y2 := Act(cfg, y1, resume);
      var rest := AsOftenAsLiked(cfg, y2, t, role, ids, n - 1);
      ActConserves(cfg, y, begin, c);
      ActConserves(cfg, y1, resume, c);
      Extended(cfg, y1, resume, rest, c);
      Extended(cfg, y, begin, [resume] + rest, c);
      actions := [begin] + ([resume] + rest);
    }
  }

  // ---- what outlives a revoked family ----

  predicate PassedOf(k: Worker, family: string) {
    k.stage.Passed? && FamilyOf(k.token) == family
  }

  ghost predicate NonePassed(y: System, family: string) {
    forall w :: 0 <= w < |y.workers| ==> !PassedOf(y.workers[w], family)
  }

  // New identifiers are not the family's.
  ghost predicate Avoids(actions: seq<Action>, family: string) {
    forall i :: 0 <= i < |actions| ==> family !in NewIdsOf(actions[i])
  }

  // Some token of the family is accepted.
  ghost predicate Alive(y: System, family: string, wait: nat) {
    exists t :: Accepts(y.s, t, y.clock + wait) && FamilyOf(t) == family
  }

  ghost predicate Revives(cfg: Config, y: System, actions: seq<Action>, family: string, wait: nat) {
    Names(actions) && Avoids(actions, family) && Alive(Later(cfg, y, actions), family, wait)
  }

  lemma DeadIsNotAlive(cfg: Config, y: System, family: string, since: nat, wait: nat)
    requires Dead(y.s, cfg, family, since)
    ensures !Alive(y, family, wait)
  {
  }

  lemma RotatedKeepsDead(cfg: Config, y: System, k: Worker, family: string, since: nat, now: nat)
    requires cfg.Valid() && Bounded(y.s, cfg, y.clock) && y.clock <= now && Dead(y.s, cfg, family, since)
    requires k.token.claims.Some? && k.token.claims.value in y.s.signed && FamilyOf(k.token) != family
    ensures Dead(Rotated(cfg, y.s, k, now), cfg, family, since)
  {
    var c := k.token.claims.value;
    assert RotatedFamily(c, k.ids) == c.family;
    forall d | d in Rotated(cfg, y.s, k, now).signed && d.family == family ensures d in y.s.signed {}
  }

  lemma ResumeKeepsDead(cfg: Config, y: System, a: Action, family: string, since: nat)
    requires Sound(cfg, y) && Dead(y.s, cfg, family, since) && NonePassed(y, family)
    requires a.Resume? && a.worker < |y.workers|
    ensures Dead(Act(cfg, y, a).s, cfg, family, since) && NonePassed(Act(cfg, y, a), family)
  {
    var k := y.workers[a.worker];
    assert SoundWorker(k, y.s.signed) && !PassedOf(k, family);
    if k.stage.Passed? { RotatedKeepsDead(cfg, y, k, family, since, y.clock + a.wait); }
    DeadIsNotAlive(cfg, y, family, since, a.wait);
  }

  lemma BeginKeepsDead(cfg: Config, y: System, a: Action, family: string, since: nat)
    requires Sound(cfg, y) && Dead(y.s, cfg, family, since) && NonePassed(y, family) && a.Begin?
    ensures Dead(Act(cfg, y, a).s, cfg, family, since) && NonePassed(Act(cfg, y, a), family)
  {
  }

  lemma DoneKeepsDead(cfg: Config, s: State, e: Event, now: nat, then': nat, family: string, since: nat)
    requires cfg.Valid() && Bounded(s, cfg, now) && now <= then' && Dead(s, cfg, family, since)
    requires family !in NewIds(e)
    ensures Dead(Done(cfg, s, e, then'), cfg, family, since)
  {
    if !e.Rotate? { DeadStep(s, cfg, Timed(e, then'), family, since, now); }
  }

  lemma DeadStaysDead(cfg: Config, y: System, a: Action, family: string, since: nat)
    requires Sound(cfg, y) && Dead(y.s, cfg, family, since) && NonePassed(y, family)
    requires family !in NewIdsOf(a)
    ensures Dead(Act(cfg, y, a).s, cfg, family, since) && NonePassed(Act(cfg, y, a), family)
  {
    match a
    case Begin(_, _, _, _, _) => BeginKeepsDead(cfg, y, a, family, since);
    case Resume(w, _) => if w < |y.workers| { ResumeKeepsDead(cfg, y, a, family, since); }
    case Do(e, wait) => DoneKeepsDead(cfg, y.s, e, y.clock, y.clock + wait, family, since);
  }

  lemma {:induction false} DeadForGood(cfg: Config, y: System, actions: seq<Action>, family: string, since: nat)
    requires Sound(cfg, y) && Dead(y.s, cfg, family, since) && NonePassed(y, family)
    requires Names(actions) && Avoids(actions, family)
    ensures Sound(cfg, Later(cfg, y, actions)) && Dead(Later(cfg, y, actions).s, cfg, family, since)
    ensures NonePassed(Later(cfg, y, actions), family)
    decreases |actions|
  {
    if actions != [] {
      var init, last := actions[..|actions|-1], actions[|actions|-1];
      DeadForGood(cfg, y, init, family, since);
      ActIsSound(cfg, Later(cfg, y, init), last);
      DeadStaysDead(cfg, Later(cfg, y, init), last, family, since);
    }
  }

  // The identifier of the pair a worker is about to sign is new, and that of its token is no family's key.
  ghost predicate FreshRefresh(y: System, k: Worker) {
    && k.token.claims.Some? && JtiKey(k.ids.refresh) !in y.s.blacklist
    && JtiKey(k.token.claims.value.jti) != JtiKey(k.ids.refresh)
    && JtiKey(k.token.claims.value.jti) != FamilyKey(k.token.claims.value.family)
  }

  // A refresh of the family that had passed writes a second after the revocation: its pair is alive when the
  // family's entry has expired.
  lemma PassedRevives(cfg: Config, y: System, w: nat, family: string) returns (wait: nat)
    requires Sound(cfg, y) && family != "" && FamilyKey(family) in y.s.blacklist
    requires w < |y.workers| && PassedOf(y.workers[w], family) && FreshRefresh(y, y.workers[w])
    ensures Alive(Act(cfg, y, Resume(w, 1000)), family, wait)
  {
    var k, now, ends := y.workers[w], y.clock + 1000, y.s.blacklist[FamilyKey(family)];
    wait := if ends <= now then 0 else ends - now;
    var c := k.token.claims.value;
    var d := Signed(c.user, k.role, Refresh, family, k.ids.refresh, cfg.refreshTtl, now);
    var y' := Act(cfg, y, Resume(w, 1000));
    assert d in y'.s.signed;
    assert d.expires > y.clock + cfg.refreshTtl * 1000 >= ends;
    var t := Token(k.ids.refresh, Some(d));
    assert Accepts(y'.s, t, y'.clock + wait) && FamilyOf(t) == family;
  }

  // A revoked family stays dead on every schedule if and only if no refresh of it had passed its checks and
  // not written yet.
  lemma FamilyDeadExactly(cfg: Config, y: System, family: string, since: nat)
    requires Sound(cfg, y) && Dead(y.s, cfg, family, since)
    requires forall w :: 0 <= w < |y.workers| && PassedOf(y.workers[w], family) ==> FreshRefresh(y, y.workers[w])
    ensures (forall actions, wait :: !Revives(cfg, y, actions, family, wait)) <==> NonePassed(y, family)
  {
    if NonePassed(y, family) {
      forall actions, wait ensures !Revives(cfg, y, actions, family, wait) {
        if Names(actions) && Avoids(actions, family) {
          DeadForGood(cfg, y, actions, family, since);
          DeadIsNotAlive(cfg, Later(cfg, y, actions), family, since, wait);
        }
      }
    } else {
      var w :| 0 <= w < |y.workers| && PassedOf(y.workers[w], family);
      var wait := PassedRevives(cfg, y, w, family);
      var actions := [Resume(w, 1000)];
      assert actions[..0] == [];
      assert Later(cfg, y, actions) == Act(cfg, y, Resume(w, 1000));
      assert Revives(cfg, y, actions, family, wait);
    }
  }

  // ---- schedules from the start ----

  const EMPTY: System := System(State(map[], {}), [], 0)

  function LoginToken(cfg: Config, user: string, role: string, ids: Ids): Token {
    Token(ids.refresh, Some(Signed(user, role, Refresh, ids.family, ids.refresh, cfg.refreshTtl, 0)))
  }

  // After a login the new refresh token is accepted.
  lemma LoggedIn(cfg: Config, user: string, role: string, ids: Ids)
    requires cfg.Valid() && "" !in {ids.access, ids.refresh, ids.family}
    ensures var y := Act(cfg, EMPTY, Do(Login(user, role, ids), 0));
            var t := LoginToken(cfg, user, role, ids);
            && Sound(cfg, y) && y.workers == [] && y.clock == 0 && y.s.blacklist == map[]
            && Accepts(y.s, t, 0) && t.claims.value.kind == Refresh
  {
    ActIsSound(cfg, EMPTY, Do(Login(user, role, ids), 0));
  }

  // A token rotated twice, or as often as one likes, right after the login.
  lemma RotatedTwice(cfg: Config, user: string, role: string, ids: Ids, next: Ids, n: nat)
    returns (actions: seq<Action>)
    requires cfg.Valid() && "" !in {ids.access, ids.refresh, ids.family}
             && "" !in {next.access, next.refresh, next.family}
    ensures Names(actions) && Rotations(cfg, Act(cfg, EMPTY, Do(Login(user, role, ids), 0)), actions,
                                        LoginToken(cfg, user, role, ids).claims.value) == n
  {
    LoggedIn(cfg, user, role, ids);
    actions :=
      AsOftenAsLiked(cfg, Act(cfg, EMPTY, Do(Login(user, role, ids), 0)), LoginToken(cfg, user, role, ids), role, next,
      n);
  }

  // A refresh passes its checks, the user logs out, and the family is dead but for that refresh.
  lemma LogoutMissesRefresh(cfg: Config, user: string, role: string, ids: Ids, next: Ids)
    requires cfg.Valid() && "" !in {ids.access, ids.refresh, ids.family}
             && "" !in {next.access, next.refresh, next.family}
    requires JtiKey(next.refresh) !in {JtiKey(ids.refresh), FamilyKey(ids.family)}
             && JtiKey(ids.refresh) != FamilyKey(ids.family)
    ensures var t := LoginToken(cfg, user, role, ids);
            var y1 := Act(cfg, EMPTY, Do(Login(user, role, ids), 0));
            var y2 := Act(cfg, Act(cfg, y1, Begin(t, role, true, next, 0)), Resume(0, 0));
            var y := Act(cfg, y2, Do(Logout(t, Some(t)), 0));
            && Sound(cfg, y) && Dead(y.s, cfg, ids.family, 0) && !NonePassed(y, ids.family)
            && forall w :: 0 <= w < |y.workers| && PassedOf(y.workers[w], ids.family) ==> FreshRefresh(y, y.workers[w])
  {
    var t := LoginToken(cfg, user, role, ids);
    var y1 := Act(cfg, EMPTY, Do(Login(user, role, ids), 0));
    LoggedIn(cfg, user, role, ids);
    var yb := Act(cfg, y1, Begin(t, role, true, next, 0));
    ActIsSound(cfg, y1, Begin(t, role, true, next, 0));
    var y2 := Act(cfg, yb, Resume(0, 0));
    ActIsSound(cfg, yb, Resume(0, 0));
    ActIsSound(cfg, y2, Do(Logout(t, Some(t)), 0));
    assert PassedOf(y2.workers[0], ids.family);
    var y := Act(cfg, y2, Do(Logout(t, Some(t)), 0));
    assert y.workers == y2.workers;
    assert PassedOf(y.workers[0], ids.family);
  }
}

/** QR device linking: the Redis hash of a pairing code and the handlers that advance it. */
module DevicePairing {
  import opened Options

  type Fields = map<string, string>

  // A Redis hash and its expiry (milliseconds); None is a key without a TTL.
  datatype Hash = Hash(fields: Fields, expires: Option<nat>)

  // The hashes under "pair:" + code, by code.
  type Redis = map<string, Hash>

  const PENDING_TTL: nat := 120000
  const APPROVAL_TTL: nat := 120000
  const TOMBSTONE_TTL: nat := 10000

  predicate Live(redis: Redis, code: string, now: nat) {
    code in redis && (redis[code].expires.Some? ==> now < redis[code].expires.value)
  }

  // What HGETALL reads.
  function Read(redis: Redis, code: string, now: nat): Fields {
    if Live(redis, code, now) then redis[code].fields else map[]
  }

  function Field(fields: Fields, name: string): string {
    if name in fields then fields[name] else ""
  }

  // ---- Redis commands, each atomic ----

  datatype Command =
    | HSet(code: string, values: Fields)
    | HDel(code: string, name: string)
    | PExpire(code: string, ttl: nat)
    | PollScript(code: string, verifierHash: string)

  function Run(redis: Redis, cmd: Command, now: nat): Redis {
    match cmd
    case HSet(code, values) =>
      redis[code := if Live(redis, code, now) then Hash(redis[code].fields + values, redis[code].expires)
                    else Hash(values, None)]
    case HDel(code, name) =>
      if Live(redis, code, now) then redis[code := redis[code].(fields := redis[code].fields - {name})] else redis
    case PExpire(code, ttl) =>
      if Live(redis, code, now) then redis[code := redis[code].(expires := Some(now + ttl))] else redis
    case PollScript(code, verifierHash) =>
      if Approved(redis, code, verifierHash, now)
      then redis[code := Hash(redis[code].fields["state" := "consumed"] - {"tokens"}, Some(now + TOMBSTONE_TTL))]
      else redis
  }

  predicate Approved(redis: Redis, code: string, verifierHash: string, now: nat) {
    && Live(redis, code, now)
    && "verifier_hash" in redis[code].fields && redis[code].fields["verifier_hash"] == verifierHash
    && "state" in redis[code].fields && redis[code].fields["state"] == "approved"
  }

  // The token blob a command hands out.
  function Delivered(redis: Redis, cmd: Command, now: nat): Option<string> {
    if cmd.PollScript? && Approved(redis, cmd.code, cmd.verifierHash, now) && "tokens" in redis[cmd.code].fields
    then Some(redis[cmd.code].fields["tokens"]) else None
  }

  function RunAll(redis: Redis, cmds: seq<Command>, now: nat): Redis
    decreases |cmds|
  {
    if cmds == [] then redis else RunAll(Run(redis, cmds[0], now), cmds[1..], now)
  }

  lemma RunOne(redis: Redis, a: Command, now: nat)
    ensures RunAll(redis, [a], now) == Run(redis, a, now)
  {
    assert [a][1..] == [];
  }

  lemma RunTwo(redis: Redis, a: Command, b: Command, now: nat)
    ensures RunAll(redis, [a, b], now) == Run(Run(redis, a, now), b, now)
  {
    assert [a, b][1..] == [b];
    RunOne(Run(redis, a, now), b, now);
  }

  lemma RunThree(redis: Redis, a: Command, b: Command, c: Command, now: nat)
    ensures RunAll(redis, [a, b, c], now) == Run(Run(Run(redis, a, now), b, now), c, now)
  {
    assert [a, b, c][1..] == [b, c];
    RunTwo(Run(redis, a, now), b, c, now);
  }

  // Writing fields and setting an expiry, in one go.
  lemma WriteAndExpire(redis: Redis, code: string, values: Fields, ttl: nat, now: nat)
    ensures Run(Run(redis, HSet(code, values), now), PExpire(code, ttl), now)
         == redis[code := Hash(Read(redis, code, now) + values, Some(now + ttl))]
  {
    assert map[] + values == values;
  }

  lemma DenyWrites(redis: Redis, code: string, now: nat)
    requires Live(redis, code, now)
    ensures Run(Run(Run(redis, HSet(code, map["state" := "denied"]), now), HDel(code, "tokens"), now),
                PExpire(code, TOMBSTONE_TTL), now)
         == redis[code := Hash(redis[code].fields["state" := "denied"] - {"tokens"}, Some(now + TOMBSTONE_TTL))]
  {
    assert redis[code].fields + map["state" := "denied"] == redis[code].fields["state" := "denied"];
  }

  // A code is there for two minutes after it was written last, a finished one for ten seconds, and not a
  // millisecond longer.
  lemma LivesExactly(redis: Redis, code: string, fields: Fields, now: nat, later: nat)
    ensures Read(redis[code := Hash(fields, Some(now + PENDING_TTL))], code, later)
         == if later < now + 120000 then fields else map[]
    ensures Read(redis[code := Hash(fields, Some(now + APPROVAL_TTL))], code, later)
         == if later < now + 120000 then fields else map[]
    ensures Read(redis[code := Hash(fields, Some(now + TOMBSTONE_TTL))], code, later)
         == if later < now + 10000 then fields else map[]
  {
  }

  // ---- requests, and the commands a handler issues for what it reads ----

  datatype Request =
    | Create(code: string, user: string, role: string, verifierHash: string)
    | Claim(code: string, verifierHash: string, device: string)
    | Approve(code: string, user: string, blob: string)
    | Deny(code: string, user: string)
    | Poll(code: string, verifierHash: string)

  function Plan(redis: Redis, r: Request, now: nat): seq<Command> {
    var fields := Read(redis, r.code, now);
    match r
    case Create(code, user, role, vh) =>
      [HSet(code, map["state" := "pending", "user_id" := user, "role" := role, "verifier_hash" := vh]),
       PExpire(code, PENDING_TTL)]
    case Claim(code, vh, device) =>
      if fields == map[] || Field(fields, "verifier_hash") != vh || Field(fields, "state") != "pending" then []
      else [HSet(code, map["state" := "awaiting_approval", "device_name" := device]), PExpire(code, APPROVAL_TTL)]
    case Approve(code, user, blob) =>
      if fields == map[] || Field(fields, "user_id") != user || Field(fields, "state") != "awaiting_approval" then []
      else [HSet(code, map["state" := "approved", "tokens" := blob]), PExpire(code, APPROVAL_TTL)]
    case Deny(code, user) =>
      if Field(fields, "user_id") == "" || Field(fields, "user_id") != user then []
      else [HSet(code, map["state" := "denied"]), HDel(code, "tokens"), PExpire(code, TOMBSTONE_TTL)]
    case Poll(code, vh) => [PollScript(code, vh)]
  }

  // A handler that runs without interruption.
  function Handle(redis: Redis, r: Request, now: nat): Redis {
    RunAll(redis, Plan(redis, r, now), now)
  }

  function HandOut(redis: Redis, r: Request, now: nat): Option<string> {
    if r.Poll? then Delivered(redis, PollScript(r.code, r.verifierHash), now) else None
  }

  // ---- the handlers ----

  datatype Response = Created | NotFound | InvalidVerifier | Conflict | Awaiting | ApprovedOk | NoContent
                    | State(name: string) | Tokens(blob: Option<string>)

  class PairingServer {
    var redis: Redis

    constructor ()
      ensures redis == map[]
    {
      redis := map[];
    }

    method Exec(cmd: Command, now: nat) returns (blob: Option<string>)
      modifies this
      ensures redis == Run(old(redis), cmd, now) && blob == Delivered(old(redis), cmd, now)
    {
      blob := Delivered(redis, cmd, now);
      redis := Run(redis, cmd, now);
    }

    method HandleCreate(code: string, user: string, role: string, verifierHash: string, now: nat) returns (r: Response)
      modifies this
      ensures redis == Handle(old(redis), Create(code, user, role, verifierHash), now)
      ensures r.Created? && redis == old(redis)[code := Hash(Read(old(redis), code, now) +
                map["state" := "pending", "user_id" := user, "role" := role, "verifier_hash" := verifierHash],
                Some(now + PENDING_TTL))]
    {
      var write :=
        HSet(code, map["state" := "pending", "user_id" := user, "role" := role, "verifier_hash" := verifierHash]);
      RunTwo(redis, write, PExpire(code, PENDING_TTL), now);
      WriteAndExpire(redis, code, write.values, PENDING_TTL, now);
      var _ := Exec(write, now);
      var _ := Exec(PExpire(code, PENDING_TTL), now);
      r := Created;
    }

    method HandleClaim(code: string, verifierHash: string, device: string, now: nat) returns (r: Response)
      modifies this
      ensures redis == Handle(old(redis), Claim(code, verifierHash, device), now)
      ensures var fields := Read(old(redis), code, now);
              && (r.NotFound? <==> fields == map[])
              && (r.InvalidVerifier? <==> fields != map[] && Field(fields, "verifier_hash") != verifierHash)
              && (r.Awaiting? <==> fields != map[] && Field(fields, "verifier_hash") == verifierHash
                                   && Field(fields, "state") == "pending")
              && (r.Awaiting? || r.NotFound? || r.InvalidVerifier? || r.Conflict?)
              && redis == if !r.Awaiting? then old(redis)
                          else old(redis)[code :=
                                 Hash(fields + map["state" := "awaiting_approval", "device_name" := device],
                                      Some(now + APPROVAL_TTL))]
    {
      var fields := Read(redis, code, now);
      if fields == map[] { return NotFound; }
      if Field(fields, "verifier_hash") != verifierHash { return InvalidVerifier; }
      if Field(fields, "state") != "pending" { return Conflict; }
      var write := HSet(code, map["state" := "awaiting_approval", "device_name" := device]);
      RunTwo(redis, write, PExpire(code, APPROVAL_TTL), now);
      WriteAndExpire(redis, code, write.values, APPROVAL_TTL, now);
      var _ := Exec(write, now);
      var _ := Exec(PExpire(code, APPROVAL_TTL), now);
      r := Awaiting;
    }

    method HandleApprove(code: string, user: string, blob: string, now: nat) returns (r: Response)
      modifies this
      ensures redis == Handle(old(redis), Approve(code, user, blob), now)
      ensures var fields := Read(old(redis), code, now);
              && (r.NotFound? <==> fields == map[] || Field(fields, "user_id") != user)
              && (r.ApprovedOk? <==> fields != map[] && Field(fields, "user_id") == user
                                     && Field(fields, "state") == "awaiting_approval")
              && (r.ApprovedOk? || r.NotFound? || r.Conflict?)
              && redis == if !r.ApprovedOk? then old(redis)
                          else old(redis)[code :=
                                 Hash(fields + map["state" := "approved", "tokens" := blob],
                                      Some(now + APPROVAL_TTL))]
    {
      var fields := Read(redis, code, now);
      if fields == map[] { return NotFound; }
      if Field(fields, "user_id") != user { return NotFound; }
      if Field(fields, "state") != "awaiting_approval" { return Conflict; }
      var write := HSet(code, map["state" := "approved", "tokens" := blob]);
      RunTwo(redis, write, PExpire(code, APPROVAL_TTL), now);
      WriteAndExpire(redis, code, write.values, APPROVAL_TTL, now);
      var _ := Exec(write, now);
      var _ := Exec(PExpire(code, APPROVAL_TTL), now);
      r := ApprovedOk;
    }

    method HandleDeny(code: string, user: string, now: nat) returns (r: Response)
      modifies this
      ensures redis == Handle(old(redis), Deny(code, user), now)
      ensures var owner := Field(Read(old(redis), code, now), "user_id");
              && (r.NotFound? <==> owner != "" && owner != user) && (r.NotFound? || r.NoContent?)
              && redis == if owner == "" || owner != user then old(redis)
                          else old(redis)[code :=
                                 Hash(old(redis)[code].fields["state" := "denied"] - {"tokens"},
                                      Some(now + TOMBSTONE_TTL))]
    {
      var owner := Field(Read(redis, code, now), "user_id");
      if owner == "" { return NoContent; }
      if owner != user { return NotFound; }
      var write := HSet(code, map["state" := "denied"]);
      RunThree(redis, write, HDel(code, "tokens"), PExpire(code, TOMBSTONE_TTL), now);
      DenyWrites(redis, code, now);
      var _ := Exec(write, now);
      var _ := Exec(HDel(code, "tokens"), now);
      var _ := Exec(PExpire(code, TOMBSTONE_TTL), now);
      r := NoContent;
    }

    method HandlePoll(code: string, verifierHash: string, now: nat) returns (r: Response)
      modifies this
      ensures redis == Handle(old(redis), Poll(code, verifierHash), now)
      ensures HandOut(old(redis), Poll(code, verifierHash), now).Some? ==>
                r == Tokens(HandOut(old(redis), Poll(code, verifierHash), now))
      ensures r.Tokens? && r.blob.Some? ==> r.blob == HandOut(old(redis), Poll(code, verifierHash), now)
      ensures var fields := Read(old(redis), code, now);
              && (r == State("expired") <== fields == map[])
              && (r.InvalidVerifier? <==> fields != map[] && Field(fields, "verifier_hash") != verifierHash)
              && (fields != map[] && Field(fields, "verifier_hash") == verifierHash && verifierHash != "" ==>
                    if Field(fields, "state") != "approved" then r == State(Field(fields, "state"))
                    else r == Tokens(if "tokens" in fields then Some(fields["tokens"]) else None)
                         && redis == old(redis)[code :=
                              Hash(fields["state" := "consumed"] - {"tokens"}, Some(now + TOMBSTONE_TTL))])
    {
      var fields := Read(redis, code, now);
      var approved := Approved(redis, code, verifierHash, now);
      RunOne(redis, PollScript(code, verifierHash), now);
      var blob := Exec(PollScript(code, verifierHash), now);
      if fields == map[] { return State("expired"); }
      if Field(fields, "verifier_hash") != verifierHash { return InvalidVerifier; }
      if approved { return Tokens(blob); }
      r := State(Field(fields, "state"));
    }
  }

  // ---- runs of uninterrupted handlers ----

  datatype Event = Event(request: Request, time: nat)

  // Codes come from a random generator: no code is created twice.
  datatype World = World(redis: Redis, created: set<string>)

  function Step(w: World, e: Event): World {
    World(Handle(w.redis, e.request, e.time), w.created + if e.request.Create? then {e.request.code} else {})
  }

  function WorldAfter(w: World, es: seq<Event>): World
    decreases |es|
  {
    if es == [] then w else Step(WorldAfter(w, es[..|es|-1]), es[|es|-1])
  }

  const START := World(map[], {})

  ghost predicate ValidRun(es: seq<Event>) {
    && (forall i, j :: 0 <= i < j < |es| ==> es[i].time <= es[j].time)
    && (forall i, j :: 0 <= i < j < |es| && es[i].request.Create? && es[j].request.Create? ==>
          es[i].request.code != es[j].request.code)
  }

  // How far a code has come: 0 never created, 1 pending, 2 awaiting approval, 3 approved, 4 over
  // (consumed, denied or expired).
  function Stage(w: World, code: string, now: nat): nat {
    if code !in w.created then 0
    else if !Live(w.redis, code, now) then 4
    else
      var state := Field(w.redis[code].fields, "state");
      if state == "pending" then 1 else if state == "awaiting_approval" then 2 else if state == "approved" then 3 else 4
  }

  ghost predicate Sound(w: World) {
    forall code :: code in w.redis ==> code in w.created && w.redis[code].expires.Some?
  }

  // Whether the handler changes the hash of its code.
  predicate Acts(redis: Redis, r: Request, now: nat) {
    if r.Poll? then Approved(redis, r.code, r.verifierHash, now) else Plan(redis, r, now) != []
  }

  // The hash it leaves.
  function Left(redis: Redis, r: Request, now: nat): Hash {
    var found := Read(redis, r.code, now);
    match r
    case Create(_, user, role, vh) =>
      Hash(found + map["state" := "pending", "user_id" := user, "role" := role, "verifier_hash" := vh],
        Some(now + PENDING_TTL))
    case Claim(_, _, device) =>
      Hash(found + map["state" := "awaiting_approval", "device_name" := device], Some(now + APPROVAL_TTL))
    case Approve(_, _, blob) =>
      Hash(found + map["state" := "approved", "tokens" := blob], Some(now + APPROVAL_TTL))
    case Deny(_, _) => Hash(found + map["state" := "denied"] - {"tokens"}, Some(now + TOMBSTONE_TTL))
    case Poll(_, _) => Hash(found["state" := "consumed"] - {"tokens"}, Some(now + TOMBSTONE_TTL))
  }

  lemma HandleOutcome(redis: Redis, r: Request, now: nat)
    ensures Handle(redis, r, now) == if Acts(redis, r, now) then redis[r.code := Left(redis, r, now)] else redis
  {
    var plan := Plan(redis, r, now);
    assert forall m: Fields :: map[] + m == m;
    if r.Poll? {
      RunOne(redis, plan[0], now);
    } else if r.Deny? && plan != [] {
      RunThree(redis, plan[0], plan[1], plan[2], now);
    } else if plan != [] {
      assert plan == [plan[0], plan[1]];
      RunTwo(redis, plan[0], plan[1], now);
    }
  }

  lemma SoundStep(w: World, e: Event)
    requires Sound(w)
    ensures Sound(Step(w, e))
  {
    HandleOutcome(w.redis, e.request, e.time);
  }

  lemma LeftState(redis: Redis, r: Request, now: nat)
    requires Acts(redis, r, now)
    ensures Left(redis, r, now).expires.Some? && now < Left(redis, r, now).expires.value
    ensures Field(Left(redis, r, now).fields, "state") ==
              match r { case Create(_, _, _, _) => "pending" case Claim(_, _, _) => "awaiting_approval"
                        case Approve(_, _, _) => "approved" case Deny(_, _) => "denied" case Poll(_, _) => "consumed" }
    ensures !r.Create? ==> Live(redis, r.code, now)
    ensures r.Claim? ==> Field(redis[r.code].fields, "state") == "pending"
    ensures r.Approve? ==> Field(redis[r.code].fields, "state") == "awaiting_approval"
    ensures r.Poll? ==> Field(redis[r.code].fields, "state") == "approved"
  {
  }

  // What one handler does to the stage of a code: only Create starts it, only Claim and Approve
  // advance it, in that order, and only Poll or Deny end it.
  lemma StageStep(w: World, e: Event, code: string)
    requires Sound(w) && (e.request.Create? ==> e.request.code !in w.created)
    ensures Sound(Step(w, e))
    ensures var s, t := Stage(w, code, e.time), Stage(Step(w, e), code, e.time);
            var act := e.request.code == code && Acts(w.redis, e.request, e.time);
            match e.request
            case Create(_, _, _, _) => if act then s == 0 && t == 1 else t == s
            case Claim(_, _, _) => if act then s == 1 && t == 2 else t == s
            case Approve(_, _, _) => if act then s == 2 && t == 3 else t == s
            case Deny(_, _) => if act then s > 0 && t == 4 else t == s
            case Poll(_, _) => if act then s == 3 && t == 4 else t == s
  {
    SoundStep(w, e);
    HandleOutcome(w.redis, e.request, e.time);
    if e.request.code == code && Acts(w.redis, e.request, e.time) {
      LeftState(w.redis, e.request, e.time);
    }
  }

  lemma StageWaits(w: World, code: string, now: nat, later: nat)
    requires now <= later
    ensures Stage(w, code, later) == Stage(w, code, now) || (Stage(w, code, now) > 0 && Stage(w, code, later) == 4)
  {
  }

  lemma {:induction false} RunIsSound(es: seq<Event>, n: nat)
    requires ValidRun(es) && n <= |es|
    ensures Sound(WorldAfter(START, es[..n]))
    ensures forall code :: code in WorldAfter(START, es[..n]).created <==>
              exists i :: 0 <= i < n && es[i].request.Create? && es[i].request.code == code
  {
    if n == 0 {
    } else {
      RunIsSound(es, n - 1);
      var e := es[n-1];
      assert es[..n][..n-1] == es[..n-1];
      assert e.request.Create? ==> e.request.code !in WorldAfter(START, es[..n-1]).created;
      StageStep(WorldAfter(START, es[..n-1]), e, "");
    }
  }

  // The state a request in a run finds.
  function Before(es: seq<Event>, i: nat): World
    requires i <= |es|
  {
    WorldAfter(START, es[..i])
  }

  lemma RunStep(es: seq<Event>, i: nat, code: string)
    requires ValidRun(es) && i < |es|
    ensures Before(es, i + 1) == Step(Before(es, i), es[i]) && Sound(Before(es, i))
    ensures es[i].request.Create? ==> es[i].request.code !in Before(es, i).created
  {
    assert es[..i+1][..i] == es[..i];
    RunIsSound(es, i);
  }

  lemma {:induction false} StageNeverFalls(es: seq<Event>, i: nat, j: nat, code: string)
    requires ValidRun(es) && i < j < |es|
    ensures Stage(Before(es, i + 1), code, es[i].time) <= Stage(Before(es, j), code, es[j].time)
    decreases j
  {
    StageWaits(Before(es, j), code, es[j-1].time, es[j].time);
    if i + 1 < j {
      StageNeverFalls(es, i, j - 1, code);
      RunStep(es, j - 1, code);
      StageStep(Before(es, j - 1), es[j-1], code);
    }
  }

  ghost predicate Delivers(es: seq<Event>, j: nat, code: string)
    requires j < |es|
  {
    es[j].request.code == code && HandOut(Before(es, j).redis, es[j].request, es[j].time).Some?
  }

  lemma DeliveryStages(es: seq<Event>, j: nat, code: string)
    requires ValidRun(es) && j < |es| && Delivers(es, j, code)
    ensures Stage(Before(es, j), code, es[j].time) == 3 && Stage(Before(es, j + 1), code, es[j].time) == 4
  {
    RunStep(es, j, code);
    StageStep(Before(es, j), es[j], code);
  }

  // A code delivers at most one token pair, however long the run.
  lemma DeliveredAtMostOnce(es: seq<Event>, i: nat, j: nat, code: string)
    requires ValidRun(es) && i < |es| && j < |es| && Delivers(es, i, code) && Delivers(es, j, code)
    ensures i == j
  {
    DeliveryStages(es, i, code);
    DeliveryStages(es, j, code);
    if i < j {
      StageNeverFalls(es, i, j, code);
    } else if j < i {
      StageNeverFalls(es, j, i, code);
    }
  }

  // Once consumed, denied or expired, a code never delivers.
  lemma OverIsFinal(es: seq<Event>, i: nat, j: nat, code: string)
    requires ValidRun(es) && i <= j < |es| && Stage(Before(es, i), code, es[i].time) == 4
    ensures !Delivers(es, j, code)
  {
    if Delivers(es, j, code) {
      DeliveryStages(es, j, code);
      if i < j {
        RunStep(es, i, code);
        StageStep(Before(es, i), es[i], code);
        StageNeverFalls(es, i, j, code);
      }
    }
  }

  // ---- what precedes a delivery ----

  ghost predicate ActsAt(es: seq<Event>, k: nat, code: string)
    requires k < |es|
  {
    es[k].request.code == code && Acts(Before(es, k).redis, es[k].request, es[k].time)
  }

  // g created the code, h claimed it with the verifier, i approved it and minted the blob.
  ghost predicate Trail(es: seq<Event>, n: nat, g: nat, h: nat, i: nat, code: string, stage: nat, fields: Fields)
    requires n <= |es|
  {
    && g < n && ActsAt(es, g, code) && es[g].request.Create?
    && es[g].request.user == Field(fields, "user_id") && es[g].request.verifierHash == Field(fields, "verifier_hash")
    && (stage >= 2 ==>
          && g < h < n && ActsAt(es, h, code) && es[h].request.Claim?
          && es[h].request.verifierHash == Field(fields, "verifier_hash"))
    && (stage >= 3 ==>
          && h < i < n && ActsAt(es, i, code) && es[i].request.Approve?
          && es[i].request.user == Field(fields, "user_id")
          && "tokens" in fields && es[i].request.blob == fields["tokens"])
  }

  lemma LeftFields(redis: Redis, r: Request, now: nat)
    requires Acts(redis, r, now)
    ensures var found, left := Read(redis, r.code, now), Left(redis, r, now).fields;
            && (r.Create? ==> Field(left, "user_id") == r.user && Field(left, "verifier_hash") == r.verifierHash)
            && (!r.Create? ==> Field(left, "user_id") == Field(found, "user_id")
                               && Field(left, "verifier_hash") == Field(found, "verifier_hash"))
            && (r.Claim? ==> r.verifierHash == Field(found, "verifier_hash"))
            && (r.Approve? ==> r.user == Field(found, "user_id") && "tokens" in left && left["tokens"] == r.blob)
  {
  }

  lemma Unchanged(w: World, e: Event, code: string)
    requires Sound(w) && (e.request.code != code || !Acts(w.redis, e.request, e.time))
    ensures code in w.redis <==> code in Step(w, e).redis
    ensures code in w.redis ==> Step(w, e).redis[code] == w.redis[code]
  {
    HandleOutcome(w.redis, e.request, e.time);
  }

  lemma LeftInStep(w: World, e: Event)
    requires Acts(w.redis, e.request, e.time)
    ensures e.request.code in Step(w, e).redis
    ensures Step(w, e).redis[e.request.code] == Left(w.redis, e.request, e.time)
  {
    HandleOutcome(w.redis, e.request, e.time);
  }

  // A trail up to n - 1 extends over the request at n - 1.
  lemma TrailExtends(es: seq<Event>, n: nat, code: string, g: nat, h: nat, i: nat, stage: nat)
    requires 0 < n <= |es| && Sound(Before(es, n - 1)) && Before(es, n) == Step(Before(es, n - 1), es[n-1])
    requires code in Before(es, n - 1).redis && ActsAt(es, n - 1, code)
    requires Trail(es, n - 1, g, h, i, code, stage, Read(Before(es, n - 1).redis, code, es[n-1].time))
    ensures var fields := Left(Before(es, n - 1).redis, es[n-1].request, es[n-1].time).fields;
            && (es[n-1].request.Claim? ==> Trail(es, n, g, n - 1, i, code, 2, fields))
            && (es[n-1].request.Approve? && stage >= 2 ==> Trail(es, n, g, h, n - 1, code, 3, fields))
  {
    LeftFields(Before(es, n - 1).redis, es[n-1].request, es[n-1].time);
  }

  // Some trail explains the state code is in before request n, seen at time now.
  ghost predicate Explained(es: seq<Event>, n: nat, now: nat, code: string, g: nat, h: nat, i: nat)
    requires n <= |es|
  {
    code in Before(es, n).redis
    && Trail(es, n, g, h, i, code, Stage(Before(es, n), code, now), Before(es, n).redis[code].fields)
  }

  lemma TrailGrows(es: seq<Event>, n: nat, g: nat, h: nat, i: nat, code: string, stage: nat, fields: Fields)
    requires 0 < n <= |es| && Trail(es, n - 1, g, h, i, code, stage, fields)
    ensures Trail(es, n, g, h, i, code, stage, fields)
  {
  }

  // A request that leaves the code alone leaves its hash and stage.
  lemma LeftAlone(w: World, e: Event, code: string, now: nat)
    requires Sound(w) && (e.request.Create? ==> e.request.code !in w.created) && e.time <= now
    requires e.request.code != code || !Acts(w.redis, e.request, e.time)
    requires code in w.redis && Stage(Step(w, e), code, now) <= 3
    ensures code in Step(w, e).redis && Step(w, e).redis[code].fields == w.redis[code].fields
    ensures Stage(Step(w, e), code, now) == Stage(w, code, e.time)
  {
    Unchanged(w, e, code);
    StageStep(w, e, code);
    StageWaits(Step(w, e), code, e.time, now);
  }

  lemma SameHash(es: seq<Event>, n: nat, now: nat, code: string)
    requires ValidRun(es) && 0 < n <= |es| && es[n-1].time <= now && !ActsAt(es, n - 1, code)
    requires code in Before(es, n - 1).redis && Stage(Before(es, n), code, now) <= 3
    ensures code in Before(es, n).redis
    ensures Before(es, n).redis[code].fields == Before(es, n - 1).redis[code].fields
    ensures Stage(Before(es, n), code, now) == Stage(Before(es, n - 1), code, es[n-1].time)
  {
    RunStep(es, n - 1, code);
    LeftAlone(Before(es, n - 1), es[n-1], code, now);
  }

  lemma ExplainedUnchanged(es: seq<Event>, n: nat, now: nat, code: string, g: nat, h: nat, i: nat)
    requires ValidRun(es) && 0 < n <= |es| && es[n-1].time <= now && !ActsAt(es, n - 1, code)
    requires Explained(es, n - 1, es[n-1].time, code, g, h, i) && Stage(Before(es, n), code, now) <= 3
    ensures Explained(es, n, now, code, g, h, i)
  {
    var w := Before(es, n - 1);
    SameHash(es, n, now, code);
    TrailGrows(es, n, g, h, i, code, Stage(w, code, es[n-1].time), w.redis[code].fields);
  }

  // A request that acts on the code leaves this hash, and its own stage.
  lemma LeftByAct(es: seq<Event>, n: nat, now: nat, code: string)
    requires ValidRun(es) && 0 < n <= |es| && es[n-1].time <= now && ActsAt(es, n - 1, code)
    requires 1 <= Stage(Before(es, n), code, now) <= 3
    ensures var w, e := Before(es, n - 1), es[n-1];
            && Sound(w) && Before(es, n) == Step(w, e) && code in Before(es, n).redis
            && Before(es, n).redis[code].fields == Left(w.redis, e.request, e.time).fields
            && (e.request.Create? ==> Stage(Before(es, n), code, now) == 1)
            && (e.request.Claim? ==> Stage(w, code, e.time) == 1 && Stage(Before(es, n), code, now) == 2)
            && (e.request.Approve? ==> Stage(w, code, e.time) == 2 && Stage(Before(es, n), code, now) == 3)
            && !e.request.Deny? && !e.request.Poll?
  {
    var w, e := Before(es, n - 1), es[n-1];
    RunStep(es, n - 1, code);
    LeftInStep(w, e);
    StageStep(w, e, code);
    StageWaits(Before(es, n), code, e.time, now);
  }

  lemma ExplainedExtends(es: seq<Event>, n: nat, now: nat, code: string, g: nat, h: nat, i: nat)
    requires ValidRun(es) && 0 < n <= |es| && es[n-1].time <= now && ActsAt(es, n - 1, code)
    requires 1 <= Stage(Before(es, n), code, now) <= 3 && Explained(es, n - 1, es[n-1].time, code, g, h, i)
    ensures es[n-1].request.Claim? ==> Explained(es, n, now, code, g, n - 1, i)
    ensures es[n-1].request.Approve? ==> Explained(es, n, now, code, g, h, n - 1)
  {
    LeftByAct(es, n, now, code);
    TrailExtends(es, n, code, g, h, i, Stage(Before(es, n - 1), code, es[n-1].time));
  }

  lemma ExplainedCreate(es: seq<Event>, n: nat, now: nat, code: string)
    requires ValidRun(es) && 0 < n <= |es| && es[n-1].time <= now && ActsAt(es, n - 1, code) && es[n-1].request.Create?
    requires 1 <= Stage(Before(es, n), code, now) <= 3
    ensures Explained(es, n, now, code, n - 1, 0, 0)
  {
    LeftByAct(es, n, now, code);
    LeftFields(Before(es, n - 1).redis, es[n-1].request, es[n-1].time);
  }

  // Left alone, the code was already at its stage.
  lemma StageBefore(es: seq<Event>, n: nat, now: nat, code: string)
    requires ValidRun(es) && n <= |es| && (n > 0 ==> es[n-1].time <= now) && 1 <= Stage(Before(es, n), code, now) <= 3
    ensures n > 0 && (ActsAt(es, n - 1, code) ==> !es[n-1].request.Deny? && !es[n-1].request.Poll?)
    ensures !ActsAt(es, n - 1, code) || !es[n-1].request.Create? ==>
            1 <= Stage(Before(es, n - 1), code, es[n-1].time) <= 3
  {
    RunStep(es, n - 1, code);
    StageStep(Before(es, n - 1), es[n-1], code);
    StageWaits(Before(es, n), code, es[n-1].time, now);
  }

  lemma {:induction false} TrailExists(es: seq<Event>, n: nat, now: nat, code: string) returns (g: nat, h: nat, i: nat)
    requires ValidRun(es) && n <= |es| && (n > 0 ==> es[n-1].time <= now)
    requires 1 <= Stage(Before(es, n), code, now) <= 3
    ensures Explained(es, n, now, code, g, h, i)
  {
    StageBefore(es, n, now, code);
    if ActsAt(es, n - 1, code) && es[n-1].request.Create? {
      ExplainedCreate(es, n, now, code);
      g, h, i := n - 1, 0, 0;
    } else {
      g, h, i := TrailExists(es, n - 1, es[n-1].time, code);
      if !ActsAt(es, n - 1, code) {
        ExplainedUnchanged(es, n, now, code, g, h, i);
      } else {
        ExplainedExtends(es, n, now, code, g, h, i);
        if es[n-1].request.Claim? { h := n - 1; } else { i := n - 1; }
      }
    }
  }

  // A delivery comes after the code was created, then claimed with the same verifier, then approved
  // by the user who created it; and it hands out the blob that approval minted.
  lemma DeliveryFollowsApproval(es: seq<Event>, j: nat, code: string) returns (g: nat, h: nat, i: nat)
    requires ValidRun(es) && j < |es| && Delivers(es, j, code)
    ensures g < h < i < j && ActsAt(es, g, code) && ActsAt(es, h, code) && ActsAt(es, i, code)
    ensures es[g].request.Create? && es[h].request.Claim? && es[i].request.Approve?
    ensures es[g].request.verifierHash == es[h].request.verifierHash == es[j].request.verifierHash
    ensures es[g].request.user == es[i].request.user
    ensures HandOut(Before(es, j).redis, es[j].request, es[j].time) == Some(es[i].request.blob)
  {
    DeliveryStages(es, j, code);
    g, h, i := TrailExists(es, j, es[j].time, code);
  }

  // ---- interleaved handlers ----

  // A handler under way: the commands it decided on when it read the hash, and how many are done.
  datatype Thread = Thread(plan: seq<Command>, pc: nat)

  datatype System = System(redis: Redis, threads: seq<Thread>)

  // The scheduler starts a handler (which reads) or lets one issue its next Redis command.
  datatype Action = Begin(request: Request, time: nat) | Resume(thread: nat, time: nat)

  predicate CanResume(s: System, t: nat) {
    t < |s.threads| && s.threads[t].pc < |s.threads[t].plan|
  }

  function NextCommand(s: System, t: nat): Command
    requires CanResume(s, t)
  {
    s.threads[t].plan[s.threads[t].pc]
  }

  function Act(s: System, a: Action): System {
    match a
    case Begin(r, now) => System(s.redis, s.threads + [Thread(Plan(s.redis, r, now), 0)])
    case Resume(t, now) =>
      if CanResume(s, t)
      then System(Run(s.redis, NextCommand(s, t), now), s.threads[t := s.threads[t].(pc := s.threads[t].pc + 1)])
      else s
  }

  function HandsOut(s: System, a: Action): Option<string> {
    if a.Resume? && CanResume(s, a.thread) then Delivered(s.redis, NextCommand(s, a.thread), a.time) else None
  }

  function SystemAfter(s: System, actions: seq<Action>): System
    decreases |actions|
  {
    if actions == [] then s else Act(SystemAfter(s, actions[..|actions|-1]), actions[|actions|-1])
  }

  predicate Mints(a: Action, blob: string) {
    a.Begin? && a.request.Approve? && a.request.blob == blob
  }

  // Every approval mints tokens of its own.
  ghost predicate DistinctBlobs(actions: seq<Action>) {
    forall i, j, blob :: 0 <= i < j < |actions| && Mints(actions[i], blob) ==> !Mints(actions[j], blob)
  }

  predicate WritesBlob(cmd: Command, blob: string) {
    cmd.HSet? && "tokens" in cmd.values && cmd.values["tokens"] == blob
  }

  predicate Stored(s: System, code: string, blob: string) {
    code in s.redis && "tokens" in s.redis[code].fields && s.redis[code].fields["tokens"] == blob
  }

  predicate Pending(s: System, t: nat, blob: string) {
    t < |s.threads| && s.threads[t].pc == 0 && s.threads[t].plan != [] && WritesBlob(s.threads[t].plan[0], blob)
  }

  // Only the first command of a handler writes tokens.
  ghost predicate WellPlanned(s: System) {
    forall t, k, blob :: 0 <= t < |s.threads| && 0 < k < |s.threads[t].plan| ==>
      !WritesBlob(s.threads[t].plan[k], blob)
  }

  ghost predicate Absent(s: System, blob: string) {
    (forall code :: !Stored(s, code, blob)) && (forall t: nat :: !Pending(s, t, blob))
  }

  // The blob is in at most one place: the hash of one code, or one unfinished approval.
  ghost predicate Unique(s: System, blob: string) {
    && (forall c, d :: Stored(s, c, blob) && Stored(s, d, blob) ==> c == d)
    && (forall t: nat, u: nat :: Pending(s, t, blob) && Pending(s, u, blob) ==> t == u)
    && (forall c, t: nat :: Stored(s, c, blob) ==> !Pending(s, t, blob))
  }

  lemma PlanWritesOwnBlob(redis: Redis, r: Request, now: nat, k: nat, blob: string)
    requires k < |Plan(redis, r, now)| && WritesBlob(Plan(redis, r, now)[k], blob)
    ensures k == 0 && r.Approve? && r.blob == blob
  {
  }

  lemma ActKeepsPlans(s: System, a: Action)
    requires WellPlanned(s)
    ensures WellPlanned(Act(s, a))
  {
    var s' := Act(s, a);
    forall t, k, blob | 0 <= t < |s'.threads| && 0 < k < |s'.threads[t].plan|
      ensures !WritesBlob(s'.threads[t].plan[k], blob)
    {
      if t < |s.threads| {
        assert s'.threads[t].plan == s.threads[t].plan;
      } else if WritesBlob(s'.threads[t].plan[k], blob) {
        PlanWritesOwnBlob(s.redis, a.request, a.time, k, blob);
      }
    }
  }

  // A command stores a blob nowhere new, unless it writes it.
  lemma RunStores(redis: Redis, cmd: Command, now: nat, blob: string, code: string)
    requires code in Run(redis, cmd, now) && "tokens" in Run(redis, cmd, now)[code].fields
    requires Run(redis, cmd, now)[code].fields["tokens"] == blob
    ensures (code in redis && "tokens" in redis[code].fields && redis[code].fields["tokens"] == blob)
            || (WritesBlob(cmd, blob) && code == cmd.code)
  {
  }

  lemma PendingAfter(s: System, a: Action, t: nat, blob: string)
    requires Pending(Act(s, a), t, blob)
    ensures Pending(s, t, blob) || (t == |s.threads| && Mints(a, blob))
    ensures a.Resume? && CanResume(s, a.thread) ==> t != a.thread
  {
    if a.Begin? && t == |s.threads| {
      PlanWritesOwnBlob(s.redis, a.request, a.time, 0, blob);
    }
  }

  lemma StoredAfter(s: System, a: Action, code: string, blob: string)
    requires WellPlanned(s) && Stored(Act(s, a), code, blob)
    ensures Stored(s, code, blob)
            || (a.Resume? && Pending(s, a.thread, blob) && CanResume(s, a.thread)
              && code == NextCommand(s, a.thread).code)
  {
    if a.Resume? && CanResume(s, a.thread) {
      RunStores(s.redis, NextCommand(s, a.thread), a.time, blob, code);
    }
  }

  lemma ActKeepsAbsent(s: System, a: Action, blob: string)
    requires WellPlanned(s) && Absent(s, blob) && !Mints(a, blob)
    ensures Absent(Act(s, a), blob)
  {
    forall code | Stored(Act(s, a), code, blob) ensures false { StoredAfter(s, a, code, blob); }
    forall t: nat | Pending(Act(s, a), t, blob) ensures false { PendingAfter(s, a, t, blob); }
  }

  lemma ActKeepsUnique(s: System, a: Action, blob: string)
    requires WellPlanned(s) && Unique(s, blob) && (Mints(a, blob) ==> Absent(s, blob))
    ensures Unique(Act(s, a), blob)
  {
    var s' := Act(s, a);
    forall c, d | Stored(s', c, blob) && Stored(s', d, blob) ensures c == d {
      StoredAfter(s, a, c, blob);
      StoredAfter(s, a, d, blob);
    }
    forall t: nat, u: nat | Pending(s', t, blob) && Pending(s', u, blob) ensures t == u {
      PendingAfter(s, a, t, blob);
      PendingAfter(s, a, u, blob);
    }
    forall c, t: nat | Stored(s', c, blob) ensures !Pending(s', t, blob) {
      StoredAfter(s, a, c, blob);
      if Pending(s', t, blob) { PendingAfter(s, a, t, blob); }
    }
  }

  // The script drops the tokens it returns.
  lemma DeliveryRemoves(s: System, a: Action, blob: string)
    requires WellPlanned(s) && Unique(s, blob) && HandsOut(s, a) == Some(blob)
    ensures Absent(Act(s, a), blob)
  {
    var code := NextCommand(s, a.thread).code;
    assert Stored(s, code, blob);
    forall c | Stored(Act(s, a), c, blob) ensures false { StoredAfter(s, a, c, blob); }
    forall t: nat | Pending(Act(s, a), t, blob) ensures false { PendingAfter(s, a, t, blob); }
  }

  const IDLE := System(map[], [])

  function Reached(actions: seq<Action>, n: nat): System
    requires n <= |actions|
  {
    SystemAfter(IDLE, actions[..n])
  }

  lemma {:induction false} BlobStaysUnique(actions: seq<Action>, n: nat, blob: string)
    requires DistinctBlobs(actions) && n <= |actions|
    ensures WellPlanned(Reached(actions, n)) && Unique(Reached(actions, n), blob)
    ensures (forall i :: 0 <= i < n ==> !Mints(actions[i], blob)) ==> Absent(Reached(actions, n), blob)
  {
    if n == 0 {
    } else {
      BlobStaysUnique(actions, n - 1, blob);
      assert actions[..n][..n-1] == actions[..n-1];
      var s, a := Reached(actions, n - 1), actions[n-1];
      ActKeepsPlans(s, a);
      ActKeepsUnique(s, a, blob);
      if !Mints(a, blob) && Absent(s, blob) { ActKeepsAbsent(s, a, blob); }
    }
  }

  lemma {:induction false} StaysAbsent(actions: seq<Action>, n: nat, m: nat, blob: string)
    requires DistinctBlobs(actions) && n <= m <= |actions| && Absent(Reached(actions, n), blob)
    requires exists i :: 0 <= i < n && Mints(actions[i], blob)
    ensures Absent(Reached(actions, m), blob)
  {
    if n < m {
      StaysAbsent(actions, n, m - 1, blob);
      assert actions[..m][..m-1] == actions[..m-1];
      BlobStaysUnique(actions, m - 1, blob);
      ActKeepsAbsent(Reached(actions, m - 1), actions[m-1], blob);
    }
  }

  ghost predicate HandedOut(actions: seq<Action>, k: nat, blob: string)
    requires k < |actions|
  {
    HandsOut(Reached(actions, k), actions[k]) == Some(blob)
  }

  // However the commands of the handlers interleave, each minted blob is returned by at most one poll.
  lemma BlobReturnedAtMostOnce(actions: seq<Action>, i: nat, j: nat, blob: string)
    requires DistinctBlobs(actions) && i < |actions| && j < |actions|
    requires HandedOut(actions, i, blob) && HandedOut(actions, j, blob)
    ensures i == j
  {
    if i < j {
      SecondReturnIsImpossible(actions, i, j, blob);
    } else if j < i {
      SecondReturnIsImpossible(actions, j, i, blob);
    }
  }

  lemma SecondReturnIsImpossible(actions: seq<Action>, i: nat, j: nat, blob: string)
    requires DistinctBlobs(actions) && i < j < |actions| && HandedOut(actions, i, blob)
    ensures !HandedOut(actions, j, blob)
  {
    BlobStaysUnique(actions, i, blob);
    assert Stored(Reached(actions, i), NextCommand(Reached(actions, i), actions[i].thread).code, blob);
    DeliveryRemoves(Reached(actions, i), actions[i], blob);
    assert actions[..i+1][..i] == actions[..i];
    StaysAbsent(actions, i + 1, j, blob);
    if HandedOut(actions, j, blob) {
      assert Stored(Reached(actions, j), NextCommand(Reached(actions, j), actions[j].thread).code, blob);
    }
  }

  // Atomic handlers are needed: when two approvals of one code both read before either writes, the
  // code delivers two token pairs.
  lemma InterleavedApprovalsDeliverTwice(s: System, code: string, user: string, vh: string, b1: string, b2: string,
                                         now: nat)
    requires Live(s.redis, code, now) && user != "" && vh != ""
    requires Field(s.redis[code].fields, "state") == "awaiting_approval"
    requires Field(s.redis[code].fields, "user_id") == user && Field(s.redis[code].fields, "verifier_hash") == vh
    ensures var t := |s.threads|;
            var poll1 := SystemAfter(s, [Begin(Approve(code, user, b1), now), Begin(Approve(code, user, b2), now),
                                         Resume(t, now), Begin(Poll(code, vh), now)]);
            var poll2 := SystemAfter(Act(poll1, Resume(t + 2, now)), [Resume(t + 1, now), Begin(Poll(code, vh), now)]);
            HandsOut(poll1, Resume(t + 2, now)) == Some(b1) && HandsOut(poll2, Resume(t + 3, now)) == Some(b2)
  {
    var t := |s.threads|;
    var begin1, begin2, poll := Begin(Approve(code, user, b1), now), Begin(Approve(code, user, b2), now),
      Begin(Poll(code, vh), now);
    AfterFour(s, begin1, begin2, Resume(t, now), poll);
    var s2 := Act(Act(s, begin1), begin2);
    BothRead(s, code, user, vh, b1, b2, now);
    ApprovalThenPoll(s2, t, code, vh, b1, now);
    var s5 := Act(Act(Act(s2, Resume(t, now)), poll), Resume(t + 2, now));
    AfterTwo(s5, Resume(t + 1, now), poll);
    ApprovalThenPoll(s5, t + 1, code, vh, b2, now);
  }

  lemma TwoApprovalsMintTwo(code: string, user: string, b1: string, b2: string, now: nat)
    requires b1 != b2
    ensures DistinctBlobs([Begin(Approve(code, user, b1), now), Begin(Approve(code, user, b2), now)])
  {
  }

  lemma BothRead(s: System, code: string, user: string, vh: string, b1: string, b2: string, now: nat)
    requires Live(s.redis, code, now) && user != "" && vh != ""
    requires Field(s.redis[code].fields, "state") == "awaiting_approval"
    requires Field(s.redis[code].fields, "user_id") == user && Field(s.redis[code].fields, "verifier_hash") == vh
    ensures var t, s2 := |s.threads|,
            Act(Act(s, Begin(Approve(code, user, b1), now)), Begin(Approve(code, user, b2), now));
            && s2.redis == s.redis && |s2.threads| == t + 2
            && ReadyToApprove(s2, t, code, vh, b1, now) && ReadyToApprove(s2, t + 1, code, vh, b2, now)
  {
  }

  // Thread t has read the hash and is about to write its approval of a code that is still live.
  ghost predicate ReadyToApprove(s: System, t: nat, code: string, vh: string, blob: string, now: nat) {
    && CanResume(s, t) && NextCommand(s, t) == HSet(code, map["state" := "approved", "tokens" := blob])
    && Live(s.redis, code, now) && "verifier_hash" in s.redis[code].fields
      && s.redis[code].fields["verifier_hash"] == vh
  }

  // An approval under way overwrites whatever state the code is in by now, and a poll collects.
  lemma ApprovalThenPoll(s: System, t: nat, code: string, vh: string, blob: string, now: nat)
    requires ReadyToApprove(s, t, code, vh, blob, now)
    ensures var polled := Act(Act(s, Resume(t, now)), Begin(Poll(code, vh), now));
            var done := Act(polled, Resume(|s.threads|, now));
            && HandsOut(polled, Resume(|s.threads|, now)) == Some(blob)
            && |done.threads| == |s.threads| + 1
            && forall u: nat, b :: u != t && ReadyToApprove(s, u, code, vh, b, now) ==>
              ReadyToApprove(done, u, code, vh, b, now)
  {
    var polled := Act(Act(s, Resume(t, now)), Begin(Poll(code, vh), now));
    assert polled.threads[|s.threads|].plan == [PollScript(code, vh)];
  }

  lemma AfterSnoc(s: System, actions: seq<Action>, a: Action)
    ensures SystemAfter(s, actions + [a]) == Act(SystemAfter(s, actions), a)
  {
    assert (actions + [a])[..|actions|] == actions;
  }

  lemma AfterTwo(s: System, a: Action, b: Action)
    ensures SystemAfter(s, [a, b]) == Act(Act(s, a), b)
  {
    AfterSnoc(s, [], a);
    AfterSnoc(s, [a], b);
    assert [] + [a] == [a] && [a] + [b] == [a, b];
  }

  lemma AfterFour(s: System, a: Action, b: Action, c: Action, d: Action)
    ensures SystemAfter(s, [a, b, c, d]) == Act(Act(Act(Act(s, a), b), c), d)
  {
    AfterTwo(s, a, b);
    AfterSnoc(s, [a, b], c);
    AfterSnoc(s, [a, b, c], d);
    assert [a, b] + [c] == [a, b, c] && [a, b, c] + [d] == [a, b, c, d];
  }
}

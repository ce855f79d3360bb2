/** Login sessions: token families, refresh rotation and the expiring Redis blacklist. */
module SessionTokens {
  import opened Options

  datatype Kind = Access | Refresh

  // Times are milliseconds.
  datatype Claims = Claims(user: string, role: string, kind: Kind, family: string, jti: string, expires: nat)

  // A bearer string, and the claims it decodes to when its signature is not checked.
  datatype Token = Token(raw: string, claims: Option<Claims>)

  datatype Config = Config(accessTtl: nat, refreshTtl: nat) {
    // The start-up validation of the configuration (seconds).
    predicate Valid() { 0 < accessTtl < refreshTtl }
  }

  // Blacklist entries with their expiry, and every set of claims the server has signed: a token
  // verifies exactly when its claims are among them.
  datatype State = State(blacklist: map<string, nat>, signed: set<Claims>)

  predicate Listed(s: State, key: string, now: nat) {
    key in s.blacklist && now < s.blacklist[key]
  }

  function FamilyKey(family: string): string { "bl:family:" + family }

  function JtiKey(jti: string): string { "bl:" + jti }

  function List(s: State, cfg: Config, key: string, now: nat): State {
    s.(blacklist := s.blacklist[key := now + cfg.refreshTtl * 1000])
  }

  // Numeric dates in a token are whole seconds.
  function Signed(user: string, role: string, kind: Kind, family: string, jti: string, ttl: nat, now: nat): Claims {
    Claims(user, role, kind, family, jti, (now + ttl * 1000) / 1000 * 1000)
  }

  // The lifetime in seconds, from now, down to a whole second.
  function ExpiryAfter(ttl: nat, now: nat): (expires: nat)
    ensures expires <= now + ttl * 1000 < expires + 1000 && expires % 1000 == 0
  {
    now / 1000 * 1000 + ttl * 1000
  }

  lemma WholeSeconds(ttl: nat, now: nat)
    ensures (now + ttl * 1000) / 1000 * 1000 == ExpiryAfter(ttl, now)
  {
    assert (now + ttl * 1000) / 1000 == now / 1000 + ttl;
  }

  lemma SignedExpires(user: string, role: string, kind: Kind, family: string, jti: string, ttl: nat, now: nat)
    ensures Signed(user, role, kind, family, jti, ttl, now)
         == Claims(user, role, kind, family, jti, ExpiryAfter(ttl, now))
  {
    WholeSeconds(ttl, now);
  }

  // Random identifiers for one pair.
  datatype Ids = Ids(access: string, refresh: string, family: string)

  function PairOf(cfg: Config, user: string, role: string, family: string, ids: Ids, now: nat): set<Claims> {
    {Signed(user, role, Access, family, ids.access, cfg.accessTtl, now),
     Signed(user, role, Refresh, family, ids.refresh, cfg.refreshTtl, now)}
  }

  // Whether Parse accepts a token.
  predicate Accepts(s: State, t: Token, now: nat) {
    && t.claims.Some? && t.claims.value in s.signed && now < t.claims.value.expires
    && !(t.claims.value.family != "" && Listed(s, FamilyKey(t.claims.value.family), now))
    && !(t.claims.value.jti != "" && Listed(s, JtiKey(t.claims.value.jti), now))
    && !Listed(s, JtiKey(t.raw), now)
  }

  // ---- handlers, as functions of the state ----

  function AfterRevokeFamily(s: State, cfg: Config, family: string, now: nat): State {
    if family == "" then s else List(s, cfg, FamilyKey(family), now)
  }

  function AfterRevoke(s: State, cfg: Config, t: Token, now: nat): State {
    if t.raw == "" then s
    else if t.claims.Some? && t.claims.value.jti != "" then List(s, cfg, JtiKey(t.claims.value.jti), now)
    else List(s, cfg, JtiKey(t.raw), now)
  }

  // A refresh token whose identifier is already listed is being replayed.
  predicate Replayed(s: State, t: Token, now: nat) {
    t.claims.Some? && t.claims.value.jti != "" && Listed(s, JtiKey(t.claims.value.jti), now)
  }

  predicate Rotates(s: State, t: Token, active: bool, now: nat) {
    !Replayed(s, t, now) && Accepts(s, t, now) && t.claims.value.kind == Refresh && active
  }

  function RotatedFamily(c: Claims, ids: Ids): string {
    if c.family == "" then ids.family else c.family
  }

  function AfterRefresh(s: State, cfg: Config, t: Token, role: string, active: bool, ids: Ids, now: nat): State {
    if Replayed(s, t, now) then AfterRevokeFamily(s, cfg, t.claims.value.family, now)
    else if Rotates(s, t, active, now) then
      var c := t.claims.value;
      var listed := if c.jti == "" then s else List(s, cfg, JtiKey(c.jti), now);
      listed.(signed := s.signed + PairOf(cfg, c.user, role, RotatedFamily(c, ids), ids, now))
    else s
  }

  function AfterLogout(s: State, cfg: Config, refresh: Token, bearer: Option<Token>, now: nat): State {
    var s1 := AfterRevoke(s, cfg, refresh, now);
    if bearer.None? then s1
    else
      var s2 := AfterRevoke(s1, cfg, bearer.value, now);
      if bearer.value.claims.None? then s2 else AfterRevokeFamily(s2, cfg, bearer.value.claims.value.family, now)
  }

  // The refresh token that replaces one: same user and family, a new identifier, a full lifetime.
  function NextRefresh(cfg: Config, c: Claims, role: string, ids: Ids, now: nat): Claims {
    Claims(c.user, role, Refresh, if c.family == "" then ids.family else c.family, ids.refresh,
      ExpiryAfter(cfg.refreshTtl, now))
  }

  // It can itself be rotated, at any later time before it expires and its family is revoked.
  lemma NextCanBeRotated(s: State, cfg: Config, t: Token, role: string, ids: Ids, now: nat, raw: string, later: nat)
    requires cfg.Valid() && Rotates(s, t, true, now) && now <= later < ExpiryAfter(cfg.refreshTtl, now)
    requires var keys, c := {JtiKey(ids.refresh), JtiKey(raw)}, t.claims.value;
             keys !! s.blacklist.Keys + {JtiKey(c.jti)}
             && (c.family != "" ==> FamilyKey(c.family) != JtiKey(c.jti)
                                    && (FamilyKey(c.family) in s.blacklist ==> s.blacklist[FamilyKey(c.family)] <= now))
             && (c.family == "" ==> FamilyKey(ids.family) !in s.blacklist.Keys + {JtiKey(c.jti)})
    ensures Rotates(AfterRefresh(s, cfg, t, role, true, ids, now),
                Token(raw, Some(NextRefresh(cfg, t.claims.value, role, ids, now))),
              true, later)
  {
    var s', next := AfterRefresh(s, cfg, t, role, true, ids, now), NextRefresh(cfg, t.claims.value, role, ids, now);
    SignedExpires(t.claims.value.user, role, Refresh, RotatedFamily(t.claims.value, ids), ids.refresh, cfg.refreshTtl,
      now);
    assert next == Signed(t.claims.value.user, role, Refresh, RotatedFamily(t.claims.value, ids), ids.refresh,
        cfg.refreshTtl, now);
    assert next in s'.signed;
  }

  lemma FamilyIsNoJti(family: string, jti: string)
    ensures FamilyKey(family) == JtiKey(jti) ==> jti == "family:" + family
  {
    assert FamilyKey(family)[3..] == "family:" + family && JtiKey(jti)[3..] == jti;
  }

  // Revoking a token changes nothing for a token that shares no identifier with it.
  lemma RevokingSparesOthers(s: State, cfg: Config, t: Token, other: Token, now: nat, later: nat)
    requires t.claims.Some? && t.claims.value.jti != "" && other.claims.Some?
    requires t.claims.value.jti !in {other.claims.value.jti, other.raw, "family:" + other.claims.value.family}
    ensures Accepts(AfterRevoke(s, cfg, t, now), other, later) == Accepts(s, other, later)
  {
    var jti, c := t.claims.value.jti, other.claims.value;
    FamilyIsNoJti(c.family, jti);
    assert JtiKey(jti)[3..] == jti && JtiKey(c.jti)[3..] == c.jti && JtiKey(other.raw)[3..] == other.raw;
  }

  // Revoking a family changes nothing for tokens of others.
  lemma FamilySparesOthers(s: State, cfg: Config, family: string, other: Token, now: nat, later: nat)
    requires other.claims.Some? && other.claims.value.family != family
    requires "family:" + family !in {other.claims.value.jti, other.raw}
    ensures Accepts(AfterRevokeFamily(s, cfg, family, now), other, later) == Accepts(s, other, later)
  {
    var c := other.claims.value;
    FamilyIsNoJti(family, c.jti);
    FamilyIsNoJti(family, other.raw);
    assert FamilyKey(family)[10..] == family && FamilyKey(c.family)[10..] == c.family;
  }

  datatype Error = RefreshReuse | Unauthorized

  datatype Result<+T> = Ok(value: T) | Err(error: Error)

  class Manager {
    var state: State
    const cfg: Config

    constructor (cfg: Config)
      requires cfg.Valid()
      ensures this.cfg == cfg && state == State(map[], {})
    {
      this.cfg := cfg;
      state := State(map[], {});
    }

    method SetEx(key: string, now: nat)
      modifies this
      ensures state == List(old(state), cfg, key, now)
    {
      state := state.(blacklist := state.blacklist[key := now + cfg.refreshTtl * 1000]);
    }

    method IssuePair(user: string, role: string, family: string, ids: Ids, now: nat)
      returns (access: Claims, refresh: Claims)
      modifies this
      ensures {access, refresh} == PairOf(cfg, user, role, family, ids, now)
      ensures access == Claims(user, role, Access, family, ids.access, ExpiryAfter(cfg.accessTtl, now))
      ensures refresh == Claims(user, role, Refresh, family, ids.refresh, ExpiryAfter(cfg.refreshTtl, now))
      ensures state == old(state).(signed := old(state).signed + {access, refresh})
    {
      SignedExpires(user, role, Access, family, ids.access, cfg.accessTtl, now);
      SignedExpires(user, role, Refresh, family, ids.refresh, cfg.refreshTtl, now);
      access := Signed(user, role, Access, family, ids.access, cfg.accessTtl, now);
      refresh := Signed(user, role, Refresh, family, ids.refresh, cfg.refreshTtl, now);
      state := state.(signed := state.signed + {access, refresh});
    }

    method IssuePairForRefresh(user: string, role: string, family: string, ids: Ids, now: nat)
      returns (access: Claims, refresh: Claims)
      modifies this
      ensures {access, refresh} == PairOf(cfg, user, role, if family == "" then ids.family else family, ids, now)
      ensures refresh == Claims(user, role, Refresh, if family == "" then ids.family else family, ids.refresh,
                  ExpiryAfter(cfg.refreshTtl, now))
      ensures state == old(state).(signed := old(state).signed + {access, refresh})
    {
      var fam := family;
      if fam == "" {
        fam := ids.family;
      }
      access, refresh := IssuePair(user, role, fam, ids, now);
    }

    method Parse(t: Token, now: nat) returns (c: Option<Claims>)
      ensures c == if Accepts(state, t, now) then t.claims else None
    {
      if t.claims.None? || t.claims.value !in state.signed || now >= t.claims.value.expires { return None; }
      var claims := t.claims.value;
      if claims.family != "" {
        if Listed(state, FamilyKey(claims.family), now) { return None; }
      }
      if claims.jti != "" {
        if Listed(state, JtiKey(claims.jti), now) { return None; }
      }
      if Listed(state, JtiKey(t.raw), now) { return None; }
      c := Some(claims);
    }

    method RevokeFamily(family: string, now: nat)
      modifies this
      ensures state == AfterRevokeFamily(old(state), cfg, family, now)
    {
      if family == "" { return; }
      SetEx(FamilyKey(family), now);
    }

    method Revoke(t: Token, now: nat)
      modifies this
      ensures state == AfterRevoke(old(state), cfg, t, now)
    {
      if t.raw == "" { return; }
      if t.claims.Some? && t.claims.value.jti != "" {
        SetEx(JtiKey(t.claims.value.jti), now);
        return;
      }
      SetEx(JtiKey(t.raw), now);
    }

    method RevokeJti(jti: string, now: nat)
      modifies this
      ensures state == if jti == "" then old(state) else List(old(state), cfg, JtiKey(jti), now)
    {
      if jti == "" { return; }
      SetEx(JtiKey(jti), now);
    }

    method HandleRefresh(t: Token, role: string, active: bool, ids: Ids, now: nat) returns (r: Result<Claims>)
      modifies this
      ensures state == AfterRefresh(old(state), cfg, t, role, active, ids, now)
      ensures r.Ok? <==> Rotates(old(state), t, active, now)
      ensures r == Err(RefreshReuse) <==> Replayed(old(state), t, now)
      ensures r.Ok? ==> r.value == NextRefresh(cfg, t.claims.value, role, ids, now) && r.value in state.signed
    {
      if t.claims.Some? && t.claims.value.jti != "" && Listed(state, JtiKey(t.claims.value.jti), now) {
        if t.claims.value.family != "" {
          RevokeFamily(t.claims.value.family, now);
        }
        return Err(RefreshReuse);
      }
      var parsed := Parse(t, now);
      if parsed.None? || parsed.value.kind != Refresh { return Err(Unauthorized); }
      if !active { return Err(Unauthorized); }
      var claims := parsed.value;
      RevokeJti(claims.jti, now);
      var access, refresh := IssuePairForRefresh(claims.user, role, claims.family, ids, now);
      r := Ok(refresh);
    }

    method HandleLogout(refresh: Token, bearer: Option<Token>, now: nat)
      modifies this
      ensures state == AfterLogout(old(state), cfg, refresh, bearer, now)
    {
      Revoke(refresh, now);
      if bearer.Some? {
        Revoke(bearer.value, now);
        if bearer.value.claims.Some? && bearer.value.claims.value.family != "" {
          RevokeFamily(bearer.value.claims.value.family, now);
        }
      }
    }
  }

  // ---- runs ----

  datatype Event =
    | Login(user: string, role: string, ids: Ids)
    | Present(token: Token)   // an API call, checked by Parse
    | Rotate(token: Token, role: string, active: bool, ids: Ids)
    | Logout(refresh: Token, bearer: Option<Token>)
    | EndSession(jti: string)

  datatype Timed = Timed(event: Event, time: nat)

  function Step(s: State, cfg: Config, e: Timed): State {
    match e.event
    case Login(user, role, ids) => s.(signed := s.signed + PairOf(cfg, user, role, ids.family, ids, e.time))
    case Present(_) => s
    case Rotate(t, role, active, ids) => AfterRefresh(s, cfg, t, role, active, ids, e.time)
    case Logout(refresh, bearer) => AfterLogout(s, cfg, refresh, bearer, e.time)
    case EndSession(jti) => if jti == "" then s else List(s, cfg, JtiKey(jti), e.time)
  }

  function After(cfg: Config, es: seq<Timed>, n: nat): State
    requires n <= |es|
  {
    if n == 0 then State(map[], {}) else Step(After(cfg, es, n - 1), cfg, es[n-1])
  }

  function NewIds(e: Event): set<string> {
    match e
    case Login(_, _, ids) => {ids.access, ids.refresh, ids.family}
    case Rotate(_, _, _, ids) => {ids.access, ids.refresh, ids.family}
    case _ => {}
  }

  function FamilyOf(t: Token): string {
    if t.claims.Some? then t.claims.value.family else ""
  }

  // The family an event blacklists, "" for none.
  function Kills(s: State, e: Timed): string {
    match e.event
    case Rotate(t, _, _, _) => if Replayed(s, t, e.time) then FamilyOf(t) else ""
    case Logout(_, bearer) => if bearer.Some? then FamilyOf(bearer.value) else ""
    case _ => ""
  }

  // Whether Parse accepts, in this event, a token of the family.
  ghost predicate AcceptsFamily(s: State, e: Timed, family: string) {
    match e.event
    case Present(t) => Accepts(s, t, e.time) && FamilyOf(t) == family
    case Rotate(t, _, _, _) => !Replayed(s, t, e.time) && Accepts(s, t, e.time) && FamilyOf(t) == family
    case _ => false
  }

  // Whether the event signs a token of the family that was not signed before.
  ghost predicate IssuesFamily(s: State, cfg: Config, e: Timed, family: string) {
    exists c :: c in Step(s, cfg, e).signed && c !in s.signed && c.family == family
  }

  function Named(t: Token): set<string> {
    if t.claims.Some? then {t.claims.value.family, t.claims.value.jti} else {}
  }

  function Mentioned(e: Event): set<string> {
    match e
    case Login(_, _, _) => NewIds(e)
    case Present(t) => Named(t)
    case Rotate(t, _, _, _) => Named(t) + NewIds(e)
    case Logout(refresh, bearer) => Named(refresh) + if bearer.Some? then Named(bearer.value) else {}
    case EndSession(jti) => {jti}
  }

  // Time moves forward, and random identifiers are new: nobody named them before.
  ghost predicate ValidRun(es: seq<Timed>) {
    && (forall i, j :: 0 <= i < j < |es| ==> es[i].time <= es[j].time)
    && (forall i :: 0 <= i < |es| ==> "" !in NewIds(es[i].event))
    && (forall i, j :: 0 <= i < j < |es| ==> NewIds(es[j].event) !! Mentioned(es[i].event))
  }

  // Nothing signed or listed by now outlives a blacklist entry made now.
  ghost predicate Bounded(s: State, cfg: Config, now: nat) {
    && (forall c :: c in s.signed ==> c.expires <= now + cfg.refreshTtl * 1000 && c.jti != "" && c.family != "")
    && (forall k :: k in s.blacklist ==> s.blacklist[k] <= now + cfg.refreshTtl * 1000)
  }

  lemma PairBounded(cfg: Config, user: string, role: string, family: string, ids: Ids, now: nat, c: Claims)
    requires cfg.Valid() && c in PairOf(cfg, user, role, family, ids, now)
    requires "" !in {ids.access, ids.refresh, family}
    ensures c.expires <= now + cfg.refreshTtl * 1000 && c.family == family && c.jti != ""
  {
  }

  lemma BoundedStep(s: State, cfg: Config, e: Timed, now: nat)
    requires cfg.Valid() && Bounded(s, cfg, now) && now <= e.time && "" !in NewIds(e.event)
    ensures Bounded(Step(s, cfg, e), cfg, e.time)
  {
    forall c | c in Step(s, cfg, e).signed
      ensures c.expires <= e.time + cfg.refreshTtl * 1000 && c.jti != "" && c.family != ""
    {
      if c !in s.signed {
        if e.event.Login? {
          PairBounded(cfg, e.event.user, e.event.role, e.event.ids.family, e.event.ids, e.time, c);
        } else {
          var p := e.event.token.claims.value;
          PairBounded(cfg, p.user, e.event.role, RotatedFamily(p, e.event.ids), e.event.ids, e.time, c);
        }
      }
    }
  }

  function LastTime(es: seq<Timed>, n: nat): nat
    requires n <= |es|
  {
    if n == 0 then 0 else es[n-1].time
  }

  lemma {:induction false} RunIsBounded(cfg: Config, es: seq<Timed>, n: nat)
    requires cfg.Valid() && ValidRun(es) && n <= |es|
    ensures Bounded(After(cfg, es, n), cfg, LastTime(es, n))
  {
    if n > 0 {
      RunIsBounded(cfg, es, n - 1);
      BoundedStep(After(cfg, es, n - 1), cfg, es[n-1], LastTime(es, n - 1));
    }
  }

  // A blacklist entry is only ever pushed further out.
  lemma ListedLonger(s: State, cfg: Config, e: Timed, now: nat, key: string)
    requires cfg.Valid() && Bounded(s, cfg, now) && now <= e.time && key in s.blacklist
    ensures key in Step(s, cfg, e).blacklist && s.blacklist[key] <= Step(s, cfg, e).blacklist[key]
  {
  }

  // ---- a revoked family stays dead, although its blacklist entry expires ----

  // Revoked at `since`: every token of the family is dead by the time the entry is gone.
  ghost predicate Dead(s: State, cfg: Config, family: string, since: nat) {
    && family != ""
    && FamilyKey(family) in s.blacklist && since + cfg.refreshTtl * 1000 <= s.blacklist[FamilyKey(family)]
    && forall c :: c in s.signed && c.family == family ==> c.expires <= since + cfg.refreshTtl * 1000
  }

  lemma DeadIsRefused(s: State, cfg: Config, e: Timed, family: string, since: nat)
    requires Dead(s, cfg, family, since) && family !in NewIds(e.event)
    ensures !AcceptsFamily(s, e, family) && !IssuesFamily(s, cfg, e, family)
  {
    forall c | c in Step(s, cfg, e).signed && c !in s.signed
      ensures e.event.Login? || (e.event.Rotate? && Rotates(s, e.event.token, e.event.active, e.time)) {}
  }

  lemma DeadStep(s: State, cfg: Config, e: Timed, family: string, since: nat, now: nat)
    requires cfg.Valid() && Bounded(s, cfg, now) && now <= e.time
    requires Dead(s, cfg, family, since) && family !in NewIds(e.event)
    ensures Dead(Step(s, cfg, e), cfg, family, since)
  {
    DeadIsRefused(s, cfg, e, family, since);
    ListedLonger(s, cfg, e, now, FamilyKey(family));
    forall c | c in Step(s, cfg, e).signed && c.family == family ensures c in s.signed {
      assert c !in s.signed ==> IssuesFamily(s, cfg, e, family);
    }
  }

  lemma KillMakesDead(s: State, cfg: Config, e: Timed, now: nat)
    requires cfg.Valid() && Bounded(s, cfg, now) && now <= e.time && "" !in NewIds(e.event)
    requires Kills(s, e) != ""
    ensures Dead(Step(s, cfg, e), cfg, Kills(s, e), e.time) && Kills(s, e) in Mentioned(e.event)
  {
    BoundedStep(s, cfg, e, now);
  }

  lemma {:induction false} DeadInRun(cfg: Config, es: seq<Timed>, i: nat, j: nat, family: string)
    requires cfg.Valid() && ValidRun(es) && i < j <= |es|
    requires family != "" && Kills(After(cfg, es, i), es[i]) == family
    ensures Dead(After(cfg, es, j), cfg, family, es[i].time)
    decreases j
  {
    RunIsBounded(cfg, es, j - 1);
    if j == i + 1 {
      KillMakesDead(After(cfg, es, i), cfg, es[i], LastTime(es, i));
    } else {
      DeadInRun(cfg, es, i, j - 1, family);
      KillMentions(cfg, es, i, family);
      assert NewIds(es[j-1].event) !! Mentioned(es[i].event);
      DeadStep(After(cfg, es, j - 1), cfg, es[j-1], family, es[i].time, LastTime(es, j - 1));
    }
  }

  lemma KillMentions(cfg: Config, es: seq<Timed>, i: nat, family: string)
    requires i < |es| && family != "" && Kills(After(cfg, es, i), es[i]) == family
    ensures family in Mentioned(es[i].event)
  {
  }

  // Once a family is revoked, no token of it is ever accepted or issued again.
  lemma RevokedFamilyStaysDead(cfg: Config, es: seq<Timed>, i: nat, j: nat, family: string)
    requires cfg.Valid() && ValidRun(es) && i < j < |es|
    requires family != "" && Kills(After(cfg, es, i), es[i]) == family
    ensures !AcceptsFamily(After(cfg, es, j), es[j], family)
    ensures !IssuesFamily(After(cfg, es, j), cfg, es[j], family)
  {
    DeadInRun(cfg, es, i, j, family);
    KillMentions(cfg, es, i, family);
    assert NewIds(es[j].event) !! Mentioned(es[i].event);
    DeadIsRefused(After(cfg, es, j), cfg, es[j], family, es[i].time);
  }

  // ---- a refresh token is rotated at most once ----

  ghost predicate RotatesAt(cfg: Config, es: seq<Timed>, i: nat, c: Claims)
    requires i < |es|
  {
    es[i].event.Rotate? && es[i].event.token.claims == Some(c)
    && Rotates(After(cfg, es, i), es[i].event.token, es[i].event.active, es[i].time)
  }

  // The identifier stays listed for as long as the token lives.
  ghost predicate Spent(s: State, c: Claims) {
    JtiKey(c.jti) in s.blacklist && c.expires <= s.blacklist[JtiKey(c.jti)]
  }

  lemma {:induction false} RotationSpends(cfg: Config, es: seq<Timed>, i: nat, j: nat, c: Claims)
    requires cfg.Valid() && ValidRun(es) && i < j <= |es| && RotatesAt(cfg, es, i, c)
    ensures Spent(After(cfg, es, j), c) && c.jti != "" && c.family != ""
    decreases j
  {
    RunIsBounded(cfg, es, j - 1);
    if j == i + 1 {
      assert c in After(cfg, es, i).signed;
    } else {
      RotationSpends(cfg, es, i, j - 1, c);
      ListedLonger(After(cfg, es, j - 1), cfg, es[j-1], LastTime(es, j - 1), JtiKey(c.jti));
    }
  }

  lemma RotatedAtMostOnce(cfg: Config, es: seq<Timed>, i: nat, j: nat, c: Claims)
    requires cfg.Valid() && ValidRun(es) && i < |es| && j < |es|
    requires RotatesAt(cfg, es, i, c) && RotatesAt(cfg, es, j, c)
    ensures i == j
  {
    if i < j {
      RotationSpends(cfg, es, i, j, c);
    } else if j < i {
      RotationSpends(cfg, es, j, i, c);
    }
  }

  // Presenting a rotated refresh token again before it expires kills its family for good.
  lemma ReplayKillsFamily(cfg: Config, es: seq<Timed>, i: nat, j: nat, c: Claims)
    requires cfg.Valid() && ValidRun(es) && i < j < |es| && RotatesAt(cfg, es, i, c)
    requires es[j].event.Rotate? && es[j].event.token.claims == Some(c) && es[j].time < c.expires
    ensures Kills(After(cfg, es, j), es[j]) == c.family != ""
    ensures forall k :: j < k < |es| ==>
              !AcceptsFamily(After(cfg, es, k), es[k], c.family)
                && !IssuesFamily(After(cfg, es, k), cfg, es[k], c.family)
  {
    RotationSpends(cfg, es, i, j, c);
    forall k | j < k < |es|
      ensures !AcceptsFamily(After(cfg, es, k), es[k], c.family)
              && !IssuesFamily(After(cfg, es, k), cfg, es[k], c.family)
    {
      RevokedFamilyStaysDead(cfg, es, j, k, c.family);
    }
  }
}

/** WebSocket subscriptions: the browser client, the hub's reader loop and the in-memory broker. */
module Subscriptions {
  import opened Options

  // ---- broker ----

  // One registered callback, and the connection whose outbound queue it feeds.
  datatype Callback = Callback(id: nat, conn: nat)

  datatype Broker = Broker(subs: map<string, set<Callback>>, next: nat) {
    function Receivers(topic: string): set<Callback> {
      if topic in subs then subs[topic] else {}
    }

    function Subscribe(topic: string, conn: nat): Broker {
      Broker(subs[topic := Receivers(topic) + {Callback(next, conn)}], next + 1)
    }

    function Unsubscribe(topic: string, c: Callback): Broker {
      if Receivers(topic) - {c} == {} then Broker(subs - {topic}, next)
      else Broker(subs[topic := subs[topic] - {c}], next)
    }
  }

  class InMemoryBroker {
    var subs: map<string, set<Callback>>
    var next: nat

    constructor ()
      ensures View() == Broker(map[], 0)
    {
      subs, next := map[], 0;
    }

    function View(): Broker
      reads this
    {
      Broker(subs, next)
    }

    method Subscribe(topic: string, conn: nat) returns (c: Callback)
      modifies this
      ensures View() == old(View()).Subscribe(topic, conn) && c == Callback(old(next), conn)
    {
      c := Callback(next, conn);
      next := next + 1;
      if topic !in subs {
        subs := subs[topic := {}];
      }
      subs := subs[topic := subs[topic] + {c}];
    }

    method Unsubscribe(topic: string, c: Callback)
      modifies this
      ensures View() == old(View()).Unsubscribe(topic, c)
    {
      if topic in subs {
        subs := subs[topic := subs[topic] - {c}];
        if subs[topic] == {} {
          subs := subs - {topic};
        }
      }
    }

    // Calls every callback registered for the topic, in no particular order, exactly once.
    method Publish(topic: string) returns (called: seq<Callback>)
      ensures multiset(called) == multiset(View().Receivers(topic))
    {
      var receivers := if topic in subs then subs[topic] else {};
      called := [];
      while receivers != {}
        invariant multiset(called) + multiset(receivers) == multiset(View().Receivers(topic))
        decreases receivers
      {
        var s :| s in receivers;
        called := called + [s];
        receivers := receivers - {s};
      }
    }
  }

  // ---- server side of one connection ----

  datatype Frame = Auth(token: string) | SubTopic(topic: string) | UnsubTopic(topic: string) | Ping

  datatype Reply = AuthOk(user: string) | Error(reason: string) | Pong

  datatype Conn = Conn(id: nat, alive: bool, authed: bool, user: string, unsubs: map<string, Callback>)

  function UserTopic(user: string): string {
    "user:" + user
  }

  predicate HasPrefix(s: string, p: string) {
    p <= s
  }

  predicate IsAllowedTopic(topic: string, user: string) {
    if topic == "" then false
    else if HasPrefix(topic, "user:") then topic[5..] == user
    else !HasPrefix(topic, "admin:")
  }

  function Attach(conn: Conn, broker: Broker, topic: string): (Conn, Broker) {
    var cleared := if topic in conn.unsubs then broker.Unsubscribe(topic, conn.unsubs[topic]) else broker;
    (conn.(unsubs := conn.unsubs[topic := Callback(cleared.next, conn.id)]), cleared.Subscribe(topic, conn.id))
  }

  // What reading one frame does; authorize gives "" for a bad token.
  function Serve(conn: Conn, broker: Broker, f: Frame, authorize: string -> string): (Conn, Broker, seq<Reply>) {
    match f
    case Auth(token) =>
      var user := authorize(token);
      if user == "" then (conn.(alive := false), broker, [Error("invalid token")])
      else
        var (c, b) := Attach(conn.(user := user, authed := true), broker, UserTopic(user));
        (c, b, [AuthOk(user)])
    case SubTopic(topic) =>
      if !conn.authed then (conn, broker, [Error("auth required")])
      else if !IsAllowedTopic(topic, conn.user) then (conn, broker, [Error("forbidden topic")])
      else var (c, b) := Attach(conn, broker, topic); (c, b, [])
    case UnsubTopic(topic) =>
      if topic in conn.unsubs
      then (conn.(unsubs := conn.unsubs - {topic}), broker.Unsubscribe(topic, conn.unsubs[topic]), [])
      else (conn, broker, [])
    case Ping => (conn, broker, [Pong])
  }

  class Connection {
    const id: nat
    const broker: InMemoryBroker
    var alive: bool
    var authed: bool
    var user: string
    var unsubs: map<string, Callback>

    constructor (id: nat, broker: InMemoryBroker)
      ensures this.broker == broker && View() == Conn(id, true, false, "", map[])
    {
      this.id, this.broker := id, broker;
      alive, authed, user, unsubs := true, false, "", map[];
    }

    function View(): Conn
      reads this
    {
      Conn(id, alive, authed, user, unsubs)
    }

    method AttachSub(topic: string)
      modifies this, broker
      ensures (View(), broker.View()) == Attach(old(View()), old(broker.View()), topic)
    {
      if topic in unsubs {
        broker.Unsubscribe(topic, unsubs[topic]);
      }
      var unsub := broker.Subscribe(topic, id);
      unsubs := unsubs[topic := unsub];
    }

    // One turn of the reader loop.
    method HandleFrame(f: Frame, authorize: string -> string) returns (out: seq<Reply>)
      modifies this, broker
      ensures (View(), broker.View(), out) == Serve(old(View()), old(broker.View()), f, authorize)
    {
      out := [];
      match f {
        case Auth(token) =>
          var uid := authorize(token);
          if uid == "" {
            alive := false;
            return [Error("invalid token")];
          }
          user := uid;
          authed := true;
          AttachSub("user:" + uid);
          out := [AuthOk(uid)];
        case SubTopic(topic) =>
          if !authed { return [Error("auth required")]; }
          if !IsAllowedTopic(topic, user) { return [Error("forbidden topic")]; }
          AttachSub(topic);
        case UnsubTopic(topic) =>
          if topic in unsubs {
            broker.Unsubscribe(topic, unsubs[topic]);
            unsubs := unsubs - {topic};
          }
        case Ping =>
          out := [Pong];
      }
    }
  }

  // ---- client ----

  // Listener functions are named by numbers. The subscribed set keeps insertion order, as iteration does.
  datatype Client = Client(listeners: map<string, set<nat>>, subscribed: seq<string>, open: bool, authed: bool,
                           pending: seq<Frame>)

  function Without(topics: seq<string>, topic: string): seq<string> {
    if topics == [] then []
    else if topics[0] == topic then Without(topics[1..], topic) else [topics[0]] + Without(topics[1..], topic)
  }

  function Replay(topics: seq<string>): seq<Frame> {
    seq(|topics|, i requires 0 <= i < |topics| => SubTopic(topics[i]))
  }

  // Each client step gives the new client and the frames it sends.
  function SendOrQueue(c: Client, f: Frame): (Client, seq<Frame>) {
    if c.open && c.authed then (c, [f]) else (c.(pending := c.pending + [f]), [])
  }

  function ClientSubscribe(c: Client, topic: string, fn: nat): (Client, seq<Frame>) {
    var fns := (if topic in c.listeners then c.listeners[topic] else {}) + {fn};
    var c1 := c.(listeners := c.listeners[topic := fns]);
    if |fns| == 1
    then SendOrQueue(c1.(subscribed := if topic in c.subscribed then c.subscribed else c.subscribed + [topic]),
      SubTopic(topic))
    else (c1, [])
  }

  function ClientUnsubscribe(c: Client, topic: string, fn: nat): (Client, seq<Frame>) {
    if topic !in c.listeners then (c, [])
    else
      var fns := c.listeners[topic] - {fn};
      if fns == {}
      then SendOrQueue(c.(listeners := c.listeners - {topic}, subscribed := Without(c.subscribed, topic)),
        UnsubTopic(topic))
      else (c.(listeners := c.listeners[topic := fns]), [])
  }

  function ClientReceive(c: Client, r: Reply): (Client, seq<Frame>) {
    if r.AuthOk? then (c.(authed := true, pending := []), Replay(c.subscribed) + c.pending) else (c, [])
  }

  class MyCloudWS {
    var listeners: map<string, set<nat>>
    var subscribed: seq<string>
    var open: bool
    var authed: bool
    var pending: seq<Frame>
    var sent: seq<Frame> // what this socket has been given to send

    constructor ()
      ensures View() == Client(map[], [], false, false, []) && sent == []
    {
      listeners, subscribed, open, authed, pending, sent := map[], [], false, false, [], [];
    }

    function View(): Client
      reads this
    {
      Client(listeners, subscribed, open, authed, pending)
    }

    method SendOrQueueFrame(f: Frame)
      modifies this
      ensures var (c, fs) := SendOrQueue(old(View()), f); View() == c && sent == old(sent) + fs
    {
      if open && authed {
        sent := sent + [f];
      } else {
        pending := pending + [f];
      }
    }

    method Subscribe(topic: string, fn: nat)
      modifies this
      ensures var (c, fs) := ClientSubscribe(old(View()), topic, fn); View() == c && sent == old(sent) + fs
    {
      var fns := {};
      if topic in listeners {
        fns := listeners[topic];
      }
      fns := fns + {fn};
      listeners := listeners[topic := fns];
      if |fns| == 1 {
        if topic !in subscribed {
          subscribed := subscribed + [topic];
        }
        SendOrQueueFrame(SubTopic(topic));
      }
    }

    method Unsubscribe(topic: string, fn: nat)
      modifies this
      ensures var (c, fs) := ClientUnsubscribe(old(View()), topic, fn); View() == c && sent == old(sent) + fs
    {
      if topic !in listeners { return; }
      var cur := listeners[topic] - {fn};
      listeners := listeners[topic := cur];
      if cur == {} {
        listeners := listeners - {topic};
        subscribed := Without(subscribed, topic);
        SendOrQueueFrame(UnsubTopic(topic));
      }
    }

    method OnMessage(r: Reply)
      modifies this
      ensures var (c, fs) := ClientReceive(old(View()), r); View() == c && sent == old(sent) + fs
    {
      if r.AuthOk? {
        authed := true;
        for i := 0 to |subscribed|
          invariant View() == old(View()).(authed := true)
          invariant sent == old(sent) + Replay(subscribed)[..i]
        {
          sent := sent + [SubTopic(subscribed[i])];
        }
        for i := 0 to |pending|
          invariant View() == old(View()).(authed := true)
          invariant sent == old(sent) + Replay(subscribed) + pending[..i]
        {
          sent := sent + [pending[i]];
        }
        pending := [];
      }
    }
  }

  // ---- client, network and server together ----

  // One socket at a time. `up` and `down` are the frames in flight; `conns` numbers connections.
  datatype System = System(client: Client, conn: Option<Conn>, up: seq<Frame>, down: seq<Reply>, broker: Broker,
    conns: nat)

  datatype Action =
    | Subscribe(topic: string, fn: nat)
    | Unsubscribe(topic: string, fn: nat)
    | Connect
    | Open(token: Option<string>)   // onopen, with the access token if there is one
    | ServerRead
    | ClientRead
    | Close
    | OtherConnect                  // the other clients of the same hub
    | OtherSubscribe(topic: string, conn: nat)
    | OtherUnsubscribe(topic: string, callback: Callback)

  function Own(s: System, conn: nat): bool {
    s.conn.Some? && s.conn.value.id == conn
  }

  function Step(s: System, a: Action, authorize: string -> string): System {
    match a
    case Subscribe(topic, fn) =>
      var (c, fs) := ClientSubscribe(s.client, topic, fn);
      s.(client := c, up := s.up + fs)
    case Unsubscribe(topic, fn) =>
      var (c, fs) := ClientUnsubscribe(s.client, topic, fn);
      s.(client := c, up := s.up + fs)
    case Connect =>
      if s.conn.Some? then s
      else s.(conn := Some(Conn(s.conns, true, false, "", map[])), conns := s.conns + 1, up := [], down := [])
    case Open(token) =>
      if s.conn.None? || s.client.open then s
      else s.(client := s.client.(open := true), up := if token.Some? then [Auth(token.value)] else [])
    case ServerRead =>
      if s.conn.None? || !s.conn.value.alive || s.up == [] then s
      else
        var (c, b, out) := Serve(s.conn.value, s.broker, s.up[0], authorize);
        s.(conn := Some(c), broker := b, up := s.up[1..], down := s.down + out)
    case ClientRead =>
      if !s.client.open || s.down == [] then s
      else
        var (c, fs) := ClientReceive(s.client, s.down[0]);
        s.(client := c, up := s.up + fs, down := s.down[1..])
    case Close =>
      s.(client := s.client.(open := false, authed := false), conn := None, up := [], down := [])
    case OtherConnect => s.(conns := s.conns + 1)
    case OtherSubscribe(topic, conn) =>
      if Own(s, conn) || conn >= s.conns then s else s.(broker := s.broker.Subscribe(topic, conn))
    case OtherUnsubscribe(topic, callback) =>
      if Own(s, callback.conn) then s else s.(broker := s.broker.Unsubscribe(topic, callback))
  }

  const START := System(Client(map[], [], false, false, []), None, [], [], Broker(map[], 0), 0)

  function Run(actions: seq<Action>, authorize: string -> string): System
    decreases |actions|
  {
    if actions == [] then START
    else Step(Run(actions[..|actions|-1], authorize), actions[|actions|-1], authorize)
  }

  // The last word on a topic in a run of frames: Some(true) for sub, Some(false) for unsub.
  function LastWord(fs: seq<Frame>, topic: string): Option<bool> {
    if fs == [] then None
    else
      var f := fs[|fs|-1];
      if f == SubTopic(topic) then Some(true)
      else if f == UnsubTopic(topic) then Some(false)
      else LastWord(fs[..|fs|-1], topic)
  }

  // Whether the server holds the topic once it has read the frames in flight.
  function Eventually(unsubs: map<string, Callback>, fs: seq<Frame>, user: string, topic: string): bool {
    match LastWord(fs, topic)
    case None => topic in unsubs
    case Some(sub) => sub && IsAllowedTopic(topic, user)
  }

  ghost predicate ClientOk(c: Client) {
    && (forall t :: t in c.listeners <==> t in c.subscribed)
    && (forall t :: t in c.listeners ==> c.listeners[t] != {})
    && (c.authed ==> c.open && c.pending == [])
    && (forall t :: LastWord(c.pending, t).Some? ==> LastWord(c.pending, t).value == (t in c.subscribed))
    && NoAuth(c.pending)
  }

  ghost predicate NoAuth(fs: seq<Frame>) {
    forall f :: f in fs ==> !f.Auth?
  }

  // The callbacks of one connection.
  function Of(b: Broker, topic: string, conn: nat): set<Callback> {
    set c | c in b.Receivers(topic) && c.conn == conn
  }

  ghost predicate BrokerOk(b: Broker, conns: nat) {
    forall t, c :: c in b.Receivers(t) ==> c.id < b.next && c.conn < conns
  }

  // The broker holds exactly one callback of the connection for each topic it is subscribed to.
  ghost predicate OneCallbackEach(conn: Conn, b: Broker) {
    forall t :: Of(b, t, conn.id) == if t in conn.unsubs then {conn.unsubs[t]} else {}
  }

  function AuthOks(down: seq<Reply>): nat {
    if down == [] then 0 else AuthOks(down[..|down|-1]) + if down[|down|-1].AuthOk? then 1 else 0
  }

  ghost predicate Agreeing(s: System)
    requires s.conn.Some?
  {
    forall t :: t != UserTopic(s.conn.value.user) ==>
      Eventually(s.conn.value.unsubs, s.up, s.conn.value.user, t)
      == (t in s.client.subscribed && IsAllowedTopic(t, s.conn.value.user))
  }

  ghost predicate Permitted(conn: Conn) {
    forall t :: t in conn.unsubs ==> IsAllowedTopic(t, conn.user)
  }

  ghost predicate ConnOk(s: System)
    requires s.conn.Some?
  {
    var conn := s.conn.value;
    && conn.id < s.conns && OneCallbackEach(conn, s.broker)
    && (!s.client.open ==> s.up == [] && s.down == [] && !conn.authed)
    && (!conn.authed ==> conn.unsubs == map[] && AuthOks(s.down) == 0 && !s.client.authed
                         && (s.up == [] || (|s.up| == 1 && s.up[0].Auth?)))
    && (conn.authed ==> NoAuth(s.up)) && Permitted(conn)
    && (conn.authed && !s.client.authed ==>
          s.up == [] && AuthOks(s.down) == 1 && conn.unsubs.Keys <= {UserTopic(conn.user)})
    && (s.client.authed ==> conn.authed && AuthOks(s.down) == 0 && Agreeing(s))
  }

  ghost predicate Inv(s: System) {
    && ClientOk(s.client) && BrokerOk(s.broker, s.conns)
    && (s.conn.None? ==> !s.client.open && s.up == [] && s.down == [])
    && (s.conn.Some? ==> ConnOk(s))
  }

  // ---- frames ----

  lemma {:induction false} LastWordConcat(fs: seq<Frame>, gs: seq<Frame>, topic: string)
    ensures LastWord(fs + gs, topic) == if LastWord(gs, topic).Some? then LastWord(gs, topic) else LastWord(fs, topic)
  {
    if gs == [] {
      assert fs + gs == fs;
    } else {
      LastWordConcat(fs, gs[..|gs|-1], topic);
      assert (fs + gs)[..|fs + gs|-1] == fs + gs[..|gs|-1];
    }
  }

  lemma LastWordOne(f: Frame, topic: string)
    ensures LastWord([f], topic) ==
              if f == SubTopic(topic) then Some(true) else if f == UnsubTopic(topic) then Some(false) else None
  {
    assert [f][..0] == [];
  }

  lemma {:induction false} LastWordOfReplay(topics: seq<string>, topic: string)
    ensures LastWord(Replay(topics), topic) == if topic in topics then Some(true) else None
  {
    if topics != [] {
      var init := topics[..|topics|-1];
      LastWordOfReplay(init, topic);
      assert Replay(topics)[..|topics|-1] == Replay(init);
      assert topics == init + [topics[|topics|-1]];
    }
  }

  lemma {:induction false} WithoutMembers(topics: seq<string>, topic: string, t: string)
    ensures t in Without(topics, topic) <==> t in topics && t != topic
  {
    if topics != [] {
      WithoutMembers(topics[1..], topic, t);
      assert topics == [topics[0]] + topics[1..];
    }
  }

  // ---- client steps ----

  // What is sent speaks the truth about the topics it names, and the others are as before.
  ghost predicate Truthful(c: Client, c': Client, fs: seq<Frame>) {
    forall t :: t in c'.subscribed <==> if LastWord(fs, t).Some? then LastWord(fs, t).value else t in c.subscribed
  }

  ghost predicate GoodClientStep(c: Client, c': Client, fs: seq<Frame>) {
    && ClientOk(c') && c'.open == c.open && c'.authed == c.authed && NoAuth(fs)
    && (c.authed ==> Truthful(c, c', fs)) && (!c.authed ==> fs == [])
  }

  // A frame about a topic whose subscription just became `now`.
  lemma SendGood(c: Client, c1: Client, topic: string, f: Frame)
    requires ClientOk(c) && c1.open == c.open && c1.authed == c.authed && c1.pending == c.pending
    requires forall t :: t in c1.listeners <==> t in c1.subscribed
    requires forall t :: t in c1.listeners ==> c1.listeners[t] != {}
    requires forall t :: t != topic ==> (t in c1.subscribed <==> t in c.subscribed)
    requires f == if topic in c1.subscribed then SubTopic(topic) else UnsubTopic(topic)
    ensures GoodClientStep(c, SendOrQueue(c1, f).0, SendOrQueue(c1, f).1)
  {
    forall t ensures LastWord(c.pending + [f], t) ==
                       if LastWord([f], t).Some? then LastWord([f], t) else LastWord(c.pending, t) {
      LastWordConcat(c.pending, [f], t);
    }
    forall t ensures LastWord([f], t) == if t == topic then Some(topic in c1.subscribed) else None {
      LastWordOne(f, t);
    }
  }

  lemma SubscribeGood(c: Client, topic: string, fn: nat)
    requires ClientOk(c)
    ensures GoodClientStep(c, ClientSubscribe(c, topic, fn).0, ClientSubscribe(c, topic, fn).1)
  {
    var fns := (if topic in c.listeners then c.listeners[topic] else {}) + {fn};
    var c1 := c.(listeners := c.listeners[topic := fns]);
    if |fns| == 1 {
      var subs := if topic in c.subscribed then c.subscribed else c.subscribed + [topic];
      assert forall t :: t in subs <==> t in c.subscribed || t == topic;
      SendGood(c, c1.(subscribed := subs), topic, SubTopic(topic));
    } else {
      MoreThanOne(if topic in c.listeners then c.listeners[topic] else {}, fn);
    }
  }

  lemma MoreThanOne(fns: set<nat>, fn: nat)
    requires |fns + {fn}| != 1
    ensures fns != {}
  {
    assert fns == {} ==> fns + {fn} == {fn};
  }

  lemma UnsubscribeGood(c: Client, topic: string, fn: nat)
    requires ClientOk(c)
    ensures GoodClientStep(c, ClientUnsubscribe(c, topic, fn).0, ClientUnsubscribe(c, topic, fn).1)
  {
    if topic in c.listeners && c.listeners[topic] - {fn} == {} {
      forall t ensures t in Without(c.subscribed, topic) <==> t in c.subscribed && t != topic {
        WithoutMembers(c.subscribed, topic, t);
      }
      SendGood(c, c.(listeners := c.listeners - {topic}, subscribed := Without(c.subscribed, topic)), topic,
        UnsubTopic(topic));
    }
  }

  lemma ClientStepKeepsInv(s: System, c: Client, fs: seq<Frame>)
    requires Inv(s) && GoodClientStep(s.client, c, fs)
    ensures Inv(s.(client := c, up := s.up + fs))
  {
    var s' := s.(client := c, up := s.up + fs);
    if !s.client.authed {
      assert s.up + fs == s.up;
    } else {
      forall t | t != UserTopic(s.conn.value.user)
        ensures Eventually(s.conn.value.unsubs, s'.up, s.conn.value.user, t)
                == (t in c.subscribed && IsAllowedTopic(t, s.conn.value.user))
      {
        LastWordConcat(s.up, fs, t);
        assert Eventually(s.conn.value.unsubs, s.up, s.conn.value.user, t)
               == (t in s.client.subscribed && IsAllowedTopic(t, s.conn.value.user));
      }
    }
  }

  // ---- authentication reaches the client ----

  lemma {:induction false} AuthOksConcat(a: seq<Reply>, b: seq<Reply>)
    ensures AuthOks(a + b) == AuthOks(a) + AuthOks(b)
  {
    if b == [] {
      assert a + b == a;
    } else {
      AuthOksConcat(a, b[..|b|-1]);
      assert (a + b)[..|a + b|-1] == a + b[..|b|-1];
    }
  }

  lemma AuthOksOne(r: Reply)
    ensures AuthOks([r]) == if r.AuthOk? then 1 else 0
  {
    assert [r][..0] == [];
  }

  lemma AuthOksHead(down: seq<Reply>)
    requires down != []
    ensures AuthOks(down) == AuthOks(down[1..]) + if down[0].AuthOk? then 1 else 0
  {
    AuthOksConcat([down[0]], down[1..]);
    AuthOksOne(down[0]);
    assert [down[0]] + down[1..] == down;
  }

  // On AuthOk the client replays its topics and then what it had queued; the last word on each topic
  // is right either way.
  lemma ReplayAgrees(s: System)
    requires Inv(s) && s.conn.Some? && s.conn.value.authed && !s.client.authed
    ensures var fs := Replay(s.client.subscribed) + s.client.pending;
            NoAuth(fs) && Agreeing(s.(client := s.client.(authed := true, pending := []), up := s.up + fs))
  {
    var fs := Replay(s.client.subscribed) + s.client.pending;
    var conn := s.conn.value;
    forall t | t != UserTopic(conn.user)
      ensures Eventually(conn.unsubs, s.up + fs, conn.user, t)
              == (t in s.client.subscribed && IsAllowedTopic(t, conn.user))
    {
      assert s.up + fs == fs;
      LastWordConcat(Replay(s.client.subscribed), s.client.pending, t);
      LastWordOfReplay(s.client.subscribed, t);
    }
    forall f | f in fs ensures !f.Auth? {
      if f !in s.client.pending { assert f in Replay(s.client.subscribed); }
    }
  }

  lemma ClientReadKeepsInv(s: System)
    requires Inv(s) && s.client.open && s.down != []
    ensures var (c, fs) := ClientReceive(s.client, s.down[0]);
            Inv(s.(client := c, up := s.up + fs, down := s.down[1..]))
  {
    AuthOksHead(s.down);
    if s.down[0].AuthOk? {
      ReplayAgrees(s);
    } else {
      assert s.up + [] == s.up;
    }
  }

  // ---- server steps ----

  lemma SubscribeOf(b: Broker, topic: string, conn: nat, conns: nat, t: string, k: nat)
    requires BrokerOk(b, conns) && conn < conns
    ensures BrokerOk(b.Subscribe(topic, conn), conns)
    ensures Of(b.Subscribe(topic, conn), t, k) ==
              if t == topic && k == conn then Of(b, t, k) + {Callback(b.next, conn)} else Of(b, t, k)
  {
    var b' := b.Subscribe(topic, conn);
    assert forall u ::
      b'.Receivers(u) == if u == topic then b.Receivers(u) + {Callback(b.next, conn)} else b.Receivers(u);
  }

  lemma UnsubscribeReceivers(b: Broker, topic: string, c: Callback, t: string)
    ensures b.Unsubscribe(topic, c).Receivers(t) == if t == topic then b.Receivers(t) - {c} else b.Receivers(t)
  {
    var b' := b.Unsubscribe(topic, c);
    if b.Receivers(topic) - {c} == {} && t == topic {
      assert t !in b'.subs;
      assert b.Receivers(t) - {c} == {};
    }
  }

  lemma UnsubscribeOf(b: Broker, topic: string, c: Callback, conns: nat, t: string, k: nat)
    requires BrokerOk(b, conns)
    ensures BrokerOk(b.Unsubscribe(topic, c), conns)
    ensures Of(b.Unsubscribe(topic, c), t, k) == if t == topic then Of(b, t, k) - {c} else Of(b, t, k)
  {
    forall u ensures b.Unsubscribe(topic, c).Receivers(u) == if u == topic then b.Receivers(u) - {c} else b.Receivers(u)
    {
      UnsubscribeReceivers(b, topic, c, u);
    }
  }

  lemma AttachGood(conn: Conn, b: Broker, topic: string, conns: nat)
    requires OneCallbackEach(conn, b) && BrokerOk(b, conns) && conn.id < conns
    ensures var (c', b') := Attach(conn, b, topic);
            OneCallbackEach(c', b') && BrokerOk(b', conns) && c' == conn.(unsubs := c'.unsubs)
            && c'.unsubs.Keys == conn.unsubs.Keys + {topic}
  {
    var cleared := if topic in conn.unsubs then b.Unsubscribe(topic, conn.unsubs[topic]) else b;
    var (c', b') := Attach(conn, b, topic);
    forall t ensures BrokerOk(cleared, conns) && Of(cleared, t, conn.id) ==
                       if t == topic then {} else if t in conn.unsubs then {conn.unsubs[t]} else {} {
      if topic in conn.unsubs { UnsubscribeOf(b, topic, conn.unsubs[topic], conns, t, conn.id); }
    }
    forall t ensures BrokerOk(b', conns) && Of(b', t, conn.id) == if t in c'.unsubs then {c'.unsubs[t]} else {} {
      SubscribeOf(cleared, topic, conn.id, conns, t, conn.id);
    }
  }

  lemma DetachGood(conn: Conn, b: Broker, topic: string, conns: nat)
    requires OneCallbackEach(conn, b) && BrokerOk(b, conns) && topic in conn.unsubs
    ensures OneCallbackEach(conn.(unsubs := conn.unsubs - {topic}), b.Unsubscribe(topic, conn.unsubs[topic]))
    ensures BrokerOk(b.Unsubscribe(topic, conn.unsubs[topic]), conns)
  {
    var c', b' := conn.(unsubs := conn.unsubs - {topic}), b.Unsubscribe(topic, conn.unsubs[topic]);
    forall t ensures BrokerOk(b', conns) && Of(b', t, conn.id) == if t in c'.unsubs then {c'.unsubs[t]} else {} {
      UnsubscribeOf(b, topic, conn.unsubs[topic], conns, t, conn.id);
    }
  }

  lemma ServeGood(conn: Conn, b: Broker, f: Frame, conns: nat, authorize: string -> string)
    requires OneCallbackEach(conn, b) && BrokerOk(b, conns) && conn.id < conns
    ensures var (c', b', out) := Serve(conn, b, f, authorize);
            OneCallbackEach(c', b') && BrokerOk(b', conns) && c'.id == conn.id
  {
    match f
    case Auth(token) =>
      if authorize(token) != "" {
        AttachGood(conn.(user := authorize(token), authed := true), b, UserTopic(authorize(token)), conns);
      }
    case SubTopic(topic) =>
      AttachGood(conn, b, topic, conns);
    case UnsubTopic(topic) =>
      if topic in conn.unsubs { DetachGood(conn, b, topic, conns); }
    case Ping =>
  }

  // Serving a frame of an authenticated connection does what the frame was counted for.
  lemma ServeDoesTheWord(conn: Conn, b: Broker, f: Frame, rest: seq<Frame>, authorize: string -> string, topic: string)
    requires conn.authed && !f.Auth? && Permitted(conn)
    ensures var (c', b', out) := Serve(conn, b, f, authorize);
            c'.user == conn.user && c'.authed && AuthOks(out) == 0 && Permitted(c')
            && Eventually(c'.unsubs, rest, conn.user, topic) == Eventually(conn.unsubs, [f] + rest, conn.user, topic)
  {
    LastWordConcat([f], rest, topic);
    LastWordOne(f, topic);
    var (c', b', out) := Serve(conn, b, f, authorize);
    if out != [] { AuthOksOne(out[0]); assert out == [out[0]]; }
  }

  lemma ServerReadAuthed(s: System, authorize: string -> string)
    requires Inv(s) && s.conn.Some? && s.conn.value.authed && s.up != []
    ensures Inv(Step(s, ServerRead, authorize))
  {
    var conn, f, rest := s.conn.value, s.up[0], s.up[1..];
    assert [f] + rest == s.up && f in s.up;
    var (c', b', out) := Serve(conn, s.broker, f, authorize);
    ServeGood(conn, s.broker, f, s.conns, authorize);
    ServeDoesTheWord(conn, s.broker, f, rest, authorize, "");
    AuthOksConcat(s.down, out);
    forall t | t != UserTopic(conn.user)
      ensures Eventually(c'.unsubs, rest, conn.user, t) == (t in s.client.subscribed && IsAllowedTopic(t, conn.user))
    {
      ServeDoesTheWord(conn, s.broker, f, rest, authorize, t);
    }
  }

  lemma ServerReadAuth(s: System, authorize: string -> string)
    requires Inv(s) && s.conn.Some? && !s.conn.value.authed && s.up != []
    ensures Inv(Step(s, ServerRead, authorize))
  {
    var conn, f := s.conn.value, s.up[0];
    var (c', b', out) := Serve(conn, s.broker, f, authorize);
    ServeGood(conn, s.broker, f, s.conns, authorize);
    AuthOksConcat(s.down, out);
    AuthOksOne(out[0]);
    assert out == [out[0]];
    if authorize(f.token) != "" {
      AttachGood(conn.(user := authorize(f.token), authed := true), s.broker, UserTopic(authorize(f.token)), s.conns);
      assert UserTopic(authorize(f.token))[5..] == authorize(f.token);
    }
  }

  // ---- every step ----

  lemma ConnectKeepsInv(s: System)
    requires Inv(s) && s.conn.None?
    ensures Inv(s.(conn := Some(Conn(s.conns, true, false, "", map[])), conns := s.conns + 1, up := [], down := []))
  {
    forall t ensures Of(s.broker, t, s.conns) == {} {
      assert forall c :: c in s.broker.Receivers(t) ==> c.conn < s.conns;
    }
  }

  lemma OthersKeepInv(s: System, a: Action, authorize: string -> string)
    requires Inv(s) && (a.OtherConnect? || a.OtherSubscribe? || a.OtherUnsubscribe?)
    ensures Inv(Step(s, a, authorize))
  {
    var s' := Step(s, a, authorize);
    if a.OtherConnect? || s' == s {
    } else if s.conn.None? {
      OtherBroker(s, a, authorize, "", s.conns + 1);
    } else {
      var conn := s.conn.value;
      OtherBroker(s, a, authorize, "", conn.id);
      forall t ensures Of(s'.broker, t, conn.id) == Of(s.broker, t, conn.id) {
        OtherBroker(s, a, authorize, t, conn.id);
      }
      assert OneCallbackEach(conn, s'.broker);
    }
  }

  // Another connection's callback comes or goes.
  lemma OtherBroker(s: System, a: Action, authorize: string -> string, t: string, k: nat)
    requires BrokerOk(s.broker, s.conns) && (a.OtherSubscribe? || a.OtherUnsubscribe?)
    ensures BrokerOk(Step(s, a, authorize).broker, s.conns)
    ensures Own(s, k) ==> Of(Step(s, a, authorize).broker, t, k) == Of(s.broker, t, k)
  {
    if a.OtherUnsubscribe? {
      UnsubscribeOf(s.broker, a.topic, a.callback, s.conns, t, k);
      assert a.callback.conn != k ==> a.callback !in Of(s.broker, t, k);
    } else if a.conn < s.conns {
      SubscribeOf(s.broker, a.topic, a.conn, s.conns, t, k);
    }
  }

  lemma StepKeepsInv(s: System, a: Action, authorize: string -> string)
    requires Inv(s)
    ensures Inv(Step(s, a, authorize))
  {
    match a
    case Subscribe(topic, fn) =>
      SubscribeGood(s.client, topic, fn);
      ClientStepKeepsInv(s, ClientSubscribe(s.client, topic, fn).0, ClientSubscribe(s.client, topic, fn).1);
    case Unsubscribe(topic, fn) =>
      UnsubscribeGood(s.client, topic, fn);
      ClientStepKeepsInv(s, ClientUnsubscribe(s.client, topic, fn).0, ClientUnsubscribe(s.client, topic, fn).1);
    case Connect =>
      if s.conn.None? { ConnectKeepsInv(s); }
    case Open(token) =>
    case ServerRead =>
      if s.conn.Some? && s.up != [] {
        if s.conn.value.authed { ServerReadAuthed(s, authorize); } else { ServerReadAuth(s, authorize); }
      }
    case ClientRead =>
      if s.client.open && s.down != [] { ClientReadKeepsInv(s); }
    case Close =>
    case OtherConnect => OthersKeepInv(s, a, authorize);
    case OtherSubscribe(_, _) => OthersKeepInv(s, a, authorize);
    case OtherUnsubscribe(_, _) => OthersKeepInv(s, a, authorize);
  }

  lemma {:induction false} RunKeepsInv(actions: seq<Action>, authorize: string -> string)
    ensures Inv(Run(actions, authorize))
  {
    if actions != [] {
      RunKeepsInv(actions[..|actions|-1], authorize);
      StepKeepsInv(Run(actions[..|actions|-1], authorize), actions[|actions|-1], authorize);
    }
  }

  // Other clients do as they like with connections and callbacks that are not this client's.
  lemma OthersAreFree(s: System, topic: string, conn: nat, callback: Callback, authorize: string -> string)
    requires conn < s.conns && (s.conn.Some? ==> s.conn.value.id != conn && s.conn.value.id != callback.conn)
    ensures Step(s, OtherSubscribe(topic, conn), authorize).broker == s.broker.Subscribe(topic, conn)
    ensures Step(s, OtherUnsubscribe(topic, callback), authorize).broker == s.broker.Unsubscribe(topic, callback)
  {
  }

  // The client has a listener and is connected; its token is on the way.
  function Opened(topic: string, fn: nat, token: string): System {
    System(Client(map[topic := {fn}], [topic], true, false, [SubTopic(topic)]),
      Some(Conn(0, true, false, "", map[])), [Auth(token)], [], Broker(map[], 0), 1)
  }

  lemma OpenedInThreeSteps(topic: string, fn: nat, token: string, authorize: string -> string)
    ensures Step(Step(Step(START, Subscribe(topic, fn), authorize), Connect, authorize), Open(Some(token)), authorize)
         == Opened(topic, fn, token)
  {
    assert |{fn}| == 1 && {} + {fn} == {fn} && [] + [topic] == [topic] && [] + [SubTopic(topic)] == [SubTopic(topic)];
    assert map[][topic := {fn}] == map[topic := {fn}];
  }

  // The server and the client are authenticated, and the topic is asked for.
  ghost predicate Asking(s: System, topic: string, user: string) {
    && s.client.open && s.client.authed && s.conn.Some? && s.conn.value.alive && s.conn.value.authed
    && s.conn.value.user == user && (forall f | f in s.up :: f == SubTopic(topic))
    && (s.up == [] ==> topic in s.conn.value.unsubs)
  }

  lemma AsksAfterReply(topic: string, fn: nat, token: string, authorize: string -> string)
    requires authorize(token) != ""
    ensures var s := Step(Step(Opened(topic, fn, token), ServerRead, authorize), ClientRead, authorize);
            |s.up| == 2 && Asking(s, topic, authorize(token))
  {
    var s := Step(Opened(topic, fn, token), ServerRead, authorize);
    assert s.up == [] && s.down == [AuthOk(authorize(token))] && s.client == Opened(topic, fn, token).client;
    var c, fs := ClientReceive(s.client, s.down[0]).0, ClientReceive(s.client, s.down[0]).1;
    assert fs == Replay([topic]) + [SubTopic(topic)] && |Replay([topic])| == 1;
  }

  lemma ReadingAsks(s: System, topic: string, user: string, authorize: string -> string)
    requires Asking(s, topic, user) && s.up != [] && MayHear(topic, user)
    ensures Asking(Step(s, ServerRead, authorize), topic, user) && |Step(s, ServerRead, authorize).up| == |s.up| - 1
  {
    assert s.up[0] in s.up && forall f :: f in s.up[1..] ==> f in s.up;
    AskedIsHeard(s.conn.value, s.broker, topic, authorize);
  }

  lemma RunExtends(actions: seq<Action>, a: Action, authorize: string -> string)
    ensures Run([], authorize) == START && Run(actions + [a], authorize) == Step(Run(actions, authorize), a, authorize)
  {
    assert (actions + [a])[..|actions|] == actions;
  }

  // A connection that was refused reads nothing more.
  lemma RefusedReadsNothing(s: System, token: string, authorize: string -> string)
    requires s.conn.Some? && s.conn.value.alive && s.up != [] && s.up[0] == Auth(token) && authorize(token) == ""
    ensures var s' := Step(s, ServerRead, authorize);
            Step(s', ServerRead, authorize) == s' && s'.conn.Some? && s'.conn.value.unsubs == s.conn.value.unsubs
  {
  }

  // A subscription made before the connection arrives: after connecting, authenticating and the replay the
  // server holds the topic, and the client knows that it is authenticated.
  lemma EarlySubscriptionArrives(topic: string, fn: nat, token: string, authorize: string -> string)
    requires authorize(token) != "" && MayHear(topic, authorize(token))
    ensures var s := Run([Subscribe(topic, fn), Connect, Open(Some(token)), ServerRead, ClientRead, ServerRead,
                          ServerRead], authorize);
            && s.client.authed && s.up == [] && s.conn.Some? && s.conn.value.user == authorize(token)
            && topic in s.conn.value.unsubs
  {
    OpenedInThreeSteps(topic, fn, token, authorize);
    AsksAfterReply(topic, fn, token, authorize);
    var s := Step(Step(Opened(topic, fn, token), ServerRead, authorize), ClientRead, authorize);
    ReadingAsks(s, topic, authorize(token), authorize);
    ReadingAsks(Step(s, ServerRead, authorize), topic, authorize(token), authorize);
    var connect := [Subscribe(topic, fn), Connect, Open(Some(token))];
    RunOfThree(Subscribe(topic, fn), Connect, Open(Some(token)), authorize);
    RunOfTwoMore(connect, ServerRead, ClientRead, authorize);
    RunOfTwoMore(connect + [ServerRead, ClientRead], ServerRead, ServerRead, authorize);
    assert connect + [ServerRead, ClientRead] + [ServerRead, ServerRead]
        == [Subscribe(topic, fn), Connect, Open(Some(token)), ServerRead, ClientRead, ServerRead, ServerRead];
  }

  lemma RunOfThree(a: Action, b: Action, c: Action, authorize: string -> string)
    ensures Run([a, b, c], authorize) == Step(Step(Step(START, a, authorize), b, authorize), c, authorize)
  {
    RunExtends([], a, authorize);
    RunExtends([a], b, authorize);
    RunExtends([a, b], c, authorize);
    assert [] + [a] == [a] && [a] + [b] == [a, b] && [a, b] + [c] == [a, b, c];
  }

  lemma RunOfTwoMore(run: seq<Action>, a: Action, b: Action, authorize: string -> string)
    ensures Run(run + [a, b], authorize) == Step(Step(Run(run, authorize), a, authorize), b, authorize)
  {
    RunExtends(run, a, authorize);
    RunExtends(run + [a], b, authorize);
    assert run + [a] + [b] == run + [a, b];
  }

  // ---- who may hear what ----

  // Public and folder topics, and the user's own topic; no admin topic and nobody else's.
  predicate MayHear(topic: string, user: string) {
    topic != "" && !("admin:" <= topic) && ("user:" <= topic ==> topic == "user:" + user)
  }

  lemma PrefixesDiffer(topic: string)
    ensures !("user:" <= topic) || !("admin:" <= topic)
  {
    if "user:" <= topic { assert topic[0] == "user:"[0]; }
  }

  lemma AllowedIsMayHear(topic: string, user: string)
    ensures IsAllowedTopic(topic, user) <==> MayHear(topic, user)
  {
    if "user:" <= topic {
      assert topic == "user:" + topic[5..];
      PrefixesDiffer(topic);
    }
  }

  // What a new connection comes to after any frames, whoever sends them.
  function ServeAll(conn: Conn, broker: Broker, fs: seq<Frame>, authorize: string -> string): (Conn, Broker)
    decreases |fs|
  {
    if fs == [] then (conn, broker)
    else
      var (c, b) := ServeAll(conn, broker, fs[..|fs|-1], authorize);
      if c.alive then var (c', b', _) := Serve(c, b, fs[|fs|-1], authorize); (c', b') else (c, b)
  }

  // The users a run of frames authenticates as.
  ghost function UsersOf(fs: seq<Frame>, authorize: string -> string): set<string> {
    set f | f in fs && f.Auth? && authorize(f.token) != "" :: authorize(f.token)
  }

  ghost predicate OnlyOwnTopics(conn: Conn, users: set<string>) {
    && (conn.authed ==> conn.user in users)
    && forall t | t in conn.unsubs :: exists u :: u in users && MayHear(t, u)
  }

  // It never hears an admin topic, and no user topic but those of the users it authenticated as.
  lemma {:induction false} HearsOnlyOwn(id: nat, broker: Broker, fs: seq<Frame>, authorize: string -> string)
    ensures OnlyOwnTopics(ServeAll(Conn(id, true, false, "", map[]), broker, fs, authorize).0, UsersOf(fs, authorize))
    decreases |fs|
  {
    if fs != [] {
      var init, f := fs[..|fs|-1], fs[|fs|-1];
      var (c, b) := ServeAll(Conn(id, true, false, "", map[]), broker, init, authorize);
      HearsOnlyOwn(id, broker, init, authorize);
      assert fs == init + [f] && UsersOf(init, authorize) <= UsersOf(fs, authorize);
      if c.alive { FrameKeepsOwn(c, b, f, authorize, UsersOf(init, authorize), UsersOf(fs, authorize)); }
    }
  }

  lemma FrameKeepsOwn(c: Conn, b: Broker, f: Frame, authorize: string -> string, users: set<string>,
                      users': set<string>)
    requires OnlyOwnTopics(c, users) && users <= users'
    requires f.Auth? && authorize(f.token) != "" ==> authorize(f.token) in users'
    ensures OnlyOwnTopics(Serve(c, b, f, authorize).0, users')
  {
    match f
    case Auth(token) => if authorize(token) != "" { OwnTopicIsHeard(authorize(token)); }
    case SubTopic(topic) => AllowedIsMayHear(topic, c.user);
    case _ =>
  }

  lemma OwnTopicIsHeard(user: string)
    ensures MayHear(UserTopic(user), user)
  {
    PrefixesDiffer(UserTopic(user));
  }

  // An authenticated connection that asks for a topic the user may hear gets it.
  lemma AskedIsHeard(c: Conn, b: Broker, topic: string, authorize: string -> string)
    requires c.authed && MayHear(topic, c.user)
    ensures topic in Serve(c, b, SubTopic(topic), authorize).0.unsubs && Serve(c, b, SubTopic(topic), authorize).2 == []
  {
    AllowedIsMayHear(topic, c.user);
  }

  lemma ServesOneMore(conn: Conn, broker: Broker, fs: seq<Frame>, f: Frame, authorize: string -> string)
    ensures ServeAll(conn, broker, [], authorize) == (conn, broker)
    ensures var (c, b) := ServeAll(conn, broker, fs, authorize);
            ServeAll(conn, broker, fs + [f], authorize)
            == if c.alive then (Serve(c, b, f, authorize).0, Serve(c, b, f, authorize).1) else (c, b)
  {
    assert (fs + [f])[..|fs|] == fs;
  }

  // So does a new connection that authenticates and then asks.
  lemma AuthenticatedIsHeard(id: nat, broker: Broker, token: string, topic: string, authorize: string -> string)
    requires authorize(token) != "" && MayHear(topic, authorize(token))
    ensures topic in ServeAll(Conn(id, true, false, "", map[]), broker, [Auth(token), SubTopic(topic)],
                       authorize).0.unsubs
  {
    var conn, auth := Conn(id, true, false, "", map[]), Auth(token);
    ServesOneMore(conn, broker, [], auth, authorize);
    ServesOneMore(conn, broker, [auth], SubTopic(topic), authorize);
    assert [] + [auth] == [auth] && [auth] + [SubTopic(topic)] == [auth, SubTopic(topic)];
    var (c, b) := ServeAll(conn, broker, [auth], authorize);
    AskedIsHeard(c, b, topic, authorize);
  }

  // Once an authenticated connection has read every frame, the server holds exactly the allowed
  // topics the client has listeners for (its own user topic aside), with exactly one live callback
  // each: whatever subscribes, unsubscribes and reconnects came before.
  lemma ServerAgreesWithClient(actions: seq<Action>, authorize: string -> string, topic: string)
    requires var s := Run(actions, authorize); s.client.authed && s.up == []
    ensures var s := Run(actions, authorize);
            s.conn.Some? && s.conn.value.authed
            && (topic != UserTopic(s.conn.value.user) ==>
                  (topic in s.conn.value.unsubs <==>
                     topic in s.client.listeners && MayHear(topic, s.conn.value.user)))
            && Of(s.broker, topic, s.conn.value.id)
              == if topic in s.conn.value.unsubs then {s.conn.value.unsubs[topic]} else {}
  {
    RunKeepsInv(actions, authorize);
    AllowedIsMayHear(topic, Run(actions, authorize).conn.value.user);
    var s := Run(actions, authorize);
    assert topic != UserTopic(s.conn.value.user) ==>
      Eventually(s.conn.value.unsubs, s.up, s.conn.value.user, topic)
      == (topic in s.client.subscribed && IsAllowedTopic(topic, s.conn.value.user));
  }
}

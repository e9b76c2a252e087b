/** cluster.go, requester.go, facade/cluster.go and the gate side of agent.go and agentManager.go as one
    system: nodes that send each other framed packets over a bus that may lose, duplicate and reorder. */
module Cluster {
  import opened Base
  import opened Messages
  import opened HashRegistry
  import opened Protobuf
  import opened Packet
  import opened Stream
  import opened Requester
  import opened MsgHandler
  import Runs

  type NodeId = Bytes

  /** A fixed deployment: the library code, every node's dispatch table and number of worker runners,
      and the ids registered as responses anywhere. */
  datatype Config = Config(
    schema: Schema, handlers: map<NodeId, map<uint32, Kind>>, runners: map<NodeId, nat>, responses: set<uint32>)

  ghost predicate ValidConfig(cfg: Config) {
    && cfg.handlers.Keys == cfg.runners.Keys
    && (forall n, r :: n in cfg.handlers && r in cfg.handlers[n] && cfg.handlers[n][r] == Response ==>
          r in cfg.responses)
  }

  /** The deployment that results from the registrations each node makes when it starts. */
  function Deploy(schema: Schema, regs: map<NodeId, seq<Registration>>, runners: map<NodeId, nat>): Config {
    Config(schema, map n | n in regs :: AddAll(schema, regs[n]).kinds, runners,
           set n, i | n in regs && 0 <= i < |regs[n]| && regs[n][i].response :: IdOf(schema, regs[n][i]))
  }

  /** A message is dispatched as a response only if its type was registered as one at that node. */
  lemma DeployIsValid(schema: Schema, regs: map<NodeId, seq<Registration>>, runners: map<NodeId, nat>)
    requires regs.Keys == runners.Keys
    ensures ValidConfig(Deploy(schema, regs, runners))
  {
    var cfg := Deploy(schema, regs, runners);
    forall n, r | n in cfg.handlers && r in cfg.handlers[n] && cfg.handlers[n][r] == Response
      ensures r in cfg.responses
    {
      DispatchIsLast(schema, regs[n], r);
      var i :| LastFor(schema, regs[n], r, i);
      assert regs[n][i].response && IdOf(schema, regs[n][i]) == r;
    }
  }

  /** A client session: the gate that holds its agent, and the uid bound to it (0 if none). The agent's
      goroutines still use it after the sid has left the gate's table. */
  datatype Session = Session(gate: NodeId, uid: uint64)

  /** History: a request and the callback registered for it; a client packet and what the gate forwarded
      of it; a callback begun with a response; a packet the gate handed to an agent. The last two hold the
      packet as it was published, and the message the receiver read. */
  datatype Sent = Sent(node: NodeId, cb: Callback, request: Packet)
  datatype Forwarded = Forwarded(gate: NodeId, sid: Bytes, client: Packet, packet: Packet)
  datatype Fire = Fire(node: NodeId, cb: Callback, response: Packet, msg: Message)
  datatype Delivery = Delivery(gate: NodeId, sid: Bytes, packet: Packet, msg: Message)

  /** The bus keeps every packet ever published: delivering one again, late, or never is then all one.
      live are the sids in the gates' tables. */
  datatype System = System(
    net: set<Packet>, nodes: map<NodeId, Node>, sessions: map<Bytes, Session>, live: set<Bytes>,
    requests: set<Sent>, forwards: set<Forwarded>, fires: set<Fire>, deliveries: set<Delivery>)

  function Init(cfg: Config): System {
    System({}, map n | n in cfg.handlers :: FRESH_NODE, map[], {}, {}, {}, {}, {})
  }

  datatype Step =
    | RegisterCallback(n: NodeId)
    | SendRequest(n: NodeId, cb: Callback, target: NodeId, msg: Message)
    | AbandonRequest(n: NodeId, cb: Callback)
    | Publish(n: NodeId, target: NodeId, msg: Message)
    | Respond(n: NodeId, to: Packet, msg: Message)
    | BeginCallback(n: NodeId, runner: nat, p: Packet)
    | EndCallback(n: NodeId, runner: nat, how: CallbackEnding)
    | Join(gate: NodeId, sid: Bytes)
    | Bind(sid: Bytes, uid: uint64)
    | Leave(sid: Bytes)
    | Forward(sid: Bytes, client: Packet, target: NodeId)
    | DefaultHandler(n: NodeId, p: Packet)

  datatype CallbackEnding = Returns | Panics

  function RouteOf(schema: Schema, msg: Message): uint32 { schema.checksum(msg.typ.fullName) }

  /** The header of a request, and of a message published without a callback, whose mid is 0. */
  function RequestHeader(source: NodeId, target: NodeId, mid: uint32, route: uint32): MsgCommon {
    MsgCommon(source, target, mid, [], 0, route)
  }

  /** Sender.Resp: source and target swap, Mid, Sid and Uid stay; packing then overwrites Route. */
  function ResponseHeader(c: MsgCommon, route: uint32): MsgCommon {
    MsgCommon(c.targetId, c.sourceId, c.mid, c.sid, c.uid, route)
  }

  /** The gate's stamp on a client packet: Mid and Route are the client's. */
  function Stamp(c: MsgCommon, gate: NodeId, target: NodeId, uid: uint64, sid: Bytes): MsgCommon {
    c.(sourceId := gate, targetId := target, uid := uid, sid := sid)
  }

  predicate IsRequest(s: System, p: Packet) {
    exists sent :: sent in s.requests && sent.request == p
  }

  /** A packet that can be published: it marshals, and its header fits the 16-bit length. A payload beyond
      16 bits is published with its length cut. */
  predicate CanSend(schema: Schema, p: Packet) {
    Sendable(schema, p) && HeaderFits(p)
  }

  function Dispatch(handlers: map<NodeId, map<uint32, Kind>>, n: NodeId, p: Packet): Kind {
    if n in handlers then KindOf(handlers[n], p.common.route) else Default
  }

  /** The packet has reached the node and its ReadMessage made a message of it. */
  predicate Received(schema: Schema, s: System, n: NodeId, p: Packet) {
    n in s.nodes && p in s.net && p.common.targetId == n && Sendable(schema, p) && Seen(schema, p).Some?
  }

  /** The response types are used as such: no request, publication or client message carries one, and
      a handler answers with one only what a requester asked. Only RpcCorrelation asks for this. */
  predicate Disciplined(cfg: Config, s: System, step: Step) {
    match step
    case SendRequest(_, _, _, msg) => RouteOf(cfg.schema, msg) !in cfg.responses
    case Publish(_, _, msg) => RouteOf(cfg.schema, msg) !in cfg.responses
    case Forward(_, client, _) => client.common.route !in cfg.responses
    case Respond(_, to, msg) => RouteOf(cfg.schema, msg) in cfg.responses ==> IsRequest(s, to)
    case _ => true
  }

  /** A runner at the start of a task can begin the callback registered under the mid of a response. */
  predicate CanBegin(cfg: Config, s: System, n: NodeId, runner: nat, p: Packet) {
    && Received(cfg.schema, s, n, p) && Dispatch(cfg.handlers, n, p) == Response
    && runner !in s.nodes[n].busy && p.common.mid in s.nodes[n].handlers
  }

  function BeginIn(cfg: Config, s: System, n: NodeId, runner: nat, p: Packet): System
    requires CanBegin(cfg, s, n, runner, p)
  {
    var cb := s.nodes[n].handlers[p.common.mid];
    s.(nodes := s.nodes[n := Begin(s.nodes[n], runner, cb)],
       fires := s.fires + {Fire(n, cb, p, Seen(cfg.schema, p).value)})
  }

  function Next(cfg: Config, s: System, step: Step): Option<System> {
    match step
    case RegisterCallback(n) =>
      if n !in s.nodes then None
      else Some(s.(nodes := s.nodes[n := Register(s.nodes[n])]))
    case SendRequest(n, cb, target, msg) =>
      var p := Packet(RequestHeader(n, target, MidOf(cb), RouteOf(cfg.schema, msg)), msg);
      if n !in s.nodes || cb !in s.nodes[n].unsent || !CanSend(cfg.schema, p) then None
      else Some(s.(net := s.net + {p}, requests := s.requests + {Sent(n, cb, p)},
                   nodes := s.nodes[n := s.nodes[n].(unsent := s.nodes[n].unsent - {cb})]))
    case AbandonRequest(n, cb) =>
      if n !in s.nodes || cb !in s.nodes[n].unsent then None
      else Some(s.(nodes := s.nodes[n := s.nodes[n].(unsent := s.nodes[n].unsent - {cb})]))
    case Publish(n, target, msg) =>
      var p := Packet(RequestHeader(n, target, 0, RouteOf(cfg.schema, msg)), msg);
      if n !in s.nodes || !CanSend(cfg.schema, p) then None
      else Some(s.(net := s.net + {p}))
    case Respond(n, to, msg) =>
      var p := Packet(ResponseHeader(to.common, RouteOf(cfg.schema, msg)), msg);
      if !Received(cfg.schema, s, n, to) || !CanSend(cfg.schema, p) then None
      else Some(s.(net := s.net + {p}))
    case BeginCallback(n, runner, p) =>
      if !CanBegin(cfg, s, n, runner, p) || n !in cfg.runners || |s.nodes[n].busy| >= cfg.runners[n] then None
      else Some(BeginIn(cfg, s, n, runner, p))
    case EndCallback(n, runner, how) =>
      if n !in s.nodes || runner !in s.nodes[n].busy then None
      else
        var ended := if how.Returns? then Return(s.nodes[n], runner) else Panic(s.nodes[n], runner);
        Some(s.(nodes := s.nodes[n := ended]))
    case Join(gate, sid) =>
      if gate !in s.nodes || sid == [] || sid in s.sessions then None
      else Some(s.(sessions := s.sessions[sid := Session(gate, 0)], live := s.live + {sid}))
    case Bind(sid, uid) =>
      if sid !in s.live || sid !in s.sessions || uid < 1 then None
      else Some(s.(sessions := s.sessions[sid := s.sessions[sid].(uid := uid)]))
    case Leave(sid) =>
      if sid !in s.live then None
      else Some(s.(live := s.live - {sid}))
    case Forward(sid, client, target) =>
      if sid !in s.sessions then None else
      var session := s.sessions[sid];
      var p := Packet(Stamp(client.common, session.gate, target, session.uid, sid), client.msg);
      if !CanSend(cfg.schema, p) then None
      else Some(s.(net := s.net + {p}, forwards := s.forwards + {Forwarded(session.gate, sid, client, p)}))
    case DefaultHandler(n, p) =>
      if !Received(cfg.schema, s, n, p) || Dispatch(cfg.handlers, n, p) != Default then None
      else if p.common.sid !in s.live || p.common.sid !in s.sessions || s.sessions[p.common.sid].gate != n then None
      else Some(s.(deliveries := s.deliveries + {Delivery(n, p.common.sid, p, Seen(cfg.schema, p).value)}))
  }

  function Stepper(cfg: Config): (System, Step) -> Option<System> { (s, step) => Next(cfg, s, step) }

  /** The same system, restricted to steps that use the response types as such. */
  function DisciplinedStepper(cfg: Config): (System, Step) -> Option<System> {
    (s, step) => if Disciplined(cfg, s, step) then Next(cfg, s, step) else None
  }

  /** Exactly what each step publishes: the header field by field, with the message; all others, nothing. */
  lemma PublishedPackets(cfg: Config, s: System, step: Step)
    requires Next(cfg, s, step).Some?
    ensures Next(cfg, s, step).value.net == s.net + PublishedBy(cfg, s, step)
  {
    hide CanSend, Received, Dispatch, Register, Begin, Return, Panic;
    assert s.net + {} == s.net;
  }

  function PublishedBy(cfg: Config, s: System, step: Step): set<Packet> {
    match step
    case SendRequest(n, cb, target, msg) =>
      {Packet(MsgCommon(n, target, cb % 0x1_0000_0000, [], 0, cfg.schema.checksum(msg.typ.fullName)), msg)}
    case Publish(n, target, msg) =>
      {Packet(MsgCommon(n, target, 0, [], 0, cfg.schema.checksum(msg.typ.fullName)), msg)}
    case Respond(n, to, msg) =>
      var c, route := to.common, cfg.schema.checksum(msg.typ.fullName);
      {Packet(MsgCommon(c.targetId, c.sourceId, c.mid, c.sid, c.uid, route), msg)}
    case Forward(sid, client, target) =>
      if sid !in s.sessions then {} else
      var c, session := client.common, s.sessions[sid];
      {Packet(MsgCommon(session.gate, target, c.mid, sid, session.uid, c.route), client.msg)}
    case _ => {}
  }

  // ---- Invariants ----

  /** p answers q: same Mid, Sid and Uid, from where q went to where q came from. */
  predicate Answers(p: Packet, q: Packet) {
    && p.common.mid == q.common.mid && p.common.sid == q.common.sid && p.common.uid == q.common.uid
    && p.common.sourceId == q.common.targetId && p.common.targetId == q.common.sourceId
  }

  ghost predicate NodesInv(cfg: Config, s: System) {
    && s.nodes.Keys == cfg.handlers.Keys
    && forall n :: n in s.nodes && n in cfg.runners ==> NodeInv(s.nodes[n], cfg.runners[n])
  }

  /** Each request carries its own callback's mid from its own node, and is the only one for it. */
  ghost predicate RequestsInv(s: System) {
    && (forall x :: x in s.requests ==> RequestOk(s, x))
    && (forall x, y :: x in s.requests && y in s.requests && x.node == y.node && x.cb == y.cb ==> x == y)
  }

  ghost predicate RequestOk(s: System, x: Sent) {
    && x.node in s.nodes && 1 <= x.cb <= s.nodes[x.node].serial && x.cb !in s.nodes[x.node].unsent
    && x.request.common.sourceId == x.node && x.request.common.mid == MidOf(x.cb)
  }

  ghost predicate AnswersInv(cfg: Config, s: System) {
    forall p :: p in s.net && p.common.route in cfg.responses ==> Answered(s, p)
  }

  ghost predicate Answered(s: System, p: Packet) {
    exists x :: x in s.requests && Answers(p, x.request)
  }

  ghost predicate FiresInv(cfg: Config, s: System) {
    forall f :: f in s.fires ==> FireOk(cfg, s, f)
  }

  ghost predicate FireOk(cfg: Config, s: System, f: Fire) {
    && f.response in s.net && f.response.common.route in cfg.responses && f.response.common.targetId == f.node
    && f.node in s.nodes && 1 <= f.cb <= s.nodes[f.node].serial && f.response.common.mid == MidOf(f.cb)
    && ReadAs(cfg, f.response, f.msg)
  }

  /** The message a receiver reads. */
  predicate ReadAs(cfg: Config, p: Packet, msg: Message) {
    Sendable(cfg.schema, p) && Seen(cfg.schema, p) == Some(msg)
  }

  /** p travels between the same two nodes as the forwarded f, with its Mid, Sid and Uid. */
  predicate SameExchange(p: Packet, f: Packet) {
    && p.common.mid == f.common.mid && p.common.sid == f.common.sid && p.common.uid == f.common.uid
    && {p.common.sourceId, p.common.targetId} == {f.common.sourceId, f.common.targetId}
  }

  ghost predicate SidsInv(s: System) {
    forall p :: p in s.net && p.common.sid != [] ==> FromForward(s, p)
  }

  ghost predicate FromForward(s: System, p: Packet) {
    exists f :: f in s.forwards && SameExchange(p, f.packet)
  }

  ghost predicate ForwardOk(s: System, f: Forwarded) {
    && f.sid in s.sessions && s.sessions[f.sid].gate == f.gate && f.sid != []
    && f.packet.common.sid == f.sid && f.packet.common.sourceId == f.gate
    && f.packet.common.mid == f.client.common.mid && f.packet.common.route == f.client.common.route
    && f.packet.msg == f.client.msg
  }

  ghost predicate DeliveryOk(cfg: Config, s: System, d: Delivery) {
    && d.sid in s.sessions && s.sessions[d.sid].gate == d.gate && d.sid != [] && d.packet in s.net
    && d.packet.common.sid == d.sid && d.packet.common.targetId == d.gate && ReadAs(cfg, d.packet, d.msg)
  }

  /** A sid belongs to one gate for good. */
  ghost predicate SessionsInv(cfg: Config, s: System) {
    && s.live <= s.sessions.Keys && (forall sid :: sid in s.sessions ==> sid != [])
    && (forall f :: f in s.forwards ==> ForwardOk(s, f))
    && (forall d :: d in s.deliveries ==> DeliveryOk(cfg, s, d))
  }

  ghost predicate NetInv(cfg: Config, s: System) {
    forall p :: p in s.net ==> CanSend(cfg.schema, p)
  }

  ghost predicate Inv(cfg: Config, s: System) {
    && NodesInv(cfg, s) && RequestsInv(s) && FiresInv(cfg, s)
    && SidsInv(s) && SessionsInv(cfg, s) && NetInv(cfg, s)
  }

  lemma InitInv(cfg: Config)
    requires ValidConfig(cfg)
    ensures Inv(cfg, Init(cfg))
  {
    forall n | n in Init(cfg).nodes && n in cfg.runners ensures NodeInv(Init(cfg).nodes[n], cfg.runners[n]) {
      FreshNodeInv(cfg.runners[n]);
    }
  }

  lemma NodesKept(cfg: Config, s: System, step: Step)
    requires ValidConfig(cfg) && NodesInv(cfg, s) && Next(cfg, s, step).Some?
    ensures NodesInv(cfg, Next(cfg, s, step).value)
  {
    hide CanSend, Received, NodeInv, Dispatch, RequestHeader, ResponseHeader, Stamp, Register, Begin, Return, Panic;
    match step
    case RegisterCallback(n) => RegisterKeepsInv(s.nodes[n], cfg.runners[n]);
    case SendRequest(n, cb, _, _) => UnsentKeepsInv(s.nodes[n], cfg.runners[n], cb);
    case AbandonRequest(n, cb) => UnsentKeepsInv(s.nodes[n], cfg.runners[n], cb);
    case BeginCallback(n, runner, p) => BeginKeepsInv(s.nodes[n], cfg.runners[n], runner, p.common.mid);
    case EndCallback(n, runner, how) =>
      if how.Returns? { ReturnKeepsInv(s.nodes[n], cfg.runners[n], runner); }
      else { PanicKeepsInv(s.nodes[n], cfg.runners[n], runner); }
    case _ =>
  }

  lemma UnsentKeepsInv(nd: Node, runners: nat, cb: Callback)
    requires NodeInv(nd, runners)
    ensures NodeInv(nd.(unsent := nd.unsent - {cb}), runners)
  {
    hide PendingInv;
    SameTableKeepsPending(nd, nd.(unsent := nd.unsent - {cb}));
    forall c ensures CallbackInv(nd.(unsent := nd.unsent - {cb}), runners, c) {
      assert CallbackInv(nd, runners, c);
    }
  }

  /** What a step does to a node as far as requests are concerned: serials only grow, and a callback
      becomes unsent only by being registered. */
  lemma NodeHistory(cfg: Config, s: System, step: Step, n: NodeId)
    requires Next(cfg, s, step).Some? && n in s.nodes
    ensures var s' := Next(cfg, s, step).value;
      && s'.nodes.Keys == s.nodes.Keys
      && s.nodes[n].serial <= s'.nodes[n].serial
      && s'.nodes[n].unsent <= s.nodes[n].unsent + {s.nodes[n].serial + 1}
      && s.requests <= s'.requests && s.net <= s'.net && s.forwards <= s'.forwards
  {
    hide CanSend, Disciplined, Dispatch, RequestHeader, ResponseHeader, Stamp;
  }

  lemma TableFacts(cfg: Config, s: System, n: NodeId)
    requires ValidConfig(cfg) && NodesInv(cfg, s) && n in s.nodes
    ensures forall cb :: cb in s.nodes[n].unsent ==> 1 <= cb <= s.nodes[n].serial
    ensures forall m :: m in s.nodes[n].handlers ==> m == MidOf(s.nodes[n].handlers[m])
    ensures forall m :: m in s.nodes[n].handlers ==> 1 <= s.nodes[n].handlers[m] <= s.nodes[n].serial
  {
    assert TableInv(s.nodes[n], cfg.runners[n]);
  }

  /** The one request a step can add, for a callback that had none yet. */
  lemma NewRequest(cfg: Config, s: System, step: Step, x: Sent)
    requires ValidConfig(cfg) && NodesInv(cfg, s) && Next(cfg, s, step).Some?
    requires x in Next(cfg, s, step).value.requests && x !in s.requests
    ensures RequestOk(Next(cfg, s, step).value, x)
    ensures step.SendRequest? && x.node == step.n && x.cb == step.cb && x.cb in s.nodes[x.node].unsent
    ensures Next(cfg, s, step).value.requests == s.requests + {x}
  {
    hide NodesInv, ValidConfig, CanSend, Dispatch, Stamp, Register, Begin, Return, Panic;
    TableFacts(cfg, s, step.n);
  }

  lemma RequestsKept(cfg: Config, s: System, step: Step)
    requires ValidConfig(cfg) && NodesInv(cfg, s) && RequestsInv(s) && Next(cfg, s, step).Some?
    ensures RequestsInv(Next(cfg, s, step).value)
  {
    hide Next, NodesInv;
    var s' := Next(cfg, s, step).value;
    forall x | x in s'.requests ensures RequestOk(s', x) {
      if x in s.requests { NodeHistory(cfg, s, step, x.node); } else { NewRequest(cfg, s, step, x); }
    }
    forall x, y | x in s'.requests && y in s'.requests && x.node == y.node && x.cb == y.cb ensures x == y {
      if x !in s.requests { NewRequest(cfg, s, step, x); }
      if y !in s.requests { NewRequest(cfg, s, step, y); }
    }
  }

  lemma AnswersKept(cfg: Config, s: System, step: Step)
    requires AnswersInv(cfg, s) && Disciplined(cfg, s, step) && Next(cfg, s, step).Some?
    ensures AnswersInv(cfg, Next(cfg, s, step).value)
  {
    hide CanSend, Dispatch, Register, Begin, Return, Panic;
    var s' := Next(cfg, s, step).value;
    forall p | p in s'.net && p.common.route in cfg.responses ensures Answered(s', p) {
      if p in s.net {
        var x :| x in s.requests && Answers(p, x.request);
        assert x in s'.requests && Answers(p, x.request);
      } else {
        assert step.Respond? && IsRequest(s, step.to);
        var x :| x in s.requests && x.request == step.to;
        assert x in s'.requests && Answers(p, x.request);
      }
    }
  }

  lemma NewFire(cfg: Config, s: System, step: Step, f: Fire)
    requires ValidConfig(cfg) && NodesInv(cfg, s) && Next(cfg, s, step).Some?
    requires f in Next(cfg, s, step).value.fires && f !in s.fires
    ensures FireOk(cfg, Next(cfg, s, step).value, f)
  {
    hide NodesInv, CanSend, Disciplined, RequestHeader, ResponseHeader, Stamp, Register, Return, Panic;
    assert step.BeginCallback?;
    TableFacts(cfg, s, step.n);
  }

  lemma FiresKept(cfg: Config, s: System, step: Step)
    requires ValidConfig(cfg) && NodesInv(cfg, s) && FiresInv(cfg, s) && Next(cfg, s, step).Some?
    ensures FiresInv(cfg, Next(cfg, s, step).value)
  {
    hide Next, NodesInv;
    var s' := Next(cfg, s, step).value;
    forall f | f in s'.fires ensures FireOk(cfg, s', f) {
      if f in s.fires { NodeHistory(cfg, s, step, f.node); } else { NewFire(cfg, s, step, f); }
    }
  }

  lemma SidsKept(cfg: Config, s: System, step: Step)
    requires SidsInv(s) && Next(cfg, s, step).Some?
    ensures SidsInv(Next(cfg, s, step).value)
  {
    hide CanSend, Disciplined, Dispatch, Register, Begin, Return, Panic;
    var s' := Next(cfg, s, step).value;
    forall p | p in s'.net && p.common.sid != [] ensures FromForward(s', p) {
      if p in s.net {
        var f :| f in s.forwards && SameExchange(p, f.packet);
        assert f in s'.forwards && SameExchange(p, f.packet);
      } else if step.Respond? {
        assert step.to in s.net && FromForward(s, step.to);
        var f :| f in s.forwards && SameExchange(step.to, f.packet);
        assert f in s'.forwards && SameExchange(p, f.packet);
      } else {
        assert step.Forward?;
        var f := Forwarded(s.sessions[step.sid].gate, step.sid, step.client, p);
        assert f in s'.forwards && SameExchange(p, f.packet);
      }
    }
  }

  /** Sessions stay with their gates. */
  lemma GatesKept(cfg: Config, s: System, step: Step)
    requires s.live <= s.sessions.Keys && (forall sid :: sid in s.sessions ==> sid != []) && Next(cfg, s, step).Some?
    ensures var s' := Next(cfg, s, step).value;
      && s'.live <= s'.sessions.Keys && (forall sid :: sid in s'.sessions ==> sid != [])
      && s.net <= s'.net
      && (forall sid :: sid in s.sessions ==> sid in s'.sessions && s'.sessions[sid].gate == s.sessions[sid].gate)
  {
    hide CanSend, Received, Dispatch, RequestHeader, ResponseHeader, Stamp, Register, Begin, Return, Panic;
  }

  lemma NewForward(cfg: Config, s: System, step: Step, f: Forwarded)
    requires SessionsInv(cfg, s) && Next(cfg, s, step).Some?
    requires f in Next(cfg, s, step).value.forwards && f !in s.forwards
    ensures ForwardOk(Next(cfg, s, step).value, f)
  {
    hide CanSend, Received, Dispatch, RequestHeader, ResponseHeader, Register, Begin, Return, Panic;
  }

  lemma NewDelivery(cfg: Config, s: System, step: Step, d: Delivery)
    requires SessionsInv(cfg, s) && Next(cfg, s, step).Some?
    requires d in Next(cfg, s, step).value.deliveries && d !in s.deliveries
    ensures DeliveryOk(cfg, Next(cfg, s, step).value, d)
  {
    hide CanSend, Sendable, Seen, Dispatch, RequestHeader, ResponseHeader, Stamp, Register, Begin, Return, Panic;
  }

  lemma SessionsKept(cfg: Config, s: System, step: Step)
    requires SessionsInv(cfg, s) && Next(cfg, s, step).Some?
    ensures SessionsInv(cfg, Next(cfg, s, step).value)
  {
    hide Next, ReadAs;
    var s' := Next(cfg, s, step).value;
    GatesKept(cfg, s, step);
    forall f | f in s'.forwards ensures ForwardOk(s', f) {
      if f !in s.forwards { NewForward(cfg, s, step, f); }
    }
    forall d | d in s'.deliveries ensures DeliveryOk(cfg, s', d) {
      if d !in s.deliveries { NewDelivery(cfg, s, step, d); }
    }
  }

  lemma NetKept(cfg: Config, s: System, step: Step)
    requires NetInv(cfg, s) && Next(cfg, s, step).Some?
    ensures NetInv(cfg, Next(cfg, s, step).value)
  {
    hide CanSend, Disciplined, Dispatch, RequestHeader, ResponseHeader, Stamp, Register, Begin, Return, Panic;
  }

  lemma StepKeepsInv(cfg: Config, s: System, step: Step)
    requires ValidConfig(cfg) && Inv(cfg, s) && Next(cfg, s, step).Some?
    ensures Inv(cfg, Next(cfg, s, step).value)
  {
    hide Next, NodesInv, RequestsInv, FiresInv, SidsInv, SessionsInv, NetInv;
    NodesKept(cfg, s, step);
    RequestsKept(cfg, s, step);
    FiresKept(cfg, s, step);
    SidsKept(cfg, s, step);
    SessionsKept(cfg, s, step);
    NetKept(cfg, s, step);
  }

  // ---- Results over whole runs ----

  ghost predicate Reachable(cfg: Config, s: System) { Runs.Reachable(Stepper(cfg), Init(cfg), s) }

  ghost predicate DisciplinedReachable(cfg: Config, s: System) { Runs.Reachable(DisciplinedStepper(cfg), Init(cfg), s) }

  lemma ReachableInv(cfg: Config, s: System)
    requires ValidConfig(cfg) && Reachable(cfg, s)
    ensures Inv(cfg, s)
  {
    hide Inv, Next;
    var inv := x => Inv(cfg, x);
    InitInv(cfg);
    forall x, step | inv(x) && Next(cfg, x, step).Some? ensures inv(Next(cfg, x, step).value) {
      StepKeepsInv(cfg, x, step);
    }
    Runs.ReachableKeeps(Stepper(cfg), inv, Init(cfg), s);
  }

  lemma DisciplinedInv(cfg: Config, s: System)
    requires ValidConfig(cfg) && DisciplinedReachable(cfg, s)
    ensures Inv(cfg, s) && AnswersInv(cfg, s)
  {
    hide Inv, Next, Disciplined;
    var inv := x => Inv(cfg, x) && AnswersInv(cfg, x);
    InitInv(cfg);
    forall x, step | inv(x) && DisciplinedStepper(cfg)(x, step).Some? ensures inv(Next(cfg, x, step).value) {
      StepKeepsInv(cfg, x, step);
      AnswersKept(cfg, x, step);
    }
    Runs.ReachableKeeps(DisciplinedStepper(cfg), inv, Init(cfg), s);
  }

  lemma CallbackCounts(cfg: Config, s: System, n: NodeId, cb: Callback)
    requires ValidConfig(cfg) && Reachable(cfg, s) && n in s.nodes
    ensures n in cfg.runners && CallbackInv(s.nodes[n], cfg.runners[n], cb)
    ensures cfg.runners[n] == 0 ==> s.nodes[n].begun == map[]
  {
    hide Reachable, RequestsInv, FiresInv, SidsInv, SessionsInv, NetInv;
    ReachableInv(cfg, s);
  }

  /** Under any loss, reordering and duplication, a callback begins at most as often as it panicked plus
      once for each worker runner of its node, and returns at most once for each runner. */
  lemma CallbackRuns(cfg: Config, s: System, n: NodeId, cb: Callback)
    requires ValidConfig(cfg) && Reachable(cfg, s) && n in s.nodes
    ensures n in cfg.runners
    ensures Times(s.nodes[n].begun, cb) <= Times(s.nodes[n].panicked, cb) + cfg.runners[n]
    ensures Times(s.nodes[n].returned, cb) <= cfg.runners[n]
  {
    hide Reachable;
    CallbackCounts(cfg, s, n, cb);
  }

  /** The table as its users see it, while a node has made at most 2^32 registrations: it holds a callback
      from its registration until it first returns, and no longer. */
  lemma TableHoldsIff(cfg: Config, s: System, n: NodeId, cb: Callback)
    requires ValidConfig(cfg) && Reachable(cfg, s) && n in s.nodes && 1 <= cb <= s.nodes[n].serial <= TWO_32
    ensures Holds(s.nodes[n], cb) <==> Times(s.nodes[n].returned, cb) == 0
  {
    hide Reachable, RequestsInv, FiresInv, SidsInv, SessionsInv, NetInv, NodeInv, Holds;
    ReachableInv(cfg, s);
    HoldsIff(s.nodes[n], cfg.runners[n], cb);
  }

  /** So a response that has reached its requester can begin the callback on any idle runner until the
      callback has returned, whatever other requests are pending. */
  lemma ResponseBegins(cfg: Config, s: System, n: NodeId, runner: nat, p: Packet, cb: Callback)
    requires ValidConfig(cfg) && Reachable(cfg, s) && Received(cfg.schema, s, n, p)
    requires n in cfg.handlers && p.common.route in cfg.handlers[n] && cfg.handlers[n][p.common.route] == Response
    requires p.common.mid == MidOf(cb)
    requires 1 <= cb <= s.nodes[n].serial <= TWO_32 && Times(s.nodes[n].returned, cb) == 0
    requires n in cfg.runners && runner !in s.nodes[n].busy && |s.nodes[n].busy| < cfg.runners[n]
    ensures var s' := Next(cfg, s, BeginCallback(n, runner, p));
      s'.Some? && Fire(n, cb, p, Seen(cfg.schema, p).value) in s'.value.fires && n in s'.value.nodes
      && Times(s'.value.nodes[n].begun, cb) == Times(s.nodes[n].begun, cb) + 1
  {
    hide Reachable, Sendable, Seen;
    TableHoldsIff(cfg, s, n, cb);
  }

  /** With one runner and no panic each callback begins at most once. */
  lemma OneShot(cfg: Config, s: System, n: NodeId, cb: Callback)
    requires ValidConfig(cfg) && Reachable(cfg, s) && n in s.nodes
    requires n in cfg.runners && cfg.runners[n] == 1 && Times(s.nodes[n].panicked, cb) == 0
    ensures Times(s.nodes[n].begun, cb) <= 1
  {
    CallbackRuns(cfg, s, n, cb);
  }

  /** Over any run that keeps to the response types, a callback only ever begins with a response to a
      request that carried its mid, sent back by the node that request went to; and while its node has
      made at most 2^32 registrations, that is the one request sent for this very callback. */
  lemma RpcCorrelation(cfg: Config, s: System, f: Fire) returns (x: Sent)
    requires ValidConfig(cfg) && DisciplinedReachable(cfg, s) && f in s.fires
    ensures x in s.requests && x.node == f.node && x.request.common.mid == MidOf(f.cb) && Answers(f.response, x.request)
    ensures f.node in s.nodes && (s.nodes[f.node].serial <= TWO_32 ==> x.cb == f.cb)
    ensures forall y :: y in s.requests && x.node == y.node && x.cb == y.cb ==> x == y
    ensures f.response in s.net && ReadAs(cfg, f.response, f.msg)
  {
    hide NodesInv, SidsInv, SessionsInv, NetInv, Next, Runs.Reachable;
    DisciplinedInv(cfg, s);
    assert Answered(s, f.response);
    x :| x in s.requests && Answers(f.response, x.request);
    if s.nodes[f.node].serial <= TWO_32 { MidsApart(x.cb, f.cb); }
  }

  /** d answers f: same gate and sid, the Mid the client chose, the Uid stamped then, the same two nodes. */
  predicate OwnExchange(d: Delivery, f: Forwarded) {
    && f.sid == d.sid && f.gate == d.gate && SameExchange(d.packet, f.packet)
    && d.packet.common.mid == f.client.common.mid
  }

  /** When the default handler of a node hands a packet to an agent: it was read there, no handler is
      registered for its Route, and its Sid is that of a session in this gate's table. */
  lemma DeliveredIff(cfg: Config, s: System, n: NodeId, p: Packet)
    ensures Next(cfg, s, DefaultHandler(n, p)).Some? <==>
      && Received(cfg.schema, s, n, p) && p.common.sid in s.live && p.common.sid in s.sessions
      && s.sessions[p.common.sid].gate == n
      && (n !in cfg.handlers || p.common.route !in cfg.handlers[n] || cfg.handlers[n][p.common.route] == Default)
  {
  }

  /** A session that has left is handed nothing any more, and no bind changes its uid. */
  lemma NothingAfterLeave(cfg: Config, s: System, s': System, sid: Bytes)
    requires sid in s.sessions && sid !in s.live && Runs.Reachable(Stepper(cfg), s, s')
    ensures sid in s'.sessions && s'.sessions[sid] == s.sessions[sid]
    ensures forall d :: d in s'.deliveries && d.sid == sid ==> d in s.deliveries
  {
    hide Next;
    var kept := (x: System) =>
      && sid in x.sessions && x.sessions[sid] == s.sessions[sid] && sid !in x.live
      && forall d :: d in x.deliveries && d.sid == sid ==> d in s.deliveries;
    forall x, step | kept(x) && Next(cfg, x, step).Some? ensures kept(Next(cfg, x, step).value) {
      GoneStaysGone(cfg, x, step, sid);
    }
    Runs.ReachableKeeps(Stepper(cfg), kept, s, s');
  }

  lemma GoneStaysGone(cfg: Config, s: System, step: Step, sid: Bytes)
    requires sid in s.sessions && sid !in s.live && Next(cfg, s, step).Some?
    ensures var s' := Next(cfg, s, step).value;
      && sid in s'.sessions && s'.sessions[sid] == s.sessions[sid] && sid !in s'.live
      && forall d :: d in s'.deliveries && d.sid == sid ==> d in s.deliveries
  {
    hide CanSend, Sendable, Seen, Dispatch, RequestHeader, ResponseHeader, Stamp, Register, Begin, Return, Panic;
  }

  /** Every packet the gate's default handler hands to agent sid carries that sid, and belongs to an
      exchange the same agent started: the same gate forwarded a client packet of this agent with the
      same Mid, and the packet still runs between the two nodes of that exchange. */
  lemma GateRouting(cfg: Config, s: System, d: Delivery)
    requires ValidConfig(cfg) && Reachable(cfg, s) && d in s.deliveries
    ensures d.packet.common.sid == d.sid && d.sid != [] && d.packet.common.targetId == d.gate
    ensures d.packet in s.net && ReadAs(cfg, d.packet, d.msg)
    ensures exists f :: f in s.forwards && OwnExchange(d, f)
  {
    hide NodesInv, RequestsInv, FiresInv, NetInv;
    ReachableInv(cfg, s);
    assert FromForward(s, d.packet);
    var f :| f in s.forwards && SameExchange(d.packet, f.packet);
    assert OwnExchange(d, f);
  }

  /** What the receiving node's ReadMessage makes of any frame on the bus: the header as it was sent, with
      the message read from as many bytes as the cut length says; the very message sent, if it fits. */
  lemma BusDelivers(cfg: Config, s: System, p: Packet, maps: Maps)
    requires ValidConfig(cfg) && Reachable(cfg, s) && p in s.net
    requires Lawful(cfg.schema) && Consistent(cfg.schema, maps) && p.msg.typ in maps.type2id
    ensures CanSend(cfg.schema, p) && ParseFrame(cfg.schema, maps, FrameOf(cfg.schema, p), false).result ==
      if Seen(cfg.schema, p).Some? then Ok(Packet(p.common, Seen(cfg.schema, p).value)) else Err(PayloadMalformed)
    ensures Fits(cfg.schema, p) ==> ParseFrame(cfg.schema, maps, FrameOf(cfg.schema, p), false) == Parsed(Ok(p), [])
  {
    hide NodesInv, RequestsInv, FiresInv, SidsInv, SessionsInv, ParseFrame, Seen;
    ReachableInv(cfg, s);
    FrameAloneParses(cfg.schema, maps, p, false);
    assert FrameOf(cfg.schema, p) + [] == FrameOf(cfg.schema, p);
    if Fits(cfg.schema, p) { FrameParses(cfg.schema, maps, p, [], false); }
  }

  /** A request that was given up, or sent, is never sent again. */
  lemma NeverSentAgain(cfg: Config, s: System, s': System, n: NodeId, cb: Callback)
    requires n in s.nodes && cb <= s.nodes[n].serial && cb !in s.nodes[n].unsent
    requires Runs.Reachable(Stepper(cfg), s, s')
    ensures forall x :: x in s'.requests && x !in s.requests ==> x.node != n || x.cb != cb
  {
    hide Next;
    var kept := (y: System) =>
      && n in y.nodes && cb <= y.nodes[n].serial && cb !in y.nodes[n].unsent
      && forall x :: x in y.requests && x !in s.requests ==> x.node != n || x.cb != cb;
    forall y, step | kept(y) && Next(cfg, y, step).Some? ensures kept(Next(cfg, y, step).value) {
      NodeHistory(cfg, y, step, n);
      RequestsOf(cfg, y, step);
    }
    Runs.ReachableKeeps(Stepper(cfg), kept, s, s');
  }

  lemma RequestsOf(cfg: Config, s: System, step: Step)
    requires Next(cfg, s, step).Some?
    ensures forall x :: x in Next(cfg, s, step).value.requests && x !in s.requests ==>
      x.node in s.nodes && x.cb in s.nodes[x.node].unsent
  {
    hide CanSend, Received, Dispatch, ResponseHeader, Stamp, Register, Begin, Return, Panic;
  }

  /** A request that is given up is not unsent any more. */
  lemma Abandoned(cfg: Config, s: System, n: NodeId, cb: Callback)
    requires n in s.nodes && cb in s.nodes[n].unsent
    ensures var s' := Next(cfg, s, AbandonRequest(n, cb));
      s'.Some? && n in s'.value.nodes && s'.value.nodes[n] == s.nodes[n].(unsent := s.nodes[n].unsent - {cb})
  {
  }

  // ---- The bound on callbacks is met ----

  lemma ReachStep(cfg: Config, s: System, step: Step) returns (s': System)
    requires Reachable(cfg, s) && Next(cfg, s, step).Some?
    ensures s' == Next(cfg, s, step).value && Reachable(cfg, s')
  {
    hide Next;
    s' := Next(cfg, s, step).value;
    Runs.ReachStep(Stepper(cfg), Init(cfg), s, step);
  }

  /** The request of a's first callback to b, and the response b's handler sends. */
  function FirstRequest(cfg: Config, a: NodeId, b: NodeId, req: Message): Packet {
    Packet(RequestHeader(a, b, 1, RouteOf(cfg.schema, req)), req)
  }

  function FirstResponse(cfg: Config, a: NodeId, b: NodeId, req: Message, resp: Message): Packet {
    Packet(ResponseHeader(FirstRequest(cfg, a, b, req).common, RouteOf(cfg.schema, resp)), resp)
  }

  /** Two nodes can make this exchange: both messages can be published and read, and a takes the response as one. */
  ghost predicate Exchange(cfg: Config, a: NodeId, b: NodeId, req: Message, resp: Message) {
    && ValidConfig(cfg) && a in cfg.handlers && b in cfg.handlers
    && CanExchange(cfg, FirstRequest(cfg, a, b, req)) && CanExchange(cfg, FirstResponse(cfg, a, b, req, resp))
    && Dispatch(cfg.handlers, a, FirstResponse(cfg, a, b, req, resp)) == Response
  }

  predicate CanExchange(cfg: Config, p: Packet) { CanSend(cfg.schema, p) && Seen(cfg.schema, p).Some? }

  lemma Arrives(cfg: Config, s: System, n: NodeId, p: Packet)
    requires CanExchange(cfg, p) && n in s.nodes && p in s.net && p.common.targetId == n
    ensures Received(cfg.schema, s, n, p)
  {
  }

  /** a's first callback is registered under mid 1, has run so often, and runs on these runners; the
      response is on the bus. */
  ghost predicate Waiting(cfg: Config, s: System, a: NodeId, p: Packet, begun: nat, panicked: nat,
                          busy: map<nat, Callback>)
  {
    && Reachable(cfg, s) && a in s.nodes && p in s.net && p.common.targetId == a && p.common.mid == 1
    && s.nodes[a].handlers == map[1 := 1] && s.nodes[a].busy == busy
    && Times(s.nodes[a].begun, 1) == begun && Times(s.nodes[a].panicked, 1) == panicked
  }

  lemma ReachInit(cfg: Config)
    ensures Reachable(cfg, Init(cfg))
  {
    Runs.ReachInit(Stepper(cfg), Init(cfg));
  }

  lemma Asking(cfg: Config, a: NodeId, b: NodeId, req: Message) returns (registered: System, asked: System)
    requires a in cfg.handlers && b in cfg.handlers && CanSend(cfg.schema, FirstRequest(cfg, a, b, req))
    ensures Next(cfg, Init(cfg), RegisterCallback(a)) == Some(registered)
    ensures Next(cfg, registered, SendRequest(a, 1, b, req)) == Some(asked)
    ensures a in asked.nodes && asked.nodes[a] == FRESH_NODE.(handlers := map[1 := 1], mid := 1, serial := 1)
    ensures b in asked.nodes && FirstRequest(cfg, a, b, req) in asked.net
    ensures asked.requests == {Sent(a, 1, FirstRequest(cfg, a, b, req))}
  {
    hide CanSend, CanBegin, BeginIn, Received, Dispatch, ResponseHeader, Stamp, Return, Panic;
    var waiting := FRESH_NODE.(handlers := map[1 := 1], mid := 1, serial := 1, unsent := {1});
    assert Register(FRESH_NODE) == waiting;
    registered := Init(cfg).(nodes := Init(cfg).nodes[a := waiting]);
    asked := Next(cfg, registered, SendRequest(a, 1, b, req)).value;
    assert {1} - {1} == {};
  }

  /** The first three steps of the exchange: a registers its callback and sends the request, b responds. */
  lemma Asked(cfg: Config, a: NodeId, b: NodeId, req: Message, resp: Message)
    returns (registered: System, asked: System, answered: System)
    requires Exchange(cfg, a, b, req, resp)
    ensures Next(cfg, Init(cfg), RegisterCallback(a)) == Some(registered)
    ensures Next(cfg, registered, SendRequest(a, 1, b, req)) == Some(asked)
    ensures IsRequest(asked, FirstRequest(cfg, a, b, req))
    ensures Next(cfg, asked, Respond(b, FirstRequest(cfg, a, b, req), resp)) == Some(answered)
    ensures a in answered.nodes && answered.nodes[a] == FRESH_NODE.(handlers := map[1 := 1], mid := 1, serial := 1)
    ensures FirstResponse(cfg, a, b, req, resp) in answered.net
    ensures answered.requests == {Sent(a, 1, FirstRequest(cfg, a, b, req))}
  {
    hide CanSend, Received, Dispatch;
    registered, asked := Asking(cfg, a, b, req);
    Arrives(cfg, asked, b, FirstRequest(cfg, a, b, req));
    assert Sent(a, 1, FirstRequest(cfg, a, b, req)) in asked.requests;
    answered := Next(cfg, asked, Respond(b, FirstRequest(cfg, a, b, req), resp)).value;
  }

  lemma ReachResponse(cfg: Config, a: NodeId, b: NodeId, req: Message, resp: Message) returns (s: System)
    requires Exchange(cfg, a, b, req, resp)
    ensures Waiting(cfg, s, a, FirstResponse(cfg, a, b, req, resp), 0, 0, map[])
  {
    hide Reachable, Next, Exchange;
    var registered, asked, answered := Asked(cfg, a, b, req, resp);
    ReachInit(cfg);
    s := ReachStep(cfg, Init(cfg), RegisterCallback(a));
    s := ReachStep(cfg, s, SendRequest(a, 1, b, req));
    s := ReachStep(cfg, s, Respond(b, FirstRequest(cfg, a, b, req), resp));
  }

  /** A delivery of the response begins the callback on an idle runner. */
  lemma ReachBegin(cfg: Config, s: System, a: NodeId, runner: nat, p: Packet, begun: nat, panicked: nat,
                   busy: map<nat, Callback>)
    returns (s': System)
    requires Waiting(cfg, s, a, p, begun, panicked, busy)
    requires CanExchange(cfg, p) && Dispatch(cfg.handlers, a, p) == Response
    requires runner !in busy && a in cfg.runners && |busy| < cfg.runners[a]
    ensures Waiting(cfg, s', a, p, begun + 1, panicked, busy[runner := 1])
  {
    hide Reachable, Received, Seen, CanExchange, Dispatch;
    Arrives(cfg, s, a, p);
    s' := ReachStep(cfg, s, BeginCallback(a, runner, p));
  }

  lemma ReachPanic(cfg: Config, s: System, a: NodeId, runner: nat, p: Packet, begun: nat, panicked: nat,
                   busy: map<nat, Callback>)
    returns (s': System)
    requires Waiting(cfg, s, a, p, begun, panicked, busy) && runner in busy && busy[runner] == 1
    ensures Waiting(cfg, s', a, p, begun, panicked + 1, busy - {runner})
  {
    hide Reachable;
    s' := ReachStep(cfg, s, EndCallback(a, runner, Panics));
  }

  /** Deliver the response and panic, as often as asked. */
  lemma {:induction false} ReachPanics(cfg: Config, a: NodeId, b: NodeId, req: Message, resp: Message, panicked: nat)
    returns (s: System)
    requires Exchange(cfg, a, b, req, resp) && (panicked > 0 ==> cfg.runners[a] >= 1)
    ensures Waiting(cfg, s, a, FirstResponse(cfg, a, b, req, resp), panicked, panicked, map[])
  {
    hide Waiting, CanExchange, FirstResponse, Dispatch;
    if panicked == 0 {
      s := ReachResponse(cfg, a, b, req, resp);
    } else {
      var p := FirstResponse(cfg, a, b, req, resp);
      s := ReachPanics(cfg, a, b, req, resp, panicked - 1);
      s := ReachBegin(cfg, s, a, 0, p, panicked - 1, panicked - 1, map[]);
      s := ReachPanic(cfg, s, a, 0, p, panicked, panicked - 1, map[0 := 1]);
      assert map[0 := 1] - {0} == map[];
    }
  }

  /** Then the same response to `more` runners at once. */
  lemma {:induction false} ReachBegins(cfg: Config, a: NodeId, b: NodeId, req: Message, resp: Message, panicked: nat,
                                       more: nat)
    returns (s: System, busy: map<nat, Callback>)
    requires Exchange(cfg, a, b, req, resp) && (panicked > 0 ==> cfg.runners[a] >= 1) && more <= cfg.runners[a]
    ensures Waiting(cfg, s, a, FirstResponse(cfg, a, b, req, resp), panicked + more, panicked, busy)
    ensures |busy| == more && forall r :: r in busy ==> r < more
  {
    hide Waiting, CanExchange, FirstResponse, Dispatch;
    if more == 0 {
      s := ReachPanics(cfg, a, b, req, resp, panicked);
      busy := map[];
    } else {
      s, busy := ReachBegins(cfg, a, b, req, resp, panicked, more - 1);
      s := ReachBegin(cfg, s, a, more - 1, FirstResponse(cfg, a, b, req, resp), panicked + more - 1, panicked, busy);
      busy := busy[more - 1 := 1];
    }
  }

  /** A run in which a's first callback began and panicked so often. */
  ghost predicate Possible(cfg: Config, a: NodeId, begun: nat, panicked: nat) {
    exists s :: Reachable(cfg, s) && RanTimes(s, a, begun, panicked)
  }

  predicate RanTimes(s: System, a: NodeId, begun: nat, panicked: nat) {
    a in s.nodes && Times(s.nodes[a].begun, 1) == begun && Times(s.nodes[a].panicked, 1) == panicked
  }

  /** The bound is met: one response can begin the callback exactly as often as CallbackRuns allows. So
      "at most once" fails for two runners without any panic, and for one runner after a panic, which
      leaves the callback registered. */
  lemma CallbackTimesIff(cfg: Config, a: NodeId, b: NodeId, req: Message, resp: Message, begun: nat, panicked: nat)
    requires Exchange(cfg, a, b, req, resp)
    ensures Possible(cfg, a, begun, panicked) <==>
      panicked <= begun <= panicked + cfg.runners[a] && (cfg.runners[a] == 0 ==> begun == 0)
  {
    hide Reachable, CanExchange, Dispatch;
    if s :| Reachable(cfg, s) && RanTimes(s, a, begun, panicked) {
      CallbackCounts(cfg, s, a, 1);
    }
    if panicked <= begun <= panicked + cfg.runners[a] && (cfg.runners[a] == 0 ==> begun == 0) {
      var s, _ := ReachBegins(cfg, a, b, req, resp, panicked, begun - panicked);
      assert RanTimes(s, a, begun, panicked);
    }
  }

  /** At most once without a panic is what a node gets exactly with one runner or none. */
  lemma BeginsTwiceIff(cfg: Config, a: NodeId, b: NodeId, req: Message, resp: Message)
    requires Exchange(cfg, a, b, req, resp)
    ensures Possible(cfg, a, 2, 0) <==> cfg.runners[a] >= 2
    ensures Possible(cfg, a, 2, 1) <==> cfg.runners[a] >= 1
  {
    hide Possible, CanExchange, Dispatch;
    CallbackTimesIff(cfg, a, b, req, resp, 2, 0);
    CallbackTimesIff(cfg, a, b, req, resp, 2, 1);
  }

  // ---- Mids come round again ----

  lemma DisciplinedStep(cfg: Config, s: System, step: Step) returns (s': System)
    requires DisciplinedReachable(cfg, s) && Disciplined(cfg, s, step) && Next(cfg, s, step).Some?
    ensures s' == Next(cfg, s, step).value && DisciplinedReachable(cfg, s')
  {
    hide Next, Disciplined;
    s' := Next(cfg, s, step).value;
    Runs.ReachStep(DisciplinedStepper(cfg), Init(cfg), s, step);
  }

  /** k more registrations at a node that does nothing else. */
  lemma {:induction false} ReachRegistered(cfg: Config, s: System, n: NodeId, k: nat) returns (s': System)
    requires DisciplinedReachable(cfg, s) && n in s.nodes && s.nodes[n].mid == s.nodes[n].serial % TWO_32
    ensures DisciplinedReachable(cfg, s') && n in s'.nodes && s'.nodes[n].serial == s.nodes[n].serial + k
    ensures s'.nodes[n].mid == s'.nodes[n].serial % TWO_32 && s'.nodes[n].busy == s.nodes[n].busy
    ensures k > 0 ==>
      s'.nodes[n].mid in s'.nodes[n].handlers && s'.nodes[n].handlers[s'.nodes[n].mid] == s'.nodes[n].serial
    ensures s'.net == s.net && s'.requests == s.requests && s'.fires == s.fires
    decreases k
  {
    hide DisciplinedReachable;
    if k == 0 {
      s' := s;
    } else {
      s' := ReachRegistered(cfg, s, n, k - 1);
      MidAdvances(s'.nodes[n].serial);
      s' := DisciplinedStep(cfg, s', RegisterCallback(n));
    }
  }

  lemma ReachAnswered(cfg: Config, a: NodeId, b: NodeId, req: Message, resp: Message) returns (s: System)
    requires Exchange(cfg, a, b, req, resp) && RouteOf(cfg.schema, req) !in cfg.responses
    ensures DisciplinedReachable(cfg, s) && a in s.nodes && s.requests == {Sent(a, 1, FirstRequest(cfg, a, b, req))}
    ensures FirstResponse(cfg, a, b, req, resp) in s.net
    ensures s.nodes[a] == FRESH_NODE.(handlers := map[1 := 1], mid := 1, serial := 1)
  {
    hide DisciplinedReachable, Next, Exchange;
    var registered, asked, answered := Asked(cfg, a, b, req, resp);
    DisciplinedStart(cfg);
    s := DisciplinedStep(cfg, Init(cfg), RegisterCallback(a));
    s := DisciplinedStep(cfg, s, SendRequest(a, 1, b, req));
    s := DisciplinedStep(cfg, s, Respond(b, FirstRequest(cfg, a, b, req), resp));
  }

  lemma DisciplinedStart(cfg: Config)
    ensures DisciplinedReachable(cfg, Init(cfg))
  {
    Runs.ReachInit(DisciplinedStepper(cfg), Init(cfg));
  }

  /** A callback at a node that made n registrations began, and no request was ever sent for it. */
  ghost predicate WrongAnswer(s: System, f: Fire, n: nat) {
    f in s.fires && f.node in s.nodes && s.nodes[f.node].serial == n && forall x :: x in s.requests ==> x.cb != f.cb
  }

  /** After 2^32 more registrations the response to the first request, delivered again, begins a callback
      for which no request was ever sent. */
  lemma MidsComeRound(cfg: Config, a: NodeId, b: NodeId, req: Message, resp: Message, n: nat)
    returns (s: System, f: Fire)
    requires Exchange(cfg, a, b, req, resp) && RouteOf(cfg.schema, req) !in cfg.responses && cfg.runners[a] >= 1
    requires n > TWO_32
    ensures DisciplinedReachable(cfg, s) && WrongAnswer(s, f, n)
  {
    hide DisciplinedReachable, CanSend, Received, Dispatch;
    var p := FirstResponse(cfg, a, b, req, resp);
    s := ReachAnswered(cfg, a, b, req, resp);
    s := ReachRegistered(cfg, s, a, TWO_32);
    Arrives(cfg, s, a, p);
    s := DisciplinedStep(cfg, s, BeginCallback(a, 0, p));
    f := Fire(a, TWO_32 + 1, p, Seen(cfg.schema, p).value);
    s := ReachRegistered(cfg, s, a, n - TWO_32 - 1);
  }

  /** Mids tell callbacks apart for exactly 2^32 registrations: that a callback begins without a request of
      its own is possible at a node after n registrations if and only if n is more. */
  lemma MidsIff(cfg: Config, a: NodeId, b: NodeId, req: Message, resp: Message, n: nat)
    requires Exchange(cfg, a, b, req, resp) && RouteOf(cfg.schema, req) !in cfg.responses && cfg.runners[a] >= 1
    ensures (exists s, f :: DisciplinedReachable(cfg, s) && WrongAnswer(s, f, n)) <==> n > TWO_32
  {
    hide DisciplinedReachable, CanExchange, Dispatch;
    if n > TWO_32 {
      var s, f := MidsComeRound(cfg, a, b, req, resp, n);
    } else if s, f :| DisciplinedReachable(cfg, s) && WrongAnswer(s, f, n) {
      var x := RpcCorrelation(cfg, s, f);
    }
  }
}

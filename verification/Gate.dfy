/** One client's agent and the cluster as one system: the packets the agent's reader decodes are those the
    gate forwards, the default handler feeds the agent's queue, and its binds are the session's. */
module Gate {
  import opened Base
  import opened Messages
  import opened HashRegistry
  import opened Packet
  import opened Protobuf
  import opened Stream
  import Agents
  import AgentLife
  import Cluster
  import MsgHandler
  import Runs

  /** The gate's node id and registry, and whether the client's connection fails or ends cleanly. */
  datatype Config = Config(
    cluster: Cluster.Config, agent: AgentLife.Config, gate: Cluster.NodeId, maps: Maps, broken: bool)

  ghost predicate ValidConfig(cfg: Config) {
    Cluster.ValidConfig(cfg.cluster) && cfg.agent.schema == cfg.cluster.schema
  }

  /** The agent once there is one, what its reader has not read yet and the packets it has read, and the
      message each producer is about to enqueue. */
  datatype Joint = Joint(
    system: Cluster.System, agent: Option<AgentLife.State>, unread: Bytes, read: seq<Packet>, handed: map<nat, Packet>)

  /** input is all that the client's connection will deliver. */
  function Init(cfg: Config, input: Bytes): Joint {
    Joint(Cluster.Init(cfg.cluster), None, input, [], map[])
  }

  /** The steps of nodes and other sessions; the connection of this client; one turn of its reader, with the
      node found for the packet, if any; one turn of the default handler for it; its goroutines. */
  datatype Step =
    | Outside(step: Cluster.Step)
    | Accept(tables: Agents.History)
    | ReadPacket(target: Option<Cluster.NodeId>)
    | Deliver(producer: nat, p: Packet)
    | Work(work: AgentLife.Step)

  /** The steps of the cluster that this agent takes part in. */
  predicate Own(cfg: Config, step: Cluster.Step) {
    match step
    case Join(_, sid) => sid == cfg.agent.sid
    case Bind(sid, _) => sid == cfg.agent.sid
    case Leave(sid) => sid == cfg.agent.sid
    case Forward(sid, _, _) => sid == cfg.agent.sid
    case DefaultHandler(_, p) => p.common.sid == cfg.agent.sid
    case _ => false
  }

  /** What a change of the tables means for the session. */
  function Mirrored(cfg: Config, agent: AgentLife.State, step: AgentLife.Step): Option<Cluster.Step> {
    var sid := cfg.agent.sid;
    match step
    case UnbindSid => if sid in agent.tables.tables.uidOf then Some(Cluster.Leave(sid)) else None
    case TableOp(OpUnbind(s)) => if s == sid && sid in agent.tables.tables.uidOf then Some(Cluster.Leave(sid)) else None
    case TableOp(OpBindUid(s, uid)) =>
      if s == sid && Agents.BindUidIn(agent.tables.tables, s, uid).Ok? then Some(Cluster.Bind(s, uid)) else None
    case _ => None
  }

  /** The message handed to a producer is the only one it enqueues. */
  predicate Allowed(x: Joint, step: AgentLife.Step) {
    && !step.CheckState?
    && (step.Enqueue? ==> step.p in x.handed && x.handed[step.p] == step.packet)
  }

  function Next(cfg: Config, x: Joint, step: Step): Option<Joint> {
    var sid := cfg.agent.sid;
    match step
    case Outside(s) =>
      if Own(cfg, s) || Cluster.Next(cfg.cluster, x.system, s).None? then None
      else Some(x.(system := Cluster.Next(cfg.cluster, x.system, s).value))
    case Accept(tables) =>
      var joined := Cluster.Next(cfg.cluster, x.system, Cluster.Join(cfg.gate, sid));
      if x.agent.Some? || joined.None? || sid !in tables.used then None
      else if sid !in tables.tables.uidOf || tables.tables.uidOf[sid] != 0 then None
      else Some(x.(system := joined.value, agent := Some(AgentLife.Init(tables))))
    case ReadPacket(target) =>
      var parsed := ParseFrame(cfg.agent.schema, cfg.maps, x.unread, cfg.broken);
      if x.agent.None? || x.agent.value.readerGone || parsed.result.Err? then None
      else
        var x' := x.(unread := parsed.rest, read := x.read + [parsed.result.value]);
        if target.None? then Some(x') else
        var forwarded := Cluster.Next(cfg.cluster, x.system, Cluster.Forward(sid, parsed.result.value, target.value));
        if forwarded.None? then None else Some(x'.(system := forwarded.value))
    case Deliver(producer, p) =>
      var delivered := Cluster.Next(cfg.cluster, x.system, Cluster.DefaultHandler(cfg.gate, p));
      if x.agent.None? || p.common.sid != sid || delivered.None? then None
      else
        var checked := AgentLife.Next(cfg.agent, x.agent.value, AgentLife.CheckState(producer));
        if checked.None? then Some(x.(system := delivered.value))
        else Some(x.(system := delivered.value, agent := checked,
                     handed := x.handed[producer := Packet(p.common, Seen(cfg.cluster.schema, p).value)]))
    case Work(s) =>
      if x.agent.None? || !Allowed(x, s) || AgentLife.Next(cfg.agent, x.agent.value, s).None? then None
      else
        var worked := x.(agent := AgentLife.Next(cfg.agent, x.agent.value, s));
        var mirrored := Mirrored(cfg, x.agent.value, s);
        if mirrored.None? then Some(worked)
        else if Cluster.Next(cfg.cluster, x.system, mirrored.value).None? then None
        else Some(worked.(system := Cluster.Next(cfg.cluster, x.system, mirrored.value).value))
  }

  function Stepper(cfg: Config): (Joint, Step) -> Option<Joint> { (x, step) => Next(cfg, x, step) }

  ghost predicate Reachable(cfg: Config, input: Bytes, x: Joint) { Runs.Reachable(Stepper(cfg), Init(cfg, input), x) }

  // ---- The invariant ----

  /** What the default handler passes to the agent: the header as it came, and the message read. */
  function Handed(d: Cluster.Delivery): Packet { Packet(d.packet.common, d.msg) }

  ghost predicate HandedTo(cfg: Config, system: Cluster.System, q: Packet, d: Cluster.Delivery) {
    d in system.deliveries && d.gate == cfg.gate && d.sid == cfg.agent.sid && q == Handed(d)
  }

  ghost predicate Fed(cfg: Config, system: Cluster.System, q: Packet) {
    exists d :: HandedTo(cfg, system, q, d)
  }

  /** All that was accepted for the client, or is about to be, came from the gate's default handler. */
  ghost predicate FedInv(cfg: Config, x: Joint) {
    && (forall k :: k in x.handed ==> Fed(cfg, x.system, x.handed[k]))
    && (x.agent.Some? ==> forall q :: q in x.agent.value.accepted ==> Fed(cfg, x.system, q))
  }

  /** The reader has read the first packets of the input, and only those were forwarded for the client. */
  ghost predicate ReadInv(cfg: Config, input: Bytes, x: Joint) {
    && ParseAll(cfg.agent.schema, cfg.maps, input, cfg.broken)
       == Prepend(x.read, ParseAll(cfg.agent.schema, cfg.maps, x.unread, cfg.broken))
    && (forall f :: f in x.system.forwards && f.sid == cfg.agent.sid ==> f.client in x.read)
  }

  /** The session is live while the sid is in the table, and has the uid that the table holds. */
  ghost predicate TiedInv(cfg: Config, x: Joint) {
    var sid, sessions := cfg.agent.sid, x.system.sessions;
    && (x.agent.None? ==> sid !in sessions && sid !in x.system.live)
    && (x.agent.Some? ==>
          var uidOf := x.agent.value.tables.tables.uidOf;
          && sid in sessions && sessions[sid].gate == cfg.gate
          && sid in x.agent.value.tables.used && (sid in x.system.live <==> sid in uidOf)
          && (sid in uidOf ==> sessions[sid].uid == uidOf[sid]))
  }

  ghost predicate PartsInv(cfg: Config, x: Joint) {
    && Cluster.Reachable(cfg.cluster, x.system)
    && (x.agent.Some? ==> AgentLife.Reachable(cfg.agent, x.agent.value))
  }

  ghost predicate Inv(cfg: Config, input: Bytes, x: Joint) {
    PartsInv(cfg, x) && FedInv(cfg, x) && ReadInv(cfg, input, x) && TiedInv(cfg, x)
  }

  lemma InitInv(cfg: Config, input: Bytes)
    ensures Inv(cfg, input, Init(cfg, input))
  {
    hide ParseAll, ParseFrame;
    Cluster.ReachInit(cfg.cluster);
    PrependLaws([], [], ParseAll(cfg.agent.schema, cfg.maps, input, cfg.broken));
  }

  /** What the cluster's part of a step is, if it has one. */
  function ClusterStep(cfg: Config, x: Joint, step: Step): Option<Cluster.Step> {
    match step
    case Outside(s) => Some(s)
    case Accept(_) => Some(Cluster.Join(cfg.gate, cfg.agent.sid))
    case ReadPacket(target) =>
      var parsed := ParseFrame(cfg.agent.schema, cfg.maps, x.unread, cfg.broken);
      if target.None? || parsed.result.Err? then None
      else Some(Cluster.Forward(cfg.agent.sid, parsed.result.value, target.value))
    case Deliver(_, p) => Some(Cluster.DefaultHandler(cfg.gate, p))
    case Work(s) => if x.agent.None? then None else Mirrored(cfg, x.agent.value, s)
  }

  lemma ClusterPart(cfg: Config, x: Joint, step: Step)
    requires Next(cfg, x, step).Some?
    ensures var x', s := Next(cfg, x, step).value, ClusterStep(cfg, x, step);
      if s.None? then x'.system == x.system else Cluster.Next(cfg.cluster, x.system, s.value) == Some(x'.system)
  {
    hide Cluster.Next, AgentLife.Next, ParseFrame, Mirrored;
  }

  lemma PartsKept(cfg: Config, x: Joint, step: Step)
    requires PartsInv(cfg, x) && Next(cfg, x, step).Some?
    ensures PartsInv(cfg, Next(cfg, x, step).value)
  {
    hide Cluster.Next, AgentLife.Next, ParseFrame, Mirrored, Cluster.Reachable, AgentLife.Reachable;
    var clusterStep := ClusterStep(cfg, x, step);
    ClusterPart(cfg, x, step);
    if clusterStep.Some? { var system := Cluster.ReachStep(cfg.cluster, x.system, clusterStep.value); }
    match step {
      case Accept(tables) => AgentLife.ReachInit(cfg.agent, tables);
      case Deliver(producer, _) =>
        if AgentLife.Next(cfg.agent, x.agent.value, AgentLife.CheckState(producer)).Some? {
          var agent := AgentLife.ReachStep(cfg.agent, x.agent.value, AgentLife.CheckState(producer));
        }
      case Work(s) => var agent := AgentLife.ReachStep(cfg.agent, x.agent.value, s);
      case _ =>
    }
  }

  /** What the steps of the cluster do to the records of one sid. */
  lemma RecordsGrow(cfg: Cluster.Config, s: Cluster.System, step: Cluster.Step)
    requires Cluster.Next(cfg, s, step).Some?
    ensures var s' := Cluster.Next(cfg, s, step).value;
      && s.deliveries <= s'.deliveries && s.forwards <= s'.forwards
      && (forall f :: f in s'.forwards && f !in s.forwards ==>
            step.Forward? && f.sid == step.sid && f.client == step.client)
  {
    hide Cluster.CanSend, Cluster.Received, Cluster.Dispatch, Cluster.RequestHeader;
    hide Cluster.ResponseHeader, Cluster.Stamp;
  }

  lemma AcceptedGrows(cfg: AgentLife.Config, s: AgentLife.State, step: AgentLife.Step)
    requires AgentLife.Next(cfg, s, step).Some?
    ensures AgentLife.Next(cfg, s, step).value.accepted == s.accepted + (if step.Enqueue? then [step.packet] else [])
  {
    hide AgentLife.PackedFrame, Agents.Apply;
    assert s.accepted + [] == s.accepted;
  }

  lemma DeliveryIsHanded(cfg: Config, s: Cluster.System, p: Packet)
    requires Cluster.Next(cfg.cluster, s, Cluster.DefaultHandler(cfg.gate, p)).Some? && p.common.sid == cfg.agent.sid
    ensures Sendable(cfg.cluster.schema, p) && Seen(cfg.cluster.schema, p).Some?
    ensures Fed(cfg, Cluster.Next(cfg.cluster, s, Cluster.DefaultHandler(cfg.gate, p)).value,
                Packet(p.common, Seen(cfg.cluster.schema, p).value))
  {
    hide Sendable, Seen;
    var s' := Cluster.Next(cfg.cluster, s, Cluster.DefaultHandler(cfg.gate, p)).value;
    var d := Cluster.Delivery(cfg.gate, cfg.agent.sid, p, Seen(cfg.cluster.schema, p).value);
    assert HandedTo(cfg, s', Handed(d), d);
  }

  lemma FedStays(cfg: Config, s: Cluster.System, s': Cluster.System, q: Packet)
    requires Fed(cfg, s, q) && s.deliveries <= s'.deliveries
    ensures Fed(cfg, s', q)
  {
    var d :| HandedTo(cfg, s, q, d);
    assert HandedTo(cfg, s', q, d);
  }

  lemma FedKept(cfg: Config, x: Joint, step: Step)
    requires FedInv(cfg, x) && Next(cfg, x, step).Some?
    ensures FedInv(cfg, Next(cfg, x, step).value)
  {
    hide Cluster.Next, AgentLife.Next, ParseFrame, Mirrored, Sendable, Seen, Fed;
    var x', clusterStep := Next(cfg, x, step).value, ClusterStep(cfg, x, step);
    ClusterPart(cfg, x, step);
    if clusterStep.Some? { RecordsGrow(cfg.cluster, x.system, clusterStep.value); }
    if step.Deliver? {
      DeliveryIsHanded(cfg, x.system, step.p);
      if AgentLife.Next(cfg.agent, x.agent.value, AgentLife.CheckState(step.producer)).Some? {
        AcceptedGrows(cfg.agent, x.agent.value, AgentLife.CheckState(step.producer));
      }
    }
    if step.Work? { AcceptedGrows(cfg.agent, x.agent.value, step.work); }
    forall q | Fed(cfg, x.system, q) ensures Fed(cfg, x'.system, q) { FedStays(cfg, x.system, x'.system, q); }
  }

  lemma ReadKept(cfg: Config, input: Bytes, x: Joint, step: Step)
    requires ReadInv(cfg, input, x) && Next(cfg, x, step).Some?
    ensures ReadInv(cfg, input, Next(cfg, x, step).value)
  {
    hide Cluster.Next, AgentLife.Next, ParseFrame, ParseAll, Prepend, Mirrored;
    var clusterStep := ClusterStep(cfg, x, step);
    ClusterPart(cfg, x, step);
    if clusterStep.Some? { RecordsGrow(cfg.cluster, x.system, clusterStep.value); }
    if step.ReadPacket? {
      var parsed := ParseFrame(cfg.agent.schema, cfg.maps, x.unread, cfg.broken);
      var left := ParseAll(cfg.agent.schema, cfg.maps, parsed.rest, cfg.broken);
      ParseAllStep(cfg.agent.schema, cfg.maps, x.unread, cfg.broken, parsed.result.value, parsed.rest);
      PrependLaws(x.read, [parsed.result.value], left);
    } else {
      if clusterStep.Some? { MirroredForwardsNothing(cfg, x, step); }
    }
  }

  lemma MirroredForwardsNothing(cfg: Config, x: Joint, step: Step)
    requires Next(cfg, x, step).Some? && !step.ReadPacket? && ClusterStep(cfg, x, step).Some?
    ensures var s := ClusterStep(cfg, x, step).value; s.Forward? ==> s.sid != cfg.agent.sid
  {
    hide Cluster.Next, AgentLife.Next;
  }

  /** Steps that are not this session's leave it alone. */
  lemma OthersLeaveAlone(cfg: Config, s: Cluster.System, step: Cluster.Step)
    requires Cluster.Next(cfg.cluster, s, step).Some? && (!Own(cfg, step) || step.Forward? || step.DefaultHandler?)
    ensures var s', sid := Cluster.Next(cfg.cluster, s, step).value, cfg.agent.sid;
      && (sid in s'.sessions <==> sid in s.sessions) && (sid in s'.live <==> sid in s.live)
      && (sid in s.sessions ==> s'.sessions[sid] == s.sessions[sid])
  {
    hide Cluster.CanSend, Cluster.Received, Cluster.Dispatch, Cluster.RequestHeader;
    hide Cluster.ResponseHeader, Cluster.Stamp;
  }

  /** Only table operations change the tables, and only those mirrored what they hold of this sid. */
  lemma TablesKept(cfg: Config, s: AgentLife.State, step: AgentLife.Step)
    requires AgentLife.Next(cfg.agent, s, step).Some? && cfg.agent.sid in s.tables.used && Mirrored(cfg, s, step).None?
    ensures var s', sid := AgentLife.Next(cfg.agent, s, step).value, cfg.agent.sid;
      && sid in s'.tables.used && (sid in s'.tables.tables.uidOf <==> sid in s.tables.tables.uidOf)
      && (sid in s.tables.tables.uidOf ==> s'.tables.tables.uidOf[sid] == s.tables.tables.uidOf[sid])
  {
    hide AgentLife.PackedFrame;
  }

  lemma MirroredChange(cfg: Config, x: Joint, step: AgentLife.Step)
    requires TiedInv(cfg, x) && Next(cfg, x, Work(step)).Some? && Mirrored(cfg, x.agent.value, step).Some?
    ensures TiedInv(cfg, Next(cfg, x, Work(step)).value)
  {
    hide AgentLife.PackedFrame, Cluster.CanSend, Cluster.Received, Cluster.Dispatch;
  }

  lemma TiedKept(cfg: Config, x: Joint, step: Step)
    requires TiedInv(cfg, x) && Next(cfg, x, step).Some?
    ensures TiedInv(cfg, Next(cfg, x, step).value)
  {
    hide AgentLife.Next, ParseFrame, Sendable, Seen, Cluster.Received, Cluster.CanSend;
    match step
    case Outside(s) => OthersLeaveAlone(cfg, x.system, s);
    case Accept(_) =>
    case ReadPacket(_) => ReadLeavesAlone(cfg, x, step);
    case Deliver(producer, p) =>
      OthersLeaveAlone(cfg, x.system, Cluster.DefaultHandler(cfg.gate, p));
      if AgentLife.Next(cfg.agent, x.agent.value, AgentLife.CheckState(producer)).Some? {
        TablesKept(cfg, x.agent.value, AgentLife.CheckState(producer));
      }
    case Work(s) =>
      if Mirrored(cfg, x.agent.value, s).Some? {
        MirroredChange(cfg, x, s);
      } else {
        TablesKept(cfg, x.agent.value, s);
      }
  }

  lemma ReadLeavesAlone(cfg: Config, x: Joint, step: Step)
    requires TiedInv(cfg, x) && Next(cfg, x, step).Some? && step.ReadPacket?
    ensures TiedInv(cfg, Next(cfg, x, step).value)
  {
    hide Cluster.Next, ParseFrame;
    ClusterPart(cfg, x, step);
    var clusterStep := ClusterStep(cfg, x, step);
    if clusterStep.Some? { OthersLeaveAlone(cfg, x.system, clusterStep.value); }
  }

  lemma StepKeepsInv(cfg: Config, input: Bytes, x: Joint, step: Step)
    requires Inv(cfg, input, x) && Next(cfg, x, step).Some?
    ensures Inv(cfg, input, Next(cfg, x, step).value)
  {
    hide Next, PartsInv, FedInv, ReadInv, TiedInv;
    PartsKept(cfg, x, step);
    FedKept(cfg, x, step);
    ReadKept(cfg, input, x, step);
    TiedKept(cfg, x, step);
  }

  /** The coupling holds nothing up: whatever an agent's goroutine can do that is allowed here, it can do
      in the joint system. */
  lemma WorkIsFree(cfg: Config, x: Joint, step: AgentLife.Step)
    requires TiedInv(cfg, x) && x.agent.Some? && Allowed(x, step)
    requires AgentLife.Next(cfg.agent, x.agent.value, step).Some?
    ensures Next(cfg, x, Work(step)).Some?
  {
    hide AgentLife.Next, Cluster.CanSend, Cluster.Received, Cluster.Dispatch;
  }

  lemma ReachableInv(cfg: Config, input: Bytes, x: Joint)
    requires Reachable(cfg, input, x)
    ensures Inv(cfg, input, x)
  {
    hide Inv, Next;
    var inv := y => Inv(cfg, input, y);
    InitInv(cfg, input);
    forall y, step | inv(y) && Next(cfg, y, step).Some? ensures inv(Next(cfg, y, step).value) {
      StepKeepsInv(cfg, input, y, step);
    }
    Runs.ReachableKeeps(Stepper(cfg), inv, Init(cfg, input), x);
  }

  /** Once the client is connected: its session is live exactly while its sid is in the gate's table, and the
      uid that the gate stamps on its packets meanwhile is the one the table holds. */
  lemma SessionIsTied(cfg: Config, input: Bytes, x: Joint)
    requires Reachable(cfg, input, x) && x.agent.Some?
    ensures var sid, uidOf := cfg.agent.sid, x.agent.value.tables.tables.uidOf;
      && (sid in x.system.live <==> sid in uidOf)
      && sid in x.system.sessions && (sid in uidOf ==> x.system.sessions[sid].uid == uidOf[sid])
  {
    hide Reachable, PartsInv, FedInv, ReadInv;
    ReachableInv(cfg, input, x);
  }

  /** A client packet as a node gets it, and the answer of the node as the gate gets it. */
  function Stamped(cfg: Config, uid: uint64, client: Packet, target: Cluster.NodeId): Packet {
    Packet(MsgCommon(cfg.gate, target, client.common.mid, cfg.agent.sid, uid, client.common.route), client.msg)
  }

  function Answer(cfg: Config, uid: uint64, client: Packet, target: Cluster.NodeId, msg: Message): Packet {
    var route := cfg.cluster.schema.checksum(msg.typ.fullName);
    Packet(MsgCommon(target, cfg.gate, client.common.mid, cfg.agent.sid, uid, route), msg)
  }

  /** A packet the reader reads and a node is found for goes to that node from this gate, with the client's
      sid and the uid bound to it in place of what the client sent, and everything else as it came. */
  lemma ForwardIsStamped(cfg: Config, input: Bytes, x: Joint, target: Cluster.NodeId)
    requires Reachable(cfg, input, x) && Next(cfg, x, ReadPacket(Some(target))).Some?
    ensures x.agent.Some? && cfg.agent.sid in x.system.sessions
    ensures var sid, x' := cfg.agent.sid, Next(cfg, x, ReadPacket(Some(target))).value;
      var uid, uidOf := x.system.sessions[sid].uid, x.agent.value.tables.tables.uidOf;
      && |x'.read| == |x.read| + 1 && x'.read == x.read + [x'.read[|x.read|]]
      && (sid in uidOf ==> uid == uidOf[sid])
      && var client := x'.read[|x.read|];
         var q := Stamped(cfg, uid, client, target);
         && x'.system.net == x.system.net + {q}
         && x'.system.forwards == x.system.forwards + {Cluster.Forwarded(cfg.gate, sid, client, q)}
  {
    hide Reachable, PartsInv, FedInv, ReadInv, ParseFrame, Cluster.CanSend, Cluster.Received, Cluster.Dispatch;
    ReachableInv(cfg, input, x);
    assert TiedInv(cfg, x);
  }

  /** What the gate forwarded for the client are packets it decoded from the client's bytes. */
  lemma ForwardsAreDecoded(cfg: Config, input: Bytes, x: Joint, f: Cluster.Forwarded)
    requires Reachable(cfg, input, x) && f in x.system.forwards && f.sid == cfg.agent.sid
    ensures f.client in ParseAll(cfg.agent.schema, cfg.maps, input, cfg.broken).0
  {
    hide Reachable, PartsInv, FedInv, TiedInv, ParseAll;
    ReachableInv(cfg, input, x);
  }

  // ---- A request and its answer ----

  /** A client with this uid can ask a node and be answered: the tables it starts with, its first packet, and
      the answer; all of it can be published and read, and the gate has no handler for the answer. */
  datatype Talk = Talk(tables: Agents.History, uid: uint64, client: Packet, target: Cluster.NodeId, msg: Message)

  ghost predicate CanTalk(cfg: Config, input: Bytes, talk: Talk) {
    var sid, schema := cfg.agent.sid, cfg.cluster.schema;
    var q := Stamped(cfg, talk.uid, talk.client, talk.target);
    var r := Answer(cfg, talk.uid, talk.client, talk.target, talk.msg);
    && ValidConfig(cfg) && cfg.gate in cfg.cluster.handlers && talk.target in cfg.cluster.handlers
    && sid != [] && sid in talk.tables.used && talk.uid >= 1
    && sid in talk.tables.tables.uidOf && talk.tables.tables.uidOf[sid] == 0
    && ParseFrame(schema, cfg.maps, input, cfg.broken).result == Ok(talk.client)
    && Cluster.CanExchange(cfg.cluster, q) && Cluster.CanExchange(cfg.cluster, r)
    && Cluster.Dispatch(cfg.cluster.handlers, cfg.gate, r) == MsgHandler.Default
    && cfg.agent.backlog > 0 && cfg.agent.capacity > 0
    && AgentLife.PackedFrame(schema, Packet(r.common, Seen(schema, r).value)).Some?
  }

  lemma ReachStep(cfg: Config, input: Bytes, x: Joint, step: Step) returns (x': Joint)
    requires Reachable(cfg, input, x) && Next(cfg, x, step).Some?
    ensures x' == Next(cfg, x, step).value && Reachable(cfg, input, x')
  {
    hide Next;
    x' := Next(cfg, x, step).value;
    Runs.ReachStep(Stepper(cfg), Init(cfg, input), x, step);
  }

  /** The agent is in its loop, with nothing going on. */
  predicate Idle(agent: AgentLife.State) {
    && agent.mem == AgentLife.Memory(false, 0, [], [], false) && agent.writer.Selecting? && !agent.readerGone
    && agent.producers == map[] && agent.tried == [] && agent.wire == [] && agent.failures == 0
  }

  ghost predicate Connected(cfg: Config, input: Bytes, x: Joint, uid: uint64) {
    && Reachable(cfg, input, x) && x.handed == map[] && x.agent.Some? && Idle(x.agent.value)
    && cfg.agent.sid in x.system.sessions && cfg.agent.sid in x.system.live
    && x.system.sessions[cfg.agent.sid] == Cluster.Session(cfg.gate, uid)
    && x.system.nodes.Keys == cfg.cluster.handlers.Keys
  }

  lemma ReachAccepted(cfg: Config, input: Bytes, talk: Talk) returns (x: Joint)
    requires CanTalk(cfg, input, talk)
    ensures Connected(cfg, input, x, 0) && x.unread == input && x.agent.value == AgentLife.Init(talk.tables)
  {
    hide Reachable, ParseFrame, Cluster.CanExchange, Cluster.Dispatch, AgentLife.PackedFrame, Seen;
    hide AgentLife.Next, Cluster.CanBegin, Cluster.BeginIn, Cluster.CanSend, Cluster.Received, Mirrored;
    StartReachable(cfg, input);
    x := ReachStep(cfg, input, Init(cfg, input), Accept(talk.tables));
  }

  lemma StartReachable(cfg: Config, input: Bytes)
    ensures Reachable(cfg, input, Init(cfg, input))
  {
    Runs.ReachInit(Stepper(cfg), Init(cfg, input));
  }

  lemma ReachBound(cfg: Config, input: Bytes, talk: Talk) returns (x: Joint)
    requires CanTalk(cfg, input, talk)
    ensures Connected(cfg, input, x, talk.uid) && x.unread == input
  {
    hide Reachable, ParseFrame, Cluster.CanExchange, Cluster.Dispatch, AgentLife.PackedFrame, Seen;
    x := ReachAccepted(cfg, input, talk);
    x := ReachStep(cfg, input, x, Work(AgentLife.TableOp(Agents.OpBindUid(cfg.agent.sid, talk.uid))));
  }

  lemma ReachForwarded(cfg: Config, input: Bytes, talk: Talk) returns (x: Joint)
    requires CanTalk(cfg, input, talk)
    ensures Connected(cfg, input, x, talk.uid) && Stamped(cfg, talk.uid, talk.client, talk.target) in x.system.net
  {
    hide Reachable, ParseFrame, Cluster.Dispatch, AgentLife.PackedFrame, Seen, Sendable, HeaderFits;
    x := ReachBound(cfg, input, talk);
    x := ReachStep(cfg, input, x, ReadPacket(Some(talk.target)));
  }

  lemma ReachAnswered(cfg: Config, input: Bytes, talk: Talk) returns (x: Joint)
    requires CanTalk(cfg, input, talk)
    ensures Connected(cfg, input, x, talk.uid)
    ensures Answer(cfg, talk.uid, talk.client, talk.target, talk.msg) in x.system.net
  {
    hide Reachable, ParseFrame, Cluster.Dispatch, AgentLife.PackedFrame, Seen, Sendable, HeaderFits;
    x := ReachForwarded(cfg, input, talk);
    var q := Stamped(cfg, talk.uid, talk.client, talk.target);
    Cluster.Arrives(cfg.cluster, x.system, talk.target, q);
    x := ReachStep(cfg, input, x, Outside(Cluster.Respond(talk.target, q, talk.msg)));
  }

  /** What the default handler hands to the agent of the answer. */
  function HandedAnswer(cfg: Config, talk: Talk): Packet
    requires var r := Answer(cfg, talk.uid, talk.client, talk.target, talk.msg);
      Sendable(cfg.cluster.schema, r) && Seen(cfg.cluster.schema, r).Some?
  {
    var r := Answer(cfg, talk.uid, talk.client, talk.target, talk.msg);
    Packet(r.common, Seen(cfg.cluster.schema, r).value)
  }

  lemma ReachDelivered(cfg: Config, input: Bytes, talk: Talk) returns (x: Joint)
    requires CanTalk(cfg, input, talk)
    ensures Reachable(cfg, input, x) && x.agent.Some? && x.handed == map[0 := HandedAnswer(cfg, talk)]
    ensures var agent := x.agent.value;
      agent.producers == map[0 := AgentLife.StateChecked] && Idle(agent.(producers := map[]))
  {
    hide Reachable, ParseFrame, Cluster.Dispatch, AgentLife.PackedFrame, Seen, Sendable, HeaderFits;
    x := ReachAnswered(cfg, input, talk);
    var r := Answer(cfg, talk.uid, talk.client, talk.target, talk.msg);
    Cluster.Arrives(cfg.cluster, x.system, cfg.gate, r);
    x := ReachStep(cfg, input, x, Deliver(0, r));
  }

  lemma ReachWork(cfg: Config, input: Bytes, x: Joint, step: AgentLife.Step) returns (x': Joint)
    requires Reachable(cfg, input, x) && x.agent.Some? && Allowed(x, step)
    requires AgentLife.Next(cfg.agent, x.agent.value, step).Some? && Mirrored(cfg, x.agent.value, step).None?
    ensures Reachable(cfg, input, x') && x'.agent == AgentLife.Next(cfg.agent, x.agent.value, step)
    ensures x'.handed == x.handed
  {
    hide AgentLife.Next, Reachable, Mirrored;
    x' := ReachStep(cfg, input, x, Work(step));
  }

  lemma ReachMoving(cfg: Config, input: Bytes, talk: Talk) returns (x: Joint)
    requires CanTalk(cfg, input, talk)
    ensures Reachable(cfg, input, x) && x.agent.Some?
    ensures var frame := AgentLife.PackedFrame(cfg.agent.schema, HandedAnswer(cfg, talk));
      && frame.Some? && x.agent.value.writer == AgentLife.Moving(frame.value)
      && Idle(x.agent.value.(writer := AgentLife.Selecting))
  {
    hide Reachable, ParseFrame, Cluster.Dispatch, AgentLife.PackedFrame, Seen, Sendable, HeaderFits;
    x := ReachDelivered(cfg, input, talk);
    x := ReachWork(cfg, input, x, AgentLife.CheckLength(0));
    x := ReachWork(cfg, input, x, AgentLife.Enqueue(0, HandedAnswer(cfg, talk)));
    assert x.agent.value.mem.pending == [HandedAnswer(cfg, talk)] && x.agent.value.producers == map[];
    x := ReachWork(cfg, input, x, AgentLife.TakePending);
  }

  /** A client that connects, is bound to a uid and sends a packet a node answers gets the answer: there is a
      run that ends with exactly the frame of the answer on its wire. */
  lemma AnswerArrives(cfg: Config, input: Bytes, talk: Talk)
    requires CanTalk(cfg, input, talk)
    ensures var frame := AgentLife.PackedFrame(cfg.agent.schema, HandedAnswer(cfg, talk));
      frame.Some? && exists x :: Reachable(cfg, input, x) && Wrote(x, frame.value)
  {
    hide Reachable, ParseFrame, Cluster.Dispatch, AgentLife.PackedFrame, Seen, Sendable, HeaderFits;
    var x := ReachMoving(cfg, input, talk);
    x := ReachWork(cfg, input, x, AgentLife.MoveToWrite);
    x := ReachWork(cfg, input, x, AgentLife.TakeWrite);
    x := ReachWork(cfg, input, x, AgentLife.WriteReturns(true));
    assert Wrote(x, AgentLife.PackedFrame(cfg.agent.schema, HandedAnswer(cfg, talk)).value);
  }

  predicate Wrote(x: Joint, frame: Bytes) {
    x.agent.Some? && x.agent.value.wire == [AgentLife.Item(frame, false)]
  }
}

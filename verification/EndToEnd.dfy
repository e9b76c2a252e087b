/** The pieces joined: from a client's bytes to the gate, and from the bus back to the client. */
module EndToEnd {
  import opened Base
  import opened Messages
  import opened HashRegistry
  import opened Packet
  import opened Stream
  import AgentLife
  import Cluster
  import Gate
  import WebSocket

  /** A client's frames, cut into websocket messages anywhere and read through WSConn with any buffer
      sizes until the connection ends or a reader fails: the agent's read loop gets the packets whose
      frames were handed out whole, and then a read failure; bytes that come with the failure belong to a
      read that fails. It gets all packets exactly when the reader neither returned the last bytes
      together with their end nor failed in mid-stream. */
  lemma WebsocketToAgent(schema: Schema, gate: Maps, ps: seq<Packet>,
                         ms: seq<WebSocket.WsMessage>, calls: seq<WebSocket.ReadCall>)
    returns (j: nat)
    requires Lawful(schema) && Consistent(schema, gate) && AllFit(schema, gate, ps)
    requires WebSocket.Payloads(ms) == Wire(schema, ps)
    requires WebSocket.ReadRun(WebSocket.Fresh(ms), calls).failed
    ensures j <= |ps| && ParseAll(schema, gate, WebSocket.HandedOut(ms, calls), true) == (ps[..j], ReadFailed)
    ensures var st := WebSocket.Fresh(ms);
      j == |ps| <==>
        !WebSocket.AtFailure(st, calls, WebSocket.CutsOff) && !WebSocket.AtFailure(st, calls, WebSocket.BreaksOff)
  {
    hide ParseAll, Wire, WebSocket.ReadRun, WebSocket.AtFailure, AllFit;
    var st := WebSocket.Fresh(ms);
    var r := WebSocket.ReadRun(st, calls);
    var got, wire := Flatten(r.pieces), Wire(schema, ps);
    WebSocket.LosslessIff(st, calls);
    WebSocket.ReadRunConserves(st, calls);
    assert WebSocket.Pending(st) == wire;
    FrontOf(got, r.tail, WebSocket.RunSwallowed(st, calls), WebSocket.Pending(r.state), wire);
    j := PrefixDecodes(schema, gate, ps, |got|, true);
  }

  lemma FrontOf(a: Bytes, b: Bytes, c: Bytes, d: Bytes, whole: Bytes)
    requires whole == a + b + c + d
    ensures |a| <= |whole| && whole[..|a|] == a && (|a| == |whole| <==> a == whole)
  {
  }

  lemma {:induction false} NothingDropped(schema: Schema, ps: seq<Packet>)
    requires forall i :: 0 <= i < |ps| ==> Sendable(schema, ps[i])
    ensures AgentLife.Deliverable(schema, ps) == ps
  {
    if ps == [] {
    } else {
      NothingDropped(schema, ps[1..]);
      assert AgentLife.Stamped(schema, ps[0]) == ps[0];
      assert ps == [ps[0]] + ps[1..];
    }
  }

  /** The packets the agent's reader decodes of the client's bytes. */
  function Decoded(cfg: Gate.Config, input: Bytes): seq<Packet> {
    ParseAll(cfg.agent.schema, cfg.maps, input, cfg.broken).0
  }

  /** q carries the client's sid and belongs to an exchange that a packet of the client started: it has the
      Mid of the packet, and runs between the same two nodes. */
  ghost predicate OwnAnswer(cfg: Gate.Config, system: Cluster.System, sent: seq<Packet>, q: Packet) {
    && q.common.sid == cfg.agent.sid
    && exists d, f :: Gate.HandedTo(cfg, system, q, d) && OwnExchange(system, sent, d, f)
  }

  ghost predicate OwnExchange(system: Cluster.System, sent: seq<Packet>, d: Cluster.Delivery, f: Cluster.Forwarded) {
    f in system.forwards && Cluster.OwnExchange(d, f) && f.client in sent
  }

  /** The decoded messages are short enough to be packed again, and the client knows their types. */
  ghost predicate Packable(schema: Schema, client: Maps, accepted: seq<Packet>) {
    forall i :: 0 <= i < |accepted| ==>
      && accepted[i].msg.typ in client.type2id
      && (schema.marshal(accepted[i].msg).Some? ==> |schema.marshal(accepted[i].msg).value| < TWO_16)
  }

  /** The pipeline has the connection to itself, and no write on it has failed. */
  predicate CleanWire(agent: AgentLife.State) {
    agent.failures == 0 && forall i :: 0 <= i < |agent.wire| ==> !agent.wire[i].raw
  }

  /** Whatever happens on the bus, in the handlers, and among the goroutines of the agent: from the first n
      bytes of the wire a client decodes a prefix of the messages accepted for it, and each of them
      carries its own sid and the Mid of a packet that the gate read from its bytes. A failing connection
      adds nothing to them, and one that ended cleanly inside a frame at most one packet. */
  lemma ClientReadsOwnAnswers(cfg: Gate.Config, input: Bytes, x: Gate.Joint, client: Maps, n: nat, broken: bool)
    returns (j: nat)
    requires Gate.ValidConfig(cfg) && Gate.Reachable(cfg, input, x) && x.agent.Some? && CleanWire(x.agent.value)
    requires Lawful(cfg.agent.schema) && Consistent(cfg.agent.schema, client)
    requires Packable(cfg.agent.schema, client, x.agent.value.accepted)
    requires n <= |Flatten(AgentLife.BytesOf(x.agent.value.wire))|
    ensures var written := Flatten(AgentLife.BytesOf(x.agent.value.wire));
      j <= |x.agent.value.wire| <= |x.agent.value.accepted| && (n == |written| <==> j == |x.agent.value.wire|)
    ensures
      var ps := x.agent.value.accepted[..|x.agent.value.wire|];
      var written := Flatten(AgentLife.BytesOf(x.agent.value.wire));
      AfterWhole(client, ParseAll(cfg.agent.schema, client, written[..n], broken), ps[..j],
                 CutAt(cfg.agent.schema, ps, j, n), broken)
    ensures forall i :: 0 <= i < |x.agent.value.accepted| ==>
      OwnAnswer(cfg, x.system, Decoded(cfg, input), x.agent.value.accepted[i])
  {
    hide ParseAll, Wire, AfterWhole, CutAt, Sendable, Fits;
    hide Lawful, Gate.PartsInv, Gate.TiedInv, Cluster.Reachable, Gate.Reachable;
    hide AgentLife.Reachable, OwnAnswer, Gate.Fed;
    var agent := x.agent.value;
    Gate.ReachableInv(cfg, input, x);
    assert Cluster.Reachable(cfg.cluster, x.system) && AgentLife.Reachable(cfg.agent, agent) by { Parts(cfg, x); }
    forall i | 0 <= i < |agent.accepted|
      ensures Sendable(cfg.agent.schema, agent.accepted[i]) && Fits(cfg.agent.schema, agent.accepted[i])
      ensures OwnAnswer(cfg, x.system, Decoded(cfg, input), agent.accepted[i])
    {
      assert agent.accepted[i] in agent.accepted;
      FedIsOwn(cfg, input, x, agent.accepted[i]);
    }
    NothingDropped(cfg.agent.schema, agent.accepted);
    j := AgentLife.ClientDecodesPrefix(cfg.agent, agent, client, n, broken);
  }

  lemma Parts(cfg: Gate.Config, x: Gate.Joint)
    requires Gate.PartsInv(cfg, x) && x.agent.Some?
    ensures Cluster.Reachable(cfg.cluster, x.system) && AgentLife.Reachable(cfg.agent, x.agent.value)
  {
  }

  lemma FedIsOwn(cfg: Gate.Config, input: Bytes, x: Gate.Joint, q: Packet)
    requires Gate.ValidConfig(cfg) && Cluster.Reachable(cfg.cluster, x.system) && Gate.ReadInv(cfg, input, x)
    requires Gate.Fed(cfg, x.system, q) && Lawful(cfg.agent.schema)
    ensures Sendable(cfg.agent.schema, q) && cfg.agent.schema.marshal(q.msg).Some?
    ensures |cfg.agent.schema.marshal(q.msg).value| < TWO_16 ==> Fits(cfg.agent.schema, q)
    ensures OwnAnswer(cfg, x.system, Decoded(cfg, input), q)
  {
    hide ParseAll, Lawful, Cluster.Reachable, Cluster.NodesInv, Cluster.RequestsInv, Cluster.FiresInv, Cluster.SidsInv;
    var d :| Gate.HandedTo(cfg, x.system, q, d);
    Cluster.GateRouting(cfg.cluster, x.system, d);
    Cluster.ReachableInv(cfg.cluster, x.system);
    assert Cluster.CanSend(cfg.cluster.schema, d.packet);
    var f :| f in x.system.forwards && Cluster.OwnExchange(d, f);
    assert OwnExchange(x.system, Decoded(cfg, input), d, f);
  }

  /** Over a websocket: what a client decodes carries the Mid of a packet it sent itself. */
  lemma WebsocketRoundTrip(cfg: Gate.Config, x: Gate.Joint, ps: seq<Packet>, ms: seq<WebSocket.WsMessage>,
                           calls: seq<WebSocket.ReadCall>, client: Maps)
    requires Gate.ValidConfig(cfg) && cfg.broken && Gate.Reachable(cfg, WebSocket.HandedOut(ms, calls), x)
    requires x.agent.Some? && CleanWire(x.agent.value)
    requires Lawful(cfg.agent.schema) && Consistent(cfg.agent.schema, client) && Consistent(cfg.agent.schema, cfg.maps)
    requires AllFit(cfg.agent.schema, cfg.maps, ps) && Packable(cfg.agent.schema, client, x.agent.value.accepted)
    requires WebSocket.Payloads(ms) == Wire(cfg.agent.schema, ps)
    requires WebSocket.ReadRun(WebSocket.Fresh(ms), calls).failed
    ensures var r := ParseAll(cfg.agent.schema, client, Flatten(AgentLife.BytesOf(x.agent.value.wire)), true).0;
      forall i :: 0 <= i < |r| ==> OwnAnswer(cfg, x.system, ps, r[i])
  {
    hide ParseAll, Wire, AllFit, Packable, Lawful, Consistent, Gate.Reachable, WebSocket.ReadRun, WebSocket.AtFailure;
    var wire := Flatten(AgentLife.BytesOf(x.agent.value.wire));
    var k := WebsocketToAgent(cfg.agent.schema, cfg.maps, ps, ms, calls);
    var j := ClientReadsOwnAnswers(cfg, WebSocket.HandedOut(ms, calls), x, client, |wire|, true);
    assert wire[..|wire|] == wire;
    forall i | 0 <= i < j ensures OwnAnswer(cfg, x.system, ps, x.agent.value.accepted[i]) {
      OwnAmongMore(cfg, x.system, ps, k, x.agent.value.accepted[i]);
    }
  }

  lemma OwnAmongMore(cfg: Gate.Config, system: Cluster.System, ps: seq<Packet>, k: nat, q: Packet)
    requires k <= |ps| && OwnAnswer(cfg, system, ps[..k], q)
    ensures OwnAnswer(cfg, system, ps, q)
  {
    var d, f :| Gate.HandedTo(cfg, system, q, d) && OwnExchange(system, ps[..k], d, f);
    assert OwnExchange(system, ps, d, f);
  }
}

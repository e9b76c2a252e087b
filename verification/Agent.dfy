/** agent.go: one client connection at the gate. A reader, a writer, message producers and callers of
    Close share two queues and a state flag; each Step below is one atomic action of one of them. */
module AgentLife {
  import opened Base
  import opened Messages
  import opened HashRegistry
  import opened Packet
  import opened Stream
  import Agents
  import Runs

  // ---- The shared memory ----

  /** A frame on its way to the client: packed by the pipeline, or handed to SendRaw from outside. */
  datatype Item = Item(bytes: Bytes, raw: bool)

  /** state == AgentClosed, how often close(chDie) was executed, the two queues, and whether chWrite is closed. */
  datatype Memory = Memory(closed: bool, dieCloses: nat, pending: seq<Packet>, write: seq<Item>, writeClosed: bool)

  function PushPending(m: Memory, p: Packet): Memory { m.(pending := m.pending + [p]) }

  function PopPending(m: Memory): Memory
    requires m.pending != []
  {
    m.(pending := m.pending[1..])
  }

  function PushWrite(m: Memory, i: Item): Memory { m.(write := m.write + [i]) }

  function PopWrite(m: Memory): Memory
    requires m.write != []
  {
    m.(write := m.write[1..])
  }

  /** Close run without interruption: only a caller that changed the state closes chDie, and only if it
      finds it open. */
  function CloseEffect(m: Memory): Memory {
    m.(closed := true, dieCloses := if m.closed || m.dieCloses > 0 then m.dieCloses else 1)
  }

  /** A response is queued by an open agent whose backlog is not full, and dropped otherwise. */
  predicate Accepts(m: Memory, backlog: nat) { !m.closed && |m.pending| < backlog }

  /** The writer's turn with a pending message: its frame goes to chWrite, if it packs. */
  function ProcessEffect(schema: Schema, m: Memory): Memory
    requires m.pending != []
  {
    var frame := PackedFrame(schema, m.pending[0]);
    if frame.Some? then PushWrite(PopPending(m), Item(frame.value, false)) else PopPending(m)
  }

  class Agent {
    var closed: bool
    var dieCloses: nat
    var chPending: seq<Packet>
    var chWrite: seq<Item>
    var writeClosed: bool

    function View(): Memory
      reads this
    {
      Memory(closed, dieCloses, chPending, chWrite, writeClosed)
    }

    constructor ()
      ensures View() == Memory(false, 0, [], [], false)
    {
      closed, dieCloses, chPending, chWrite, writeClosed := false, 0, [], [], false;
    }

    /** SetState(AgentClosed) is one swap; true for the caller that changed the state. */
    method SetClosed() returns (changed: bool)
      modifies this`closed
      ensures changed == !old(closed) && View() == old(View()).(closed := true)
    {
      changed := !closed;
      closed := true;
    }

    method Close()
      modifies this`closed, this`dieCloses
      ensures View() == CloseEffect(old(View()))
    {
      var changed := SetClosed();
      if changed {
        if dieCloses == 0 { dieCloses := dieCloses + 1; }
      }
    }

    method Response(p: Packet, backlog: nat) returns (sent: bool)
      modifies this`chPending
      ensures sent <==> Accepts(old(View()), backlog)
      ensures View() == if sent then PushPending(old(View()), p) else old(View())
    {
      if closed || |chPending| >= backlog { return false; }
      SendPending(p);
      return true;
    }

    method SendPending(p: Packet)
      modifies this`chPending
      ensures View() == PushPending(old(View()), p)
    {
      chPending := chPending + [p];
    }

    method TakePending() returns (p: Packet)
      requires chPending != []
      modifies this`chPending
      ensures p == old(chPending)[0] && View() == PopPending(old(View()))
    {
      p, chPending := chPending[0], chPending[1..];
    }

    method SendRaw(i: Item)
      requires !writeClosed
      modifies this`chWrite
      ensures View() == PushWrite(old(View()), i)
    {
      chWrite := chWrite + [i];
    }

    method ProcessPending(schema: Schema)
      requires chPending != [] && !writeClosed
      modifies this`chPending, this`chWrite
      ensures View() == ProcessEffect(schema, old(View()))
    {
      var p := TakePending();
      var frame := PackedFrame(schema, p);
      if frame.Some? { SendRaw(Item(frame.value, false)); }
    }

    method TakeWrite() returns (i: Item)
      requires chWrite != []
      modifies this`chWrite
      ensures i == old(chWrite)[0] && View() == PopWrite(old(View()))
    {
      i, chWrite := chWrite[0], chWrite[1..];
    }
  }

  // ---- Packing in the pipeline ----

  /** The packet with the Route that packing writes. */
  function Stamped(schema: Schema, p: Packet): Packet {
    Packet(p.common.(route := schema.checksum(p.msg.typ.fullName)), p.msg)
  }

  function PackedFrame(schema: Schema, p: Packet): Option<Bytes> {
    var q := Stamped(schema, p);
    if Sendable(schema, q) then Some(FrameOf(schema, q)) else None
  }

  /** PackMessage succeeds exactly where this frame exists and the type can be registered, and returns it. */
  lemma PackedFrameIsPack(schema: Schema, maps: Maps, p: Packet)
    requires Consistent(schema, maps)
    ensures var r := PackSpec(schema, maps, p.common, p.msg).result;
      && (r.Ok? <==> PackedFrame(schema, p).Some? && RegisterStep(schema, maps, p.msg.typ).1.Ok?)
      && (r.Ok? ==> PackedFrame(schema, p) == Some(r.value))
  {
    MarshalIsRegister(schema, maps, p.msg);
  }

  function PackOne(schema: Schema, p: Packet): seq<Bytes> {
    var f := PackedFrame(schema, p);
    if f.Some? then [f.value] else []
  }

  /** The frames of a list of messages, those that do not pack left out. */
  function PackAll(schema: Schema, ps: seq<Packet>): seq<Bytes> {
    if ps == [] then [] else PackOne(schema, ps[0]) + PackAll(schema, ps[1..])
  }

  lemma {:induction false} PackAllSnoc(schema: Schema, ps: seq<Packet>, p: Packet)
    ensures PackAll(schema, ps + [p]) == PackAll(schema, ps) + PackOne(schema, p)
  {
    hide PackOne;
    if ps == [] {
      assert [p][1..] == [] && [] + [p] == [p];
    } else {
      PackAllSnoc(schema, ps[1..], p);
      assert (ps + [p])[1..] == ps[1..] + [p];
    }
  }

  // ---- The goroutines ----

  /** The writer: its select loop, then closeProcess (callbacks, unbind, close the connection, close
      chWrite), then its own call of Close. */
  datatype Writer =
    | Selecting
    | Moving(frame: Bytes)
    | Writing(item: Item)
    | InCallbacks
    | Unbinding
    | ClosingConn
    | ClosingWrite
    | BeforeClose
    | Gone

  /** A caller of Close that changed the state: about to look at chDie, or about to close it. */
  datatype Closer = Won | WillClose

  /** A caller of sendPending that found the agent open, and then the queue not full. */
  datatype Producer = StateChecked | LengthChecked

  /** accepted are the messages put into chPending, tried the frames passed to conn.Write and wire those
      whose write succeeded; processRuns counts entries into closeProcess. */
  datatype State = State(
    mem: Memory, writer: Writer, readerGone: bool, closers: map<nat, Closer>, producers: map<nat, Producer>,
    tables: Agents.History, accepted: seq<Packet>, tried: seq<Item>, wire: seq<Item>, failures: nat, processRuns: nat)

  /** The gate's library code, the agent's sid, the channel capacity and the limit sendPending tests. */
  datatype Config = Config(schema: Schema, sid: Agents.Sid, capacity: nat, backlog: nat)

  function Init(tables: Agents.History): State {
    State(Memory(false, 0, [], [], false), Selecting, false, map[], map[], tables, [], [], [], 0, 0)
  }

  /** The agent's sid was handed out. */
  ghost predicate Starts(cfg: Config, s: State) {
    cfg.sid in s.tables.used && s == Init(s.tables)
  }

  datatype Step =
    | CheckState(p: nat)
    | CheckLength(p: nat)
    | Enqueue(p: nat, packet: Packet)
    | OutsideSendRaw(bytes: Bytes)
    | TakePending
    | MoveToWrite
    | MovePanics
    | TakeWrite
    | WriteReturns(ok: bool)
    | SeeDie
    | HeartbeatExpires
    | CallbacksReturn
    | UnbindSid
    | CloseConn
    | CloseWrite
    | WriterCloses
    | ReaderStops
    | OutsideClose(c: nat)
    | CheckDie(c: nat)
    | CloseDie(c: nat)
    | TableOp(op: Agents.Op)

  const READER: nat := 0
  const WRITER: nat := 1

  /** The swap at the start of Close by caller c. */
  function CallClose(s: State, c: nat): State {
    if s.mem.closed then s else s.(mem := s.mem.(closed := true), closers := s.closers[c := Won])
  }

  function Next(cfg: Config, s: State, step: Step): Option<State> {
    match step
    case CheckState(p) =>
      if p in s.producers || s.mem.closed then None else Some(s.(producers := s.producers[p := StateChecked]))
    case CheckLength(p) =>
      if !(p in s.producers && s.producers[p] == StateChecked) then None
      else if |s.mem.pending| >= cfg.backlog then Some(s.(producers := s.producers - {p}))
      else Some(s.(producers := s.producers[p := LengthChecked]))
    case Enqueue(p, packet) =>
      if !(p in s.producers && s.producers[p] == LengthChecked) || |s.mem.pending| >= cfg.capacity then None
      else Some(s.(mem := PushPending(s.mem, packet), producers := s.producers - {p},
                   accepted := s.accepted + [packet]))
    case OutsideSendRaw(bytes) =>
      if s.mem.writeClosed || |s.mem.write| >= cfg.capacity then None
      else Some(s.(mem := PushWrite(s.mem, Item(bytes, true))))
    case TakePending =>
      if !s.writer.Selecting? || s.mem.pending == [] then None
      else
        var frame := PackedFrame(cfg.schema, s.mem.pending[0]);
        Some(s.(mem := PopPending(s.mem), writer := if frame.Some? then Moving(frame.value) else Selecting))
    case MoveToWrite =>
      if !s.writer.Moving? || s.mem.writeClosed || |s.mem.write| >= cfg.capacity then None
      else Some(s.(mem := PushWrite(s.mem, Item(s.writer.frame, false)), writer := Selecting))
    case MovePanics =>
      if !s.writer.Moving? || !s.mem.writeClosed then None else Some(s.(writer := Gone))
    case TakeWrite =>
      if !s.writer.Selecting? || s.mem.write == [] then None
      else Some(s.(mem := PopWrite(s.mem), writer := Writing(s.mem.write[0])))
    case WriteReturns(ok) =>
      if !s.writer.Writing? then None
      else Some(s.(writer := Selecting, tried := s.tried + [s.writer.item],
                   wire := if ok then s.wire + [s.writer.item] else s.wire,
                   failures := if ok then s.failures else s.failures + 1))
    case SeeDie =>
      if !s.writer.Selecting? || s.mem.dieCloses == 0 then None
      else Some(s.(writer := InCallbacks, processRuns := s.processRuns + 1))
    case HeartbeatExpires =>
      if !s.writer.Selecting? then None else Some(s.(writer := InCallbacks, processRuns := s.processRuns + 1))
    case CallbacksReturn =>
      if !s.writer.InCallbacks? then None else Some(s.(writer := Unbinding))
    case UnbindSid =>
      if !s.writer.Unbinding? then None
      else Some(s.(writer := ClosingConn, tables := Agents.Apply(s.tables, Agents.OpUnbind(cfg.sid)).value))
    case CloseConn =>
      if !s.writer.ClosingConn? then None else Some(s.(writer := ClosingWrite))
    case CloseWrite =>
      if !s.writer.ClosingWrite? then None
      else Some(s.(writer := BeforeClose, mem := s.mem.(writeClosed := true)))
    case WriterCloses =>
      if !s.writer.BeforeClose? then None else Some(CallClose(s, WRITER).(writer := Gone))
    case ReaderStops =>
      if s.readerGone then None else Some(CallClose(s, READER).(readerGone := true))
    case OutsideClose(c) =>
      if c <= WRITER || c in s.closers then None else Some(CallClose(s, c))
    case CheckDie(c) =>
      if !(c in s.closers && s.closers[c] == Won) then None
      else if s.mem.dieCloses > 0 then Some(s.(closers := s.closers - {c}))
      else Some(s.(closers := s.closers[c := WillClose]))
    case CloseDie(c) =>
      if !(c in s.closers && s.closers[c] == WillClose) then None
      else Some(s.(mem := s.mem.(dieCloses := s.mem.dieCloses + 1), closers := s.closers - {c}))
    case TableOp(op) =>
      if Agents.Apply(s.tables, op).None? then None else Some(s.(tables := Agents.Apply(s.tables, op).value))
  }

  function Stepper(cfg: Config): (State, Step) -> Option<State> { (s, step) => Next(cfg, s, step) }

  // ---- Invariants ----

  /** The frames of the pipeline among some items, in order. */
  function Pipe(items: seq<Item>): seq<Bytes> {
    if items == [] then [] else (if items[0].raw then [] else [items[0].bytes]) + Pipe(items[1..])
  }

  lemma {:induction false} PipeSnoc(items: seq<Item>, i: Item)
    ensures Pipe(items + [i]) == Pipe(items) + (if i.raw then [] else [i.bytes])
  {
    if items == [] {
      assert [i][1..] == [] && [] + [i] == [i];
    } else {
      var rest := items[1..];
      PipeSnoc(rest, i);
      assert items + [i] == [items[0]] + (rest + [i]);
      assert Pipe(items + [i]) == (if items[0].raw then [] else [items[0].bytes]) + Pipe(rest + [i]);
    }
  }

  /** The item in the writer's hands on its way to the connection, and the frame on its way to chWrite. */
  function InHand(w: Writer): seq<Bytes> { if w.Writing? && !w.item.raw then [w.item.bytes] else [] }

  function InMove(w: Writer): seq<Bytes> { if w.Moving? then [w.frame] else [] }

  /** Written, being written, queued in chWrite, being moved there, still to be packed. */
  function Pipeline(schema: Schema, tried: seq<Item>, w: Writer, write: seq<Item>, pending: seq<Packet>): seq<Bytes> {
    Pipe(tried) + InHand(w) + Pipe(write) + InMove(w) + PackAll(schema, pending)
  }

  /** The two queues and the writer's hands are one FIFO of the accepted messages. */
  ghost predicate PipelineInv(cfg: Config, s: State) {
    Pipeline(cfg.schema, s.tried, s.writer, s.mem.write, s.mem.pending) == PackAll(cfg.schema, s.accepted)
  }

  ghost predicate WireInv(s: State) {
    (s.failures == 0 ==> s.wire == s.tried) && |s.wire| + s.failures == |s.tried|
  }

  predicate InLoop(w: Writer) { w.Selecting? || w.Moving? || w.Writing? }

  ghost predicate CloseInv(s: State) {
    && (s.closers != map[] ==> s.mem.closed && s.mem.dieCloses == 0)
    && (forall c, d :: c in s.closers && d in s.closers ==> c == d)
    && s.mem.dieCloses <= 1
    && (s.mem.dieCloses == 1 ==> s.mem.closed)
    && s.processRuns == (if InLoop(s.writer) then 0 else 1)
    && (s.mem.writeClosed <==> s.writer.BeforeClose? || s.writer.Gone?)
  }

  /** A closed agent has chDie closed, or somebody on the way to closing it; and who leaves, closes. */
  ghost predicate DieInv(s: State) {
    && (s.mem.closed && s.closers == map[] ==> s.mem.dieCloses == 1)
    && (s.readerGone || s.writer.Gone? ==> s.mem.closed)
  }

  ghost predicate UnboundInv(cfg: Config, s: State) {
    && cfg.sid in s.tables.used
    && (s.writer.ClosingConn? || s.writer.ClosingWrite? || s.writer.BeforeClose? || s.writer.Gone? ==>
          cfg.sid !in s.tables.tables.uidOf)
  }

  ghost predicate Inv(cfg: Config, s: State) {
    PipelineInv(cfg, s) && WireInv(s) && CloseInv(s) && DieInv(s) && UnboundInv(cfg, s)
  }

  lemma EnqueueExtends(schema: Schema, tried: seq<Item>, w: Writer, write: seq<Item>, pending: seq<Packet>, p: Packet)
    ensures Pipeline(schema, tried, w, write, pending + [p])
         == Pipeline(schema, tried, w, write, pending) + PackOne(schema, p)
  {
    hide PackOne;
    PackAllSnoc(schema, pending, p);
  }

  lemma RawKeeps(schema: Schema, tried: seq<Item>, w: Writer, write: seq<Item>, pending: seq<Packet>, b: Bytes)
    ensures Pipeline(schema, tried, w, write + [Item(b, true)], pending) == Pipeline(schema, tried, w, write, pending)
  {
    PipeSnoc(write, Item(b, true));
    assert Pipe(write) + [] == Pipe(write);
  }

  lemma MoveKeeps(schema: Schema, tried: seq<Item>, frame: Bytes, write: seq<Item>, pending: seq<Packet>)
    ensures Pipeline(schema, tried, Selecting, write + [Item(frame, false)], pending)
         == Pipeline(schema, tried, Moving(frame), write, pending)
  {
    hide PackAll;
    PipeSnoc(write, Item(frame, false));
  }

  lemma TakePendingKeeps(schema: Schema, tried: seq<Item>, write: seq<Item>, pending: seq<Packet>)
    requires pending != []
    ensures var f := PackedFrame(schema, pending[0]);
      Pipeline(schema, tried, if f.Some? then Moving(f.value) else Selecting, write, pending[1..])
      == Pipeline(schema, tried, Selecting, write, pending)
  {
    hide PackedFrame, Pipe;
    assert PackAll(schema, pending) == PackOne(schema, pending[0]) + PackAll(schema, pending[1..]);
  }

  lemma TakeWriteKeeps(schema: Schema, tried: seq<Item>, write: seq<Item>, pending: seq<Packet>)
    requires write != []
    ensures Pipeline(schema, tried, Writing(write[0]), write[1..], pending)
         == Pipeline(schema, tried, Selecting, write, pending)
  {
    hide PackAll;
    assert Pipe(write) == InHand(Writing(write[0])) + Pipe(write[1..]);
  }

  lemma WriteKeeps(schema: Schema, tried: seq<Item>, item: Item, write: seq<Item>, pending: seq<Packet>)
    ensures Pipeline(schema, tried + [item], Selecting, write, pending)
         == Pipeline(schema, tried, Writing(item), write, pending)
  {
    hide PackAll;
    PipeSnoc(tried, item);
  }

  lemma PipelineKept(cfg: Config, s: State, step: Step)
    requires PipelineInv(cfg, s) && CloseInv(s) && Next(cfg, s, step).Some?
    ensures PipelineInv(cfg, Next(cfg, s, step).value)
  {
    hide PackedFrame, Pipe, PackAll, PackOne;
    match step
    case Enqueue(_, packet) =>
      EnqueueExtends(cfg.schema, s.tried, s.writer, s.mem.write, s.mem.pending, packet);
      PackAllSnoc(cfg.schema, s.accepted, packet);
    case OutsideSendRaw(bytes) => RawKeeps(cfg.schema, s.tried, s.writer, s.mem.write, s.mem.pending, bytes);
    case MoveToWrite => MoveKeeps(cfg.schema, s.tried, s.writer.frame, s.mem.write, s.mem.pending);
    case TakePending => TakePendingKeeps(cfg.schema, s.tried, s.mem.write, s.mem.pending);
    case TakeWrite => TakeWriteKeeps(cfg.schema, s.tried, s.mem.write, s.mem.pending);
    case WriteReturns(_) => WriteKeeps(cfg.schema, s.tried, s.writer.item, s.mem.write, s.mem.pending);
    case _ =>
  }

  lemma WireKept(cfg: Config, s: State, step: Step)
    requires WireInv(s) && Next(cfg, s, step).Some?
    ensures WireInv(Next(cfg, s, step).value)
  {
  }

  lemma CloseKept(cfg: Config, s: State, step: Step)
    requires CloseInv(s) && Next(cfg, s, step).Some?
    ensures CloseInv(Next(cfg, s, step).value)
  {
    hide PackedFrame;
  }

  lemma DieKept(cfg: Config, s: State, step: Step)
    requires CloseInv(s) && DieInv(s) && Next(cfg, s, step).Some?
    ensures DieInv(Next(cfg, s, step).value)
  {
    hide PackedFrame, Agents.Apply;
    var closers := Next(cfg, s, step).value.closers;
    assert closers == map[] ==> READER !in closers && WRITER !in closers;
    if step.OutsideClose? || step.CheckDie? { assert closers == map[] ==> step.c !in closers; }
  }

  lemma UnboundKept(cfg: Config, s: State, step: Step)
    requires UnboundInv(cfg, s) && CloseInv(s) && Next(cfg, s, step).Some?
    ensures UnboundInv(cfg, Next(cfg, s, step).value)
  {
    hide PackedFrame;
  }

  lemma StepKeepsInv(cfg: Config, s: State, step: Step)
    requires Inv(cfg, s) && Next(cfg, s, step).Some?
    ensures Inv(cfg, Next(cfg, s, step).value)
  {
    hide Next, PipelineInv, WireInv, CloseInv, DieInv, UnboundInv;
    PipelineKept(cfg, s, step);
    WireKept(cfg, s, step);
    CloseKept(cfg, s, step);
    DieKept(cfg, s, step);
    UnboundKept(cfg, s, step);
  }

  // ---- Results over whole runs ----

  /** Whatever the reader, the writer, producers and outside callers do in any order, from a fresh agent. */
  ghost predicate Reachable(cfg: Config, s: State) {
    exists s0 :: Starts(cfg, s0) && Runs.Reachable(Stepper(cfg), s0, s)
  }

  lemma ReachableInv(cfg: Config, s: State)
    requires Reachable(cfg, s)
    ensures Inv(cfg, s)
  {
    hide Next;
    var s0 :| Starts(cfg, s0) && Runs.Reachable(Stepper(cfg), s0, s);
    var inv := x => Inv(cfg, x);
    forall x, step | inv(x) && Next(cfg, x, step).Some? ensures inv(Next(cfg, x, step).value) {
      StepKeepsInv(cfg, x, step);
    }
    Runs.ReachableKeeps(Stepper(cfg), inv, s0, s);
  }

  lemma ReachInit(cfg: Config, tables: Agents.History)
    requires cfg.sid in tables.used
    ensures Reachable(cfg, Init(tables))
  {
    Runs.ReachInit(Stepper(cfg), Init(tables));
    assert Starts(cfg, Init(tables));
  }

  lemma ReachStep(cfg: Config, s: State, step: Step) returns (s': State)
    requires Reachable(cfg, s) && Next(cfg, s, step).Some?
    ensures s' == Next(cfg, s, step).value && Reachable(cfg, s')
  {
    hide Next;
    s' := Next(cfg, s, step).value;
    var s0 :| Starts(cfg, s0) && Runs.Reachable(Stepper(cfg), s0, s);
    Runs.ReachStep(Stepper(cfg), s0, s, step);
  }

  /** chDie is closed at most once and nobody is ever about to close it again, and it is closed by the time
      all calls of Close on a closed agent are over; the reader and the writer leave no open agent behind;
      closeProcess is entered at most once; and the pipeline never sends on a closed chWrite. */
  lemma CloseProtocol(cfg: Config, s: State)
    requires Reachable(cfg, s)
    ensures s.mem.dieCloses <= 1 && s.processRuns <= 1
    ensures forall c :: Next(cfg, s, CloseDie(c)).Some? ==> s.mem.dieCloses == 0
    ensures Next(cfg, s, MovePanics).None?
    ensures s.mem.dieCloses == 1 ==> s.mem.closed
    ensures s.mem.closed && s.closers == map[] ==> s.mem.dieCloses == 1
    ensures s.readerGone || s.writer.Gone? ==> s.mem.closed
  {
    hide Inv;
    ReachableInv(cfg, s);
    assert CloseInv(s) && DieInv(s) by { PartsOfInv(cfg, s); }
  }

  lemma PartsOfInv(cfg: Config, s: State)
    requires Inv(cfg, s)
    ensures CloseInv(s) && DieInv(s) && UnboundInv(cfg, s)
  {
  }

  lemma StaysUnbound(cfg: Config, s: State, step: Step)
    requires Agents.Unbound(s.tables, cfg.sid) && Next(cfg, s, step).Some?
    ensures Agents.Unbound(Next(cfg, s, step).value.tables, cfg.sid)
  {
    hide PackedFrame, Agents.Apply;
    if step.TableOp? { Agents.StaysUnbound(s.tables, step.op, cfg.sid); }
    if step.UnbindSid? {
      UnbindApplies(s.tables, cfg.sid);
      Agents.StaysUnbound(s.tables, Agents.OpUnbind(cfg.sid), cfg.sid);
    }
  }

  lemma UnbindApplies(h: Agents.History, sid: Agents.Sid)
    ensures Agents.Apply(h, Agents.OpUnbind(sid)).Some?
  {
  }

  /** From the moment closeProcess has unbound the sid, no bind of a uid to it succeeds, however the run
      goes on. */
  lemma BindFailsAfterClose(cfg: Config, s: State, steps: seq<Step>, uid: uint64)
    requires Reachable(cfg, s) && Runs.Run(Stepper(cfg), s, steps).Some?
    requires s.writer.ClosingConn? || s.writer.ClosingWrite? || s.writer.BeforeClose? || s.writer.Gone?
    ensures Agents.BindUidIn(Runs.Run(Stepper(cfg), s, steps).value.tables.tables, cfg.sid, uid).Err?
  {
    hide Next, PipelineInv, WireInv, CloseInv;
    ReachableInv(cfg, s);
    var kept := (x: State) => Agents.Unbound(x.tables, cfg.sid);
    forall x, step | kept(x) && Next(cfg, x, step).Some? ensures kept(Next(cfg, x, step).value) {
      StaysUnbound(cfg, x, step);
    }
    Runs.RunKeeps(Stepper(cfg), kept, s, steps);
  }

  /** Neither queue ever holds more than the channels have room for. */
  lemma QueueBounds(cfg: Config, s: State)
    requires Reachable(cfg, s)
    ensures |s.mem.pending| <= cfg.capacity && |s.mem.write| <= cfg.capacity
  {
    hide Next;
    var s0 :| Starts(cfg, s0) && Runs.Reachable(Stepper(cfg), s0, s);
    var kept := (x: State) => |x.mem.pending| <= cfg.capacity && |x.mem.write| <= cfg.capacity;
    forall x, step | kept(x) && Next(cfg, x, step).Some? ensures kept(Next(cfg, x, step).value) {
      BoundsKept(cfg, x, step);
    }
    Runs.ReachableKeeps(Stepper(cfg), kept, s0, s);
  }

  lemma BoundsKept(cfg: Config, s: State, step: Step)
    requires |s.mem.pending| <= cfg.capacity && |s.mem.write| <= cfg.capacity && Next(cfg, s, step).Some?
    ensures var m := Next(cfg, s, step).value.mem; |m.pending| <= cfg.capacity && |m.write| <= cfg.capacity
  {
    hide PackedFrame, Agents.Apply;
  }

  // ---- Calls that nothing interrupts ----

  /** A Close from outside is its steps in a row. */
  lemma CloseAlone(cfg: Config, s: State, c: nat)
    requires c > WRITER && c !in s.closers
    ensures var called := Next(cfg, s, OutsideClose(c));
      && called.Some?
      && if s.mem.closed then called.value.mem == CloseEffect(s.mem) && c !in called.value.closers
         else
           && Next(cfg, called.value, CheckDie(c)).Some?
           && var checked := Next(cfg, called.value, CheckDie(c)).value;
              if s.mem.dieCloses > 0 then checked.mem == CloseEffect(s.mem) && c !in checked.closers
              else
                && Next(cfg, checked, CloseDie(c)).Some?
                && Next(cfg, checked, CloseDie(c)).value.mem == CloseEffect(s.mem)
                && c !in Next(cfg, checked, CloseDie(c)).value.closers
  {
  }

  /** A response is its steps in a row: dropped at the state test or at the length test, or queued as soon
      as the channel has room. */
  lemma ResponseAlone(cfg: Config, s: State, p: nat, packet: Packet)
    requires p !in s.producers
    ensures s.mem.closed ==> Next(cfg, s, CheckState(p)).None?
    ensures !s.mem.closed ==>
      && Next(cfg, s, CheckState(p)).Some?
      && var checked := Next(cfg, Next(cfg, s, CheckState(p)).value, CheckLength(p));
         && checked.Some? && checked.value.mem == s.mem
         && (p in checked.value.producers <==> Accepts(s.mem, cfg.backlog))
         && (Accepts(s.mem, cfg.backlog) && |s.mem.pending| < cfg.capacity ==>
               && Next(cfg, checked.value, Enqueue(p, packet)).Some?
               && Next(cfg, checked.value, Enqueue(p, packet)).value.mem == PushPending(s.mem, packet))
  {
  }

  /** The writer's turn with a pending message is its steps in a row. */
  lemma ProcessAlone(cfg: Config, s: State)
    requires s.writer.Selecting? && s.mem.pending != [] && !s.mem.writeClosed && |s.mem.write| < cfg.capacity
    ensures var taken := Next(cfg, s, TakePending);
      && taken.Some?
      && if taken.value.writer.Selecting? then taken.value.mem == ProcessEffect(cfg.schema, s.mem)
         else
           && Next(cfg, taken.value, MoveToWrite).Some?
           && Next(cfg, taken.value, MoveToWrite).value.mem == ProcessEffect(cfg.schema, s.mem)
  {
    hide PackedFrame;
  }

  // ---- The end of an agent ----

  /** Some run leads from one state to the other. */
  ghost predicate Leads(cfg: Config, s: State, s': State) { Runs.Reachable(Stepper(cfg), s, s') }

  ghost predicate Goes(cfg: Config, s0: State, s: State) {
    Leads(cfg, s0, s) && CloseInv(s) && DieInv(s) && UnboundInv(cfg, s)
  }

  lemma Go(cfg: Config, s0: State, s: State, step: Step) returns (s': State)
    requires Goes(cfg, s0, s) && Next(cfg, s, step).Some?
    ensures s' == Next(cfg, s, step).value && Goes(cfg, s0, s')
  {
    hide Next, CloseInv, DieInv, UnboundInv;
    s' := Next(cfg, s, step).value;
    Runs.ReachStep(Stepper(cfg), s0, s, step);
    CloseKept(cfg, s, step);
    DieKept(cfg, s, step);
    UnboundKept(cfg, s, step);
  }

  /** The writer is about to send to chWrite, which is full, and which only the writer drains. */
  predicate Stuck(cfg: Config, s: State) {
    s.writer.Moving? && !s.mem.writeClosed && |s.mem.write| >= cfg.capacity
  }

  predicate SameStuck(cfg: Config, s: State, s': State) {
    Stuck(cfg, s') && s'.writer == s.writer && s'.tried == s.tried && s'.processRuns == s.processRuns
  }

  lemma StuckStays(cfg: Config, s: State, step: Step)
    requires Stuck(cfg, s) && Next(cfg, s, step).Some?
    ensures SameStuck(cfg, s, Next(cfg, s, step).value)
  {
    hide PackedFrame;
  }

  /** Then nothing is ever written again, and closeProcess is never entered, whoever calls Close. */
  lemma StuckForEver(cfg: Config, s: State, s': State)
    requires Stuck(cfg, s) && Leads(cfg, s, s')
    ensures SameStuck(cfg, s, s')
  {
    hide Next, Stuck;
    var kept := (x: State) => SameStuck(cfg, s, x);
    forall x, step | kept(x) && Next(cfg, x, step).Some? ensures kept(Next(cfg, x, step).value) {
      StuckStays(cfg, x, step);
    }
    Runs.ReachableKeeps(Stepper(cfg), kept, s, s');
  }

  /** The writer is gone, closeProcess has run once, chWrite and chDie are closed, and the sid is unbound. */
  predicate Over(cfg: Config, s: State) {
    && s.writer.Gone? && s.processRuns == 1 && s.mem.writeClosed && s.mem.dieCloses == 1 && s.closers == map[]
    && cfg.sid !in s.tables.tables.uidOf
  }

  /** The writer goes back to its select loop. */
  lemma BackToLoop(cfg: Config, s0: State, s: State) returns (s': State)
    requires Goes(cfg, s0, s) && InLoop(s.writer) && !Stuck(cfg, s)
    ensures Goes(cfg, s0, s') && s'.writer.Selecting?
  {
    hide Leads;
    s' := s;
    if s.writer.Moving? { s' := Go(cfg, s0, s, MoveToWrite); }
    if s.writer.Writing? { s' := Go(cfg, s0, s, WriteReturns(true)); }
  }

  /** It sees chDie closed or, if nobody closed it, the heartbeat expire, and enters closeProcess. */
  lemma IntoCloseProcess(cfg: Config, s0: State, s: State) returns (s': State)
    requires Goes(cfg, s0, s) && !Stuck(cfg, s)
    ensures Goes(cfg, s0, s') && !InLoop(s'.writer)
  {
    hide Goes, Stuck, PackedFrame;
    s' := s;
    if InLoop(s'.writer) {
      s' := BackToLoop(cfg, s0, s');
      s' := Go(cfg, s0, s', if s'.mem.dieCloses > 0 then SeeDie else HeartbeatExpires);
    }
  }

  lemma ThroughUnbind(cfg: Config, s0: State, s: State) returns (s': State)
    requires Goes(cfg, s0, s) && !InLoop(s.writer)
    ensures Goes(cfg, s0, s') && !InLoop(s'.writer) && !s'.writer.InCallbacks? && !s'.writer.Unbinding?
  {
    hide Goes, PackedFrame, Agents.Apply;
    s' := s;
    if s'.writer.InCallbacks? { s' := Go(cfg, s0, s', CallbacksReturn); }
    if s'.writer.Unbinding? { s' := Go(cfg, s0, s', UnbindSid); }
  }

  lemma ThroughCloseProcess(cfg: Config, s0: State, s: State) returns (s': State)
    requires Goes(cfg, s0, s) && !InLoop(s.writer)
    ensures Goes(cfg, s0, s') && s'.writer.Gone?
  {
    hide Goes, PackedFrame, Agents.Apply;
    s' := ThroughUnbind(cfg, s0, s);
    if s'.writer.ClosingConn? { s' := Go(cfg, s0, s', CloseConn); }
    if s'.writer.ClosingWrite? { s' := Go(cfg, s0, s', CloseWrite); }
    if s'.writer.BeforeClose? { s' := Go(cfg, s0, s', WriterCloses); }
  }

  lemma SoleCloser(cfg: Config, s0: State, s: State, c: nat)
    requires Goes(cfg, s0, s) && c in s.closers
    ensures s.closers - {c} == map[] && s.mem.dieCloses == 0
  {
  }

  /** The caller of Close that changed the state closes chDie. */
  lemma ClosersFinish(cfg: Config, s0: State, s: State) returns (s': State)
    requires Goes(cfg, s0, s) && s.writer.Gone?
    ensures Goes(cfg, s0, s') && s'.writer.Gone? && s'.closers == map[]
  {
    hide Goes, PackedFrame, Agents.Apply;
    s' := s;
    if s.closers != map[] {
      assert s.closers.Keys != {};
      var c :| c in s.closers;
      SoleCloser(cfg, s0, s, c);
      if s'.closers[c] == Won { s' := Go(cfg, s0, s', CheckDie(c)); }
      SoleCloser(cfg, s0, s', c);
      s' := Go(cfg, s0, s', CloseDie(c));
    }
  }

  lemma OverWhenGone(cfg: Config, s0: State, s: State)
    requires Goes(cfg, s0, s) && s.writer.Gone? && s.closers == map[]
    ensures Over(cfg, s)
  {
  }

  /** An agent can come to its end, from whatever state its goroutines are in, if and only if its writer is
      not stuck at its own full queue. */
  lemma CanEndIff(cfg: Config, s: State)
    requires Reachable(cfg, s)
    ensures (exists s' :: Leads(cfg, s, s') && Over(cfg, s')) <==> !Stuck(cfg, s)
  {
    hide Reachable, Leads, Inv, CloseInv, DieInv, UnboundInv;
    if Stuck(cfg, s) {
      forall s' | Leads(cfg, s, s') ensures !Over(cfg, s') { StuckForEver(cfg, s, s'); }
    } else {
      ReachableInv(cfg, s);
      assert CloseInv(s) && DieInv(s) && UnboundInv(cfg, s) by { PartsOfInv(cfg, s); }
      assert Leads(cfg, s, s) by { LeadsSelf(cfg, s); }
      var s' := IntoCloseProcess(cfg, s, s);
      s' := ThroughCloseProcess(cfg, s, s');
      s' := ClosersFinish(cfg, s, s');
      OverWhenGone(cfg, s, s');
    }
  }

  lemma LeadsSelf(cfg: Config, s: State)
    ensures Leads(cfg, s, s)
  {
    Runs.ReachInit(Stepper(cfg), s);
  }

  /** Selecting, with so many frames in chWrite and nothing else going on. */
  ghost predicate Loaded(cfg: Config, s: State, k: nat) {
    && Reachable(cfg, s) && s.writer.Selecting? && s.mem.pending == [] && |s.mem.write| == k
    && !s.mem.closed && !s.mem.writeClosed && s.producers == map[]
  }

  /** A message accepted and taken by the writer. */
  lemma ReachMoving(cfg: Config, s: State, p: Packet, k: nat) returns (s': State)
    requires Loaded(cfg, s, k) && cfg.backlog > 0 && cfg.capacity > 0 && PackedFrame(cfg.schema, p).Some?
    ensures Reachable(cfg, s') && s'.writer.Moving? && |s'.mem.write| == k && s'.mem.pending == []
    ensures !s'.mem.closed && !s'.mem.writeClosed && s'.producers == map[]
  {
    hide Reachable, PackedFrame;
    s' := ReachStep(cfg, s, CheckState(0));
    s' := ReachStep(cfg, s', CheckLength(0));
    s' := ReachStep(cfg, s', Enqueue(0, p));
    assert s'.mem.pending == [p] && s'.producers == map[];
    s' := ReachStep(cfg, s', TakePending);
  }

  lemma {:induction false} ReachLoaded(cfg: Config, tables: Agents.History, p: Packet, k: nat) returns (s: State)
    requires cfg.sid in tables.used && cfg.backlog > 0 && k <= cfg.capacity && PackedFrame(cfg.schema, p).Some?
    ensures Loaded(cfg, s, k)
  {
    hide Reachable, PackedFrame;
    if k == 0 {
      ReachInit(cfg, tables);
      s := Init(tables);
    } else {
      s := ReachLoaded(cfg, tables, p, k - 1);
      s := ReachMoving(cfg, s, p, k - 1);
      s := ReachStep(cfg, s, MoveToWrite);
    }
  }

  /** It does get stuck: with one message more than chWrite holds, all taken before any is written. */
  lemma CanGetStuck(cfg: Config, tables: Agents.History, p: Packet)
    requires cfg.sid in tables.used && cfg.backlog > 0 && cfg.capacity > 0 && PackedFrame(cfg.schema, p).Some?
    ensures exists s :: Reachable(cfg, s) && Stuck(cfg, s)
  {
    hide Reachable, PackedFrame;
    var s := ReachLoaded(cfg, tables, p, cfg.capacity);
    s := ReachMoving(cfg, s, p, cfg.capacity);
  }

  // ---- What the client reads ----

  /** The accepted messages that pack, with the Route packing gives them. */
  function Deliverable(schema: Schema, ps: seq<Packet>): seq<Packet> {
    if ps == [] then []
    else
      (if Sendable(schema, Stamped(schema, ps[0])) then [Stamped(schema, ps[0])] else [])
      + Deliverable(schema, ps[1..])
  }

  ghost predicate AreFrames(schema: Schema, frames: seq<Bytes>, ps: seq<Packet>) {
    |frames| == |ps| && forall i :: 0 <= i < |ps| ==> Sendable(schema, ps[i]) && frames[i] == FrameOf(schema, ps[i])
  }

  lemma {:induction false} PackedAreFrames(schema: Schema, ps: seq<Packet>)
    ensures AreFrames(schema, PackAll(schema, ps), Deliverable(schema, ps))
  {
    hide Sendable, FrameOf;
    if ps == [] {
    } else {
      PackedAreFrames(schema, ps[1..]);
    }
  }

  lemma {:induction false} FramesFlatten(schema: Schema, frames: seq<Bytes>, ps: seq<Packet>)
    requires AreFrames(schema, frames, ps)
    ensures Flatten(frames) == Wire(schema, ps)
  {
    hide Sendable, FrameOf;
    if ps == [] {
    } else {
      FramesFlatten(schema, frames[1..], ps[1..]);
    }
  }

  function BytesOf(items: seq<Item>): seq<Bytes> {
    if items == [] then [] else [items[0].bytes] + BytesOf(items[1..])
  }

  lemma {:induction false} PipeIsBytes(items: seq<Item>)
    requires forall i :: 0 <= i < |items| ==> !items[i].raw
    ensures Pipe(items) == BytesOf(items)
  {
    if items == [] {
    } else {
      PipeIsBytes(items[1..]);
    }
  }

  lemma EmptyPacks(schema: Schema)
    ensures PackAll(schema, []) == []
  {
  }

  /** At every moment of every run without outside SendRaw bytes or write errors on the connection, the
      frames on the wire are those of a prefix of the accepted messages, in order, and of all of them once
      the writer has emptied both queues. */
  lemma WireIsPrefix(cfg: Config, s: State) returns (k: nat)
    requires Reachable(cfg, s) && s.failures == 0
    requires forall i :: 0 <= i < |s.wire| ==> !s.wire[i].raw
    ensures k == |s.wire| && k <= |Deliverable(cfg.schema, s.accepted)|
    ensures Flatten(BytesOf(s.wire)) == Wire(cfg.schema, Deliverable(cfg.schema, s.accepted)[..k])
    ensures s.writer.Selecting? && s.mem.pending == [] && s.mem.write == [] ==>
      k == |Deliverable(cfg.schema, s.accepted)|
  {
    hide Next, Sendable, FrameOf, PackAll, CloseInv, UnboundInv;
    ReachableInv(cfg, s);
    PipeIsBytes(s.wire);
    BytesLength(s.wire);
    k := |s.wire|;
    var all := PackAll(cfg.schema, s.accepted);
    var ps := Deliverable(cfg.schema, s.accepted);
    PackedAreFrames(cfg.schema, s.accepted);
    assert BytesOf(s.wire) == all[..k];
    assert PackAll(cfg.schema, []) == [] by { EmptyPacks(cfg.schema); }
    FramesFlatten(cfg.schema, all[..k], ps[..k]);
  }

  lemma {:induction false} BytesLength(items: seq<Item>)
    ensures |BytesOf(items)| == |items|
  {
    if items == [] {
    } else {
      BytesLength(items[1..]);
    }
  }

  /** So the client, reading in any chunks whatever part of the wire's bytes has reached it, decodes the j
      whole frames in it, which are a prefix of the messages the gate accepted for it; then it meets the
      failure of the connection, or, if that ended cleanly inside a frame, at most one packet more. */
  lemma ClientDecodesPrefix(cfg: Config, s: State, client: Maps, n: nat, broken: bool) returns (j: nat)
    requires Reachable(cfg, s) && s.failures == 0
    requires forall i :: 0 <= i < |s.wire| ==> !s.wire[i].raw
    requires Lawful(cfg.schema) && Consistent(cfg.schema, client)
    requires AllFit(cfg.schema, client, Deliverable(cfg.schema, s.accepted))
    requires n <= |Flatten(BytesOf(s.wire))|
    ensures j <= |s.wire| <= |Deliverable(cfg.schema, s.accepted)|
    ensures n == |Flatten(BytesOf(s.wire))| <==> j == |s.wire|
    ensures var ps := Deliverable(cfg.schema, s.accepted)[..|s.wire|];
      AfterWhole(client, ParseAll(cfg.schema, client, Flatten(BytesOf(s.wire))[..n], broken),
                 ps[..j], CutAt(cfg.schema, ps, j, n), broken)
  {
    hide Sendable, Fits, Reachable, ParseAll, Wire, AfterWhole, CutAt;
    var k := WireIsPrefix(cfg, s);
    var ps := Deliverable(cfg.schema, s.accepted);
    AllFitPrefix(cfg.schema, client, ps, k);
    j := PrefixDecodes(cfg.schema, client, ps[..k], n, broken);
  }
}

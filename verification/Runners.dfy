/** The worker and the cluster as one system: the callbacks of a node run on the goroutines of its worker,
    and the number of Start calls takes the place of the cluster's number of runners. */
module Runners {
  import opened Base
  import opened Messages
  import opened Packet
  import opened Requester
  import opened Stream
  import Cluster
  import Worker
  import Runs

  type NodeId = Cluster.NodeId

  datatype Joint = Joint(system: Cluster.System, workers: map<NodeId, Worker.State>)

  /** Every node has its own worker; lens are the lengths its queue was made with. */
  function Init(cfg: Cluster.Config, lens: NodeId -> nat): Joint {
    Joint(Cluster.Init(cfg), map n | n in cfg.handlers :: Worker.Init(lens(n)))
  }

  /** A callback begins and ends inside of a task; with the callback the task ends, in the same way. */
  datatype Step =
    | Outside(step: Cluster.Step)
    | Work(n: NodeId, work: Worker.Step)
    | BeginCallback(n: NodeId, runner: nat, p: Packet)
    | EndCallback(n: NodeId, runner: nat, how: Cluster.CallbackEnding)

  predicate IsCallback(step: Cluster.Step) { step.BeginCallback? || step.EndCallback? }

  predicate InTask(w: Worker.State, runner: nat) { runner in w.runners && w.runners[runner].Running? }

  function EndOfTask(runner: nat, how: Cluster.CallbackEnding): Worker.Step {
    Worker.End(runner, if how.Returns? then Worker.Returned else Worker.Panicked)
  }

  /** No step asks for the number of runners. */
  function Next(cfg: Cluster.Config, x: Joint, step: Step): Option<Joint> {
    match step
    case Outside(s) =>
      if IsCallback(s) || Cluster.Next(cfg, x.system, s).None? then None
      else Some(x.(system := Cluster.Next(cfg, x.system, s).value))
    case Work(n, w) =>
      if n !in x.workers || n !in x.system.nodes || Worker.Next(x.workers[n], w).None? then None
      else if w.End? && w.r in x.system.nodes[n].busy then None
      else Some(x.(workers := x.workers[n := Worker.Next(x.workers[n], w).value]))
    case BeginCallback(n, runner, p) =>
      if n !in x.workers || !InTask(x.workers[n], runner) || !Cluster.CanBegin(cfg, x.system, n, runner, p) then None
      else Some(x.(system := Cluster.BeginIn(cfg, x.system, n, runner, p)))
    case EndCallback(n, runner, how) =>
      var ended := Cluster.Next(cfg, x.system, Cluster.EndCallback(n, runner, how));
      if n !in x.workers || ended.None? || Worker.Next(x.workers[n], EndOfTask(runner, how)).None? then None
      else Some(Joint(ended.value, x.workers[n := Worker.Next(x.workers[n], EndOfTask(runner, how)).value]))
  }

  /** The steps that use the response types as such. */
  predicate Disciplined(cfg: Cluster.Config, x: Joint, step: Step) {
    step.Outside? ==> Cluster.Disciplined(cfg, x.system, step.step)
  }

  /** All steps, or (strict) the disciplined ones. */
  function Stepper(cfg: Cluster.Config, strict: bool): (Joint, Step) -> Option<Joint> {
    (x, step) => if strict && !Disciplined(cfg, x, step) then None else Next(cfg, x, step)
  }

  ghost predicate Reaches(cfg: Cluster.Config, lens: NodeId -> nat, strict: bool, x: Joint) {
    Runs.Reachable(Stepper(cfg, strict), Init(cfg, lens), x)
  }

  ghost predicate Reachable(cfg: Cluster.Config, lens: NodeId -> nat, x: Joint) { Reaches(cfg, lens, false, x) }

  ghost predicate DisciplinedReachable(cfg: Cluster.Config, lens: NodeId -> nat, x: Joint) {
    Reaches(cfg, lens, true, x)
  }

  lemma DisciplinedIsReachable(cfg: Cluster.Config, lens: NodeId -> nat, x: Joint)
    requires DisciplinedReachable(cfg, lens, x)
    ensures Reachable(cfg, lens, x)
  {
    hide Next;
    Runs.RestrictedReachable(Stepper(cfg, true), Stepper(cfg, false), Init(cfg, lens), x);
  }

  // ---- The invariant ----

  /** A runner inside of a callback is inside of a task of its node's worker. */
  ghost predicate Coupled(x: Joint) {
    && x.workers.Keys == x.system.nodes.Keys
    && forall n, r :: n in x.system.nodes && r in x.system.nodes[n].busy ==> InTask(x.workers[n], r)
  }

  ghost predicate WorkersReachable(lens: NodeId -> nat, x: Joint) {
    forall n :: n in x.workers ==> Worker.Reachable(lens(n), x.workers[n])
  }

  /** The bounds allow for all Start calls so far. */
  ghost predicate Within(x: Joint, bounds: map<NodeId, nat>) {
    x.workers.Keys <= bounds.Keys && forall n :: n in x.workers ==> x.workers[n].starts <= bounds[n]
  }

  /** The states the cluster can be in with as many runners at each node. */
  ghost predicate ClusterReaches(cfg: Cluster.Config, bounds: map<NodeId, nat>, strict: bool, s: Cluster.System) {
    if strict then Cluster.DisciplinedReachable(cfg.(runners := bounds), s)
    else Cluster.Reachable(cfg.(runners := bounds), s)
  }

  ghost predicate Inv(cfg: Cluster.Config, lens: NodeId -> nat, bounds: map<NodeId, nat>, strict: bool, x: Joint) {
    && Coupled(x) && WorkersReachable(lens, x)
    && (Within(x, bounds) ==> ClusterReaches(cfg, bounds, strict, x.system))
  }

  lemma ClusterStep(cfg: Cluster.Config, bounds: map<NodeId, nat>, strict: bool, s: Cluster.System, step: Cluster.Step)
    requires ClusterReaches(cfg, bounds, strict, s) && (strict ==> Cluster.Disciplined(cfg, s, step))
    requires Cluster.Next(cfg.(runners := bounds), s, step).Some?
    ensures ClusterReaches(cfg, bounds, strict, Cluster.Next(cfg.(runners := bounds), s, step).value)
  {
    hide Cluster.Next, Cluster.Reachable, Cluster.DisciplinedReachable;
    if strict {
      assert Cluster.Disciplined(cfg.(runners := bounds), s, step);
      var s' := Cluster.DisciplinedStep(cfg.(runners := bounds), s, step);
    } else {
      var s' := Cluster.ReachStep(cfg.(runners := bounds), s, step);
    }
  }

  lemma InitInv(cfg: Cluster.Config, lens: NodeId -> nat, bounds: map<NodeId, nat>, strict: bool)
    ensures Inv(cfg, lens, bounds, strict, Init(cfg, lens))
  {
    forall n ensures Worker.Reachable(lens(n), Worker.Init(lens(n))) { Worker.ReachInit(lens(n)); }
    Cluster.ReachInit(cfg.(runners := bounds));
    Cluster.DisciplinedStart(cfg.(runners := bounds));
    assert Cluster.Init(cfg.(runners := bounds)) == Cluster.Init(cfg);
  }

  /** Steps other than a callback's beginning do not depend on the number of runners. */
  lemma RunnersUnused(cfg: Cluster.Config, cfg': Cluster.Config, s: Cluster.System, step: Cluster.Step)
    requires !step.BeginCallback? && cfg'.schema == cfg.schema && cfg'.handlers == cfg.handlers
    ensures Cluster.Next(cfg', s, step) == Cluster.Next(cfg, s, step)
  {
    hide Cluster.CanSend, Cluster.Received, Cluster.Dispatch, Cluster.RequestHeader;
    hide Cluster.ResponseHeader, Cluster.Stamp;
  }

  lemma BusyKept(cfg: Cluster.Config, s: Cluster.System, step: Cluster.Step)
    requires !IsCallback(step) && Cluster.Next(cfg, s, step).Some?
    ensures var s' := Cluster.Next(cfg, s, step).value;
      s'.nodes.Keys == s.nodes.Keys && forall n :: n in s.nodes ==> s'.nodes[n].busy == s.nodes[n].busy
  {
    hide Cluster.CanSend, Cluster.Received, Cluster.Dispatch, Cluster.RequestHeader;
    hide Cluster.ResponseHeader, Cluster.Stamp;
    hide Cluster.CanBegin, Cluster.BeginIn, RegisterIn;
  }

  lemma TaskGoesOn(len: nat, w: Worker.State, step: Worker.Step, runner: nat)
    requires Worker.Reachable(len, w) && Worker.Next(w, step).Some?
    requires InTask(w, runner) && !(step.End? && step.r == runner)
    ensures InTask(Worker.Next(w, step).value, runner)
  {
    hide Worker.Reachable, Worker.FifoInv, Worker.StopInv, Worker.RestartInv;
    hide Worker.WaitInv, Worker.SlotInv, Worker.TicketInv;
    hide Worker.LenInv, Worker.SequentialInv, Worker.IdleInv;
    Worker.ReachableInv(len, w);
    if step.RestartSpawn? { Worker.ChildReserved(w.runners, step.r); }
  }

  lemma StartsGrow(w: Worker.State, step: Worker.Step)
    requires Worker.Next(w, step).Some?
    ensures w.starts <= Worker.Next(w, step).value.starts
  {
  }

  lemma OutsideKeeps(cfg: Cluster.Config, lens: NodeId -> nat, bounds: map<NodeId, nat>, strict: bool, x: Joint,
                     step: Cluster.Step)
    requires Inv(cfg, lens, bounds, strict, x) && Next(cfg, x, Outside(step)).Some?
    requires strict ==> Cluster.Disciplined(cfg, x.system, step)
    ensures Inv(cfg, lens, bounds, strict, Next(cfg, x, Outside(step)).value)
  {
    hide Cluster.Next, ClusterReaches, Worker.Reachable;
    BusyKept(cfg, x.system, step);
    RunnersUnused(cfg, cfg.(runners := bounds), x.system, step);
    if Within(x, bounds) { ClusterStep(cfg, bounds, strict, x.system, step); }
  }

  lemma WorkKeeps(cfg: Cluster.Config, lens: NodeId -> nat, bounds: map<NodeId, nat>, strict: bool, x: Joint,
                  n: NodeId, step: Worker.Step)
    requires Inv(cfg, lens, bounds, strict, x) && Next(cfg, x, Work(n, step)).Some?
    ensures Inv(cfg, lens, bounds, strict, Next(cfg, x, Work(n, step)).value)
  {
    hide Worker.Next, ClusterReaches, Worker.Reachable;
    var w' := Worker.ReachStep(lens(n), x.workers[n], step);
    StartsGrow(x.workers[n], step);
    forall r | r in x.system.nodes[n].busy ensures InTask(w', r) { TaskGoesOn(lens(n), x.workers[n], step, r); }
    assert Within(Next(cfg, x, Work(n, step)).value, bounds) ==> Within(x, bounds);
  }

  /** A runner that begins a callback is one of at most as many as there were Start calls. */
  lemma RoomToBegin(lens: NodeId -> nat, x: Joint, n: NodeId, runner: nat)
    requires Coupled(x) && WorkersReachable(lens, x) && n in x.workers
    requires InTask(x.workers[n], runner) && runner !in x.system.nodes[n].busy
    ensures |x.system.nodes[n].busy| < x.workers[n].starts
  {
    var busy, w := x.system.nodes[n].busy, x.workers[n];
    Worker.RunnerCount(lens(n), w);
    SubsetSize(busy.Keys + {runner}, Worker.BusyRunners(w.runners));
  }

  lemma BeginIsStep(cfg: Cluster.Config, bounds: map<NodeId, nat>, s: Cluster.System, n: NodeId, runner: nat, p: Packet)
    requires Cluster.CanBegin(cfg, s, n, runner, p)
    ensures n in s.nodes && runner !in s.nodes[n].busy
    ensures var s' := Cluster.BeginIn(cfg, s, n, runner, p);
      && s'.nodes.Keys == s.nodes.Keys && (forall m :: m in s.nodes && m != n ==> s'.nodes[m] == s.nodes[m])
      && s'.nodes[n].busy.Keys == s.nodes[n].busy.Keys + {runner}
      && (n in bounds && |s.nodes[n].busy| < bounds[n] ==>
            Cluster.Next(cfg.(runners := bounds), s, Cluster.BeginCallback(n, runner, p)) == Some(s'))
  {
    hide Seen, Sendable;
  }

  lemma BeginKeeps(cfg: Cluster.Config, lens: NodeId -> nat, bounds: map<NodeId, nat>, strict: bool, x: Joint,
                   n: NodeId, runner: nat, p: Packet)
    requires Inv(cfg, lens, bounds, strict, x) && Next(cfg, x, BeginCallback(n, runner, p)).Some?
    ensures Inv(cfg, lens, bounds, strict, Next(cfg, x, BeginCallback(n, runner, p)).value)
  {
    hide ClusterReaches, Worker.Reachable, Cluster.Next, Cluster.CanBegin, Cluster.BeginIn;
    BeginIsStep(cfg, bounds, x.system, n, runner, p);
    RoomToBegin(lens, x, n, runner);
    if Within(x, bounds) {
      ClusterStep(cfg, bounds, strict, x.system, Cluster.BeginCallback(n, runner, p));
    }
  }

  lemma EndKeeps(cfg: Cluster.Config, lens: NodeId -> nat, bounds: map<NodeId, nat>, strict: bool, x: Joint,
                 n: NodeId, runner: nat, how: Cluster.CallbackEnding)
    requires Inv(cfg, lens, bounds, strict, x) && Next(cfg, x, EndCallback(n, runner, how)).Some?
    ensures Inv(cfg, lens, bounds, strict, Next(cfg, x, EndCallback(n, runner, how)).value)
  {
    hide Worker.Next, ClusterReaches, Worker.Reachable;
    var step := EndOfTask(runner, how);
    var w' := Worker.ReachStep(lens(n), x.workers[n], step);
    StartsGrow(x.workers[n], step);
    forall r | r in x.system.nodes[n].busy && r != runner ensures InTask(w', r) {
      TaskGoesOn(lens(n), x.workers[n], step, r);
    }
    assert Within(Next(cfg, x, EndCallback(n, runner, how)).value, bounds) ==> Within(x, bounds);
    RunnersUnused(cfg, cfg.(runners := bounds), x.system, Cluster.EndCallback(n, runner, how));
    if Within(x, bounds) {
      ClusterStep(cfg, bounds, strict, x.system, Cluster.EndCallback(n, runner, how));
    }
  }

  lemma ReachesInv(cfg: Cluster.Config, lens: NodeId -> nat, bounds: map<NodeId, nat>, strict: bool, x: Joint)
    requires Reaches(cfg, lens, strict, x)
    ensures Inv(cfg, lens, bounds, strict, x)
  {
    hide Inv, Next, Cluster.Disciplined;
    var inv := y => Inv(cfg, lens, bounds, strict, y);
    InitInv(cfg, lens, bounds, strict);
    forall y, step | inv(y) && Stepper(cfg, strict)(y, step).Some? ensures inv(Next(cfg, y, step).value) {
      match step
      case Outside(s) => OutsideKeeps(cfg, lens, bounds, strict, y, s);
      case Work(n, w) => WorkKeeps(cfg, lens, bounds, strict, y, n, w);
      case BeginCallback(n, r, p) => BeginKeeps(cfg, lens, bounds, strict, y, n, r, p);
      case EndCallback(n, r, how) => EndKeeps(cfg, lens, bounds, strict, y, n, r, how);
    }
    Runs.ReachableKeeps(Stepper(cfg, strict), inv, Init(cfg, lens), x);
  }

  // ---- Results ----

  function Starts(x: Joint): map<NodeId, nat> { map n | n in x.workers :: x.workers[n].starts }

  /** The cluster with as many runners at each node as its worker was started from outside. */
  function WithStarts(cfg: Cluster.Config, x: Joint): Cluster.Config { cfg.(runners := Starts(x)) }

  /** Every run of the joint system is, for the cluster, a run with these runners, and a disciplined one if
      it was: so all results about the cluster apply to it. */
  lemma ProjectsToCluster(cfg: Cluster.Config, lens: NodeId -> nat, x: Joint)
    requires Reachable(cfg, lens, x)
    ensures Cluster.Reachable(WithStarts(cfg, x), x.system)
    ensures DisciplinedReachable(cfg, lens, x) ==> Cluster.DisciplinedReachable(WithStarts(cfg, x), x.system)
    ensures forall n :: n in x.workers ==> Worker.Reachable(lens(n), x.workers[n])
  {
    hide Reaches, Cluster.Reachable, Cluster.DisciplinedReachable, Worker.Reachable;
    ReachesInv(cfg, lens, Starts(x), false, x);
    if DisciplinedReachable(cfg, lens, x) { ReachesInv(cfg, lens, Starts(x), true, x); }
  }

  lemma NodesHaveWorkers(cfg: Cluster.Config, lens: NodeId -> nat, x: Joint)
    requires Cluster.ValidConfig(cfg) && Reachable(cfg, lens, x)
    ensures x.workers.Keys == x.system.nodes.Keys && Cluster.ValidConfig(WithStarts(cfg, x))
  {
    hide Next;
    var inv := (y: Joint) => y.workers.Keys == y.system.nodes.Keys == cfg.handlers.Keys;
    forall y, step | inv(y) && Next(cfg, y, step).Some? ensures inv(Next(cfg, y, step).value) {
      KeysKept(cfg, y, step);
    }
    Runs.ReachableKeeps(Stepper(cfg, false), inv, Init(cfg, lens), x);
    assert Starts(x).Keys == x.workers.Keys;
  }

  lemma KeysKept(cfg: Cluster.Config, x: Joint, step: Step)
    requires Next(cfg, x, step).Some? && x.workers.Keys == x.system.nodes.Keys
    ensures var x' := Next(cfg, x, step).value;
      x'.workers.Keys == x.workers.Keys && x'.system.nodes.Keys == x.system.nodes.Keys
  {
    hide Worker.Next, Cluster.CanSend, Cluster.Received, Cluster.Dispatch;
    if step.Outside? { BusyKept(cfg, x.system, step.step); }
  }

  /** A node's callbacks begin at most once for each outside Start of its worker plus once per panic,
      whatever panics, restarts and redeliveries there are: with one Start, at most once without a panic. */
  lemma StartsBoundCallbacks(cfg: Cluster.Config, lens: NodeId -> nat, x: Joint, n: NodeId, cb: Callback)
    requires Cluster.ValidConfig(cfg) && Reachable(cfg, lens, x) && n in x.system.nodes
    ensures n in x.workers
    ensures Times(x.system.nodes[n].begun, cb) <= Times(x.system.nodes[n].panicked, cb) + x.workers[n].starts
    ensures x.workers[n].starts <= 1 && Times(x.system.nodes[n].panicked, cb) == 0 ==>
      Times(x.system.nodes[n].begun, cb) <= 1
  {
    hide Reachable, Cluster.Reachable, Cluster.DisciplinedReachable, Worker.Reachable;
    ProjectsToCluster(cfg, lens, x);
    NodesHaveWorkers(cfg, lens, x);
    Cluster.CallbackRuns(WithStarts(cfg, x), x.system, n, cb);
  }

  /** What an RPC promises, with the callbacks run by the workers: over any run that keeps to the response
      types, a callback that begins at a node with at most 2^32 registrations begins with a response to
      the one request sent for it, from the node that request went to; and where the worker was started
      once, it begins only that once unless it panics. */
  lemma RpcOverWorkers(cfg: Cluster.Config, lens: NodeId -> nat, x: Joint, f: Cluster.Fire) returns (sent: Cluster.Sent)
    requires Cluster.ValidConfig(cfg) && DisciplinedReachable(cfg, lens, x) && f in x.system.fires
    ensures f.node in x.system.nodes && f.node in x.workers
    ensures sent in x.system.requests && sent.node == f.node && Cluster.Answers(f.response, sent.request)
    ensures x.system.nodes[f.node].serial <= TWO_32 ==> sent.cb == f.cb
    ensures forall y :: y in x.system.requests && sent.node == y.node && sent.cb == y.cb ==> sent == y
    ensures Cluster.ReadAs(cfg, f.response, f.msg)
    ensures x.workers[f.node].starts <= 1 && Times(x.system.nodes[f.node].panicked, f.cb) == 0 ==>
      Times(x.system.nodes[f.node].begun, f.cb) <= 1
  {
    hide Reachable, DisciplinedReachable, Cluster.Reachable, Cluster.DisciplinedReachable, Worker.Reachable;
    DisciplinedIsReachable(cfg, lens, x);
    ProjectsToCluster(cfg, lens, x);
    NodesHaveWorkers(cfg, lens, x);
    sent := Cluster.RpcCorrelation(WithStarts(cfg, x), x.system, f);
    StartsBoundCallbacks(cfg, lens, x, f.node, f.cb);
  }

  // ---- The bound is met ----

  lemma ReachStep(cfg: Cluster.Config, lens: NodeId -> nat, x: Joint, step: Step) returns (x': Joint)
    requires Reachable(cfg, lens, x) && Next(cfg, x, step).Some?
    ensures x' == Next(cfg, x, step).value && Reachable(cfg, lens, x')
  {
    hide Next;
    x' := Next(cfg, x, step).value;
    Runs.ReachStep(Stepper(cfg, false), Init(cfg, lens), x, step);
  }

  lemma ReachWork(cfg: Cluster.Config, lens: NodeId -> nat, x: Joint, n: NodeId, step: Worker.Step) returns (x': Joint)
    requires Reachable(cfg, lens, x) && n in x.workers && n in x.system.nodes
    requires Worker.Next(x.workers[n], step).Some? && !step.End?
    ensures x' == x.(workers := x.workers[n := Worker.Next(x.workers[n], step).value]) && Reachable(cfg, lens, x')
  {
    hide Worker.Next, Reachable;
    x' := ReachStep(cfg, lens, x, Work(n, step));
  }

  /** The worker is open and idle but for its k runners. */
  predicate Ready(w: Worker.State, k: nat) {
    && w.starts == k && w.posters == map[] && !w.mem.closed && !w.mem.chanClosed && w.mem.queue == [] && w.capacity > 0
    && forall r :: r in w.runners ==> r < k
  }

  /** One more outside Start, and a posted task in the hands of its runner. */
  lemma ReachTask(cfg: Cluster.Config, lens: NodeId -> nat, x: Joint, n: NodeId, k: nat) returns (x': Joint)
    requires Reachable(cfg, lens, x) && n in x.workers && n in x.system.nodes && Ready(x.workers[n], k)
    ensures Reachable(cfg, lens, x') && x'.system == x.system
    ensures n in x'.workers && Ready(x'.workers[n], k + 1) && InTask(x'.workers[n], k)
  {
    hide Reachable;
    x' := ReachWork(cfg, lens, x, n, Worker.StartAdd(k));
    x' := ReachWork(cfg, lens, x', n, Worker.StartSpawn(k));
    x' := ReachWork(cfg, lens, x', n, Worker.PostCheck(0));
    x' := ReachWork(cfg, lens, x', n, Worker.PostCount(0));
    x' := ReachWork(cfg, lens, x', n, Worker.PostSend(0));
    x' := ReachWork(cfg, lens, x', n, Worker.Receive(k));
    x' := ReachWork(cfg, lens, x', n, Worker.Begin(k));
    assert x'.workers[n].posters == map[];
  }

  /** The response is on the bus, the callback registered, and begun on each of k runners. */
  ghost predicate Begun(cfg: Cluster.Config, lens: NodeId -> nat, x: Joint, a: NodeId, p: Packet, k: nat) {
    && Reachable(cfg, lens, x) && a in x.workers && Ready(x.workers[a], k)
    && a in x.system.nodes && p in x.system.net && p.common.targetId == a && p.common.mid == 1
    && x.system.nodes[a].handlers == map[1 := 1] && (forall r :: r in x.system.nodes[a].busy ==> r < k)
    && Times(x.system.nodes[a].begun, 1) == k && Times(x.system.nodes[a].panicked, 1) == 0
  }

  lemma ReachOutside(cfg: Cluster.Config, lens: NodeId -> nat, x: Joint, step: Cluster.Step) returns (x': Joint)
    requires Reachable(cfg, lens, x) && Cluster.Next(cfg, x.system, step).Some? && !IsCallback(step)
    ensures x' == x.(system := Cluster.Next(cfg, x.system, step).value) && Reachable(cfg, lens, x')
  {
    hide Cluster.Next, Reachable;
    x' := ReachStep(cfg, lens, x, Outside(step));
  }

  lemma ReachResponse(cfg: Cluster.Config, lens: NodeId -> nat, a: NodeId, b: NodeId, req: Message, resp: Message)
    returns (x: Joint)
    requires Cluster.Exchange(cfg, a, b, req, resp)
    ensures Begun(cfg, lens, x, a, Cluster.FirstResponse(cfg, a, b, req, resp), 0)
  {
    hide Reachable, Cluster.Next;
    var registered, asked, answered := Cluster.Asked(cfg, a, b, req, resp);
    ReachInit(cfg, lens);
    x := ReachOutside(cfg, lens, Init(cfg, lens), Cluster.RegisterCallback(a));
    x := ReachOutside(cfg, lens, x, Cluster.SendRequest(a, 1, b, req));
    x := ReachOutside(cfg, lens, x, Cluster.Respond(b, Cluster.FirstRequest(cfg, a, b, req), resp));
  }

  lemma ReachInit(cfg: Cluster.Config, lens: NodeId -> nat)
    ensures Reachable(cfg, lens, Init(cfg, lens))
  {
    Runs.ReachInit(Stepper(cfg, false), Init(cfg, lens));
  }

  lemma {:induction false} ReachBegun(cfg: Cluster.Config, lens: NodeId -> nat, a: NodeId, b: NodeId, req: Message,
                                      resp: Message, k: nat)
    returns (x: Joint)
    requires Cluster.Exchange(cfg, a, b, req, resp)
    ensures Begun(cfg, lens, x, a, Cluster.FirstResponse(cfg, a, b, req, resp), k)
  {
    hide Reachable, Cluster.CanSend, Cluster.Received, Cluster.Dispatch;
    if k == 0 {
      x := ReachResponse(cfg, lens, a, b, req, resp);
    } else {
      var p := Cluster.FirstResponse(cfg, a, b, req, resp);
      x := ReachBegun(cfg, lens, a, b, req, resp, k - 1);
      x := ReachTask(cfg, lens, x, a, k - 1);
      Cluster.Arrives(cfg, x.system, a, p);
      x := ReachStep(cfg, lens, x, BeginCallback(a, k - 1, p));
    }
  }

  /** The callback is over: the worker's task has ended with it, its mid is free, and its runner is back. */
  ghost predicate RpcDone(x: Joint, a: NodeId) {
    && a in x.system.nodes && a in x.workers && x.system.nodes[a].handlers == map[] && x.system.nodes[a].busy == map[]
    && Times(x.system.nodes[a].begun, 1) == 1 && Times(x.system.nodes[a].returned, 1) == 1
    && x.workers[a].ended == map[0 := Worker.Returned] && x.workers[a].runners == map[0 := Worker.Receiving]
  }

  lemma ReachOneTask(cfg: Cluster.Config, lens: NodeId -> nat, a: NodeId, b: NodeId, req: Message, resp: Message)
    returns (x: Joint)
    requires Cluster.Exchange(cfg, a, b, req, resp)
    ensures Reachable(cfg, lens, x) && a in x.workers && a in x.system.nodes
    ensures x.workers[a].runners == map[0 := Worker.Running(0)] && x.workers[a].ended == map[]
    ensures Cluster.FirstResponse(cfg, a, b, req, resp) in x.system.net
    ensures x.system.nodes[a] == FRESH_NODE.(handlers := map[1 := 1], mid := 1, serial := 1)
  {
    hide Reachable, Cluster.Next, Cluster.Exchange;
    var registered, asked, answered := Cluster.Asked(cfg, a, b, req, resp);
    ReachInit(cfg, lens);
    assert a in Init(cfg, lens).workers && Init(cfg, lens).workers[a] == Worker.Init(lens(a)) by {
      HasWorker(cfg, lens, a, b, req, resp);
    }
    x := ReachOutside(cfg, lens, Init(cfg, lens), Cluster.RegisterCallback(a));
    x := ReachOutside(cfg, lens, x, Cluster.SendRequest(a, 1, b, req));
    x := ReachOutside(cfg, lens, x, Cluster.Respond(b, Cluster.FirstRequest(cfg, a, b, req), resp));
    x := ReachFirstTask(cfg, lens, x, a);
  }

  lemma HasWorker(cfg: Cluster.Config, lens: NodeId -> nat, a: NodeId, b: NodeId, req: Message, resp: Message)
    requires Cluster.Exchange(cfg, a, b, req, resp)
    ensures a in Init(cfg, lens).workers && Init(cfg, lens).workers[a] == Worker.Init(lens(a))
  {
  }

  lemma ReachFirstTask(cfg: Cluster.Config, lens: NodeId -> nat, x: Joint, n: NodeId) returns (x': Joint)
    requires Reachable(cfg, lens, x) && n in x.workers && n in x.system.nodes && x.workers[n] == Worker.Init(lens(n))
    ensures Reachable(cfg, lens, x') && x'.system == x.system && n in x'.workers
    ensures x'.workers[n].runners == map[0 := Worker.Running(0)] && x'.workers[n].ended == map[]
  {
    hide Reachable;
    x' := ReachWork(cfg, lens, x, n, Worker.StartAdd(0));
    x' := ReachWork(cfg, lens, x', n, Worker.StartSpawn(0));
    x' := ReachWork(cfg, lens, x', n, Worker.PostCheck(0));
    x' := ReachWork(cfg, lens, x', n, Worker.PostCount(0));
    x' := ReachWork(cfg, lens, x', n, Worker.PostSend(0));
    x' := ReachWork(cfg, lens, x', n, Worker.Receive(0));
    x' := ReachWork(cfg, lens, x', n, Worker.Begin(0));
  }

  lemma ReachInCallback(cfg: Cluster.Config, lens: NodeId -> nat, a: NodeId, b: NodeId, req: Message, resp: Message)
    returns (x: Joint)
    requires Cluster.Exchange(cfg, a, b, req, resp)
    ensures Reachable(cfg, lens, x) && a in x.workers && a in x.system.nodes
    ensures x.workers[a].runners == map[0 := Worker.Running(0)] && x.workers[a].ended == map[]
    ensures x.system.nodes[a] == Begin(FRESH_NODE.(handlers := map[1 := 1], mid := 1, serial := 1), 0, 1)
  {
    hide Reachable, Cluster.CanSend, Cluster.Received, Cluster.Dispatch, Worker.Next;
    var p := Cluster.FirstResponse(cfg, a, b, req, resp);
    x := ReachOneTask(cfg, lens, a, b, req, resp);
    Cluster.Arrives(cfg, x.system, a, p);
    x := ReachStep(cfg, lens, x, BeginCallback(a, 0, p));
  }

  /** A request, its response and the callback's return, all the way: there is a run after which the table is
      empty again and the runner waits for its next task. */
  lemma RpcCompletes(cfg: Cluster.Config, lens: NodeId -> nat, a: NodeId, b: NodeId, req: Message, resp: Message)
    requires Cluster.Exchange(cfg, a, b, req, resp)
    ensures exists x :: Reachable(cfg, lens, x) && RpcDone(x, a)
  {
    hide Reachable, Cluster.CanSend, Cluster.Received, Cluster.Dispatch;
    var x := ReachInCallback(cfg, lens, a, b, req, resp);
    x := ReachStep(cfg, lens, x, EndCallback(a, 0, Cluster.Returns));
    assert x.system.nodes[a].handlers == map[] && x.system.nodes[a].busy == map[];
    assert RpcDone(x, a);
  }

  /** In the joint system a has been started k times and its first callback has begun so often, without a panic. */
  ghost predicate Possible(cfg: Cluster.Config, lens: NodeId -> nat, a: NodeId, k: nat, begun: nat) {
    exists x :: Reachable(cfg, lens, x) && RanWith(x, a, k, begun)
  }

  predicate RanWith(x: Joint, a: NodeId, k: nat, begun: nat) {
    && a in x.system.nodes && a in x.workers && x.workers[a].starts == k
    && Times(x.system.nodes[a].begun, 1) == begun && Times(x.system.nodes[a].panicked, 1) == 0
  }

  /** k Starts let one response begin a callback k times and no oftener, whatever the lengths of the
      queues: "at most once" fails exactly from the second Start on, which is what a real node makes. */
  lemma StartsTight(cfg: Cluster.Config, lens: NodeId -> nat, a: NodeId, b: NodeId, req: Message, resp: Message, k: nat)
    requires Cluster.Exchange(cfg, a, b, req, resp)
    ensures Possible(cfg, lens, a, k, k) && forall begun: nat :: Possible(cfg, lens, a, k, begun) ==> begun <= k
  {
    hide Reachable, Cluster.CanExchange, Cluster.Dispatch;
    var x := ReachBegun(cfg, lens, a, b, req, resp, k);
    assert RanWith(x, a, k, k);
    forall begun: nat | Possible(cfg, lens, a, k, begun) ensures begun <= k {
      var y :| Reachable(cfg, lens, y) && RanWith(y, a, k, begun);
      StartsBoundCallbacks(cfg, lens, y, a, 1);
    }
  }
}

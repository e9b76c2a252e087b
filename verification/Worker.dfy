/** worker.go: a bounded FIFO of tasks, drained by goroutines that restart when a task panics. The
    goroutines that post, run, start and stop interleave freely; each Step below is one atomic action. */
module Worker {
  import opened Base
  import Runs

  // ---- The memory the goroutines share ----

  /** Tasks are identified by tickets: the n-th completed send carries ticket n. */
  type Ticket = nat

  datatype Shared = Shared(closed: bool, chanClosed: bool, queue: seq<Ticket>, len: int, wg: nat)

  function AddLen(m: Shared, delta: int): Shared { m.(len := m.len + delta) }

  function Enqueue(m: Shared, t: Ticket): Shared { m.(queue := m.queue + [t]) }

  function Dequeue(m: Shared): Shared
    requires m.queue != []
  {
    m.(queue := m.queue[1..])
  }

  function AddWait(m: Shared): Shared { m.(wg := m.wg + 1) }

  function DoneWait(m: Shared): Shared
    requires m.wg > 0
  {
    m.(wg := m.wg - 1)
  }

  datatype PostOutcome = Ignored | Posted | Blocked | SendPanics

  /** What a post that nothing interrupts comes to, and what it leaves in the memory. */
  function PostResult(m: Shared, capacity: nat): PostOutcome {
    if m.closed then Ignored
    else if m.chanClosed then SendPanics
    else if |m.queue| >= capacity then Blocked else Posted
  }

  function PostEffect(m: Shared, capacity: nat, t: Ticket): Shared {
    match PostResult(m, capacity)
    case Ignored => m
    case Posted => Enqueue(AddLen(m, 1), t)
    case _ => AddLen(m, 1)
  }

  /** The fields of the source's Worker, changed by one atomic action at a time. */
  class Queue {
    var closed: bool
    var chanClosed: bool
    var fs: seq<Ticket>
    var len: int
    var finiWg: nat
    const capacity: nat

    function View(): Shared
      reads this
    {
      Shared(closed, chanClosed, fs, len, finiWg)
    }

    /** A length of 0 asks for the default capacity. */
    constructor (maxWorkerLen: nat)
      ensures View() == Shared(false, false, [], 0, 0)
      ensures capacity == Capacity(maxWorkerLen)
    {
      closed, chanClosed, fs, len, finiWg := false, false, [], 0, 0;
      capacity := if maxWorkerLen == 0 then 1024 else maxWorkerLen;
    }

    method Add(delta: int)
      modifies this`len
      ensures View() == AddLen(old(View()), delta)
    {
      len := len + delta;
    }

    /** A send that can complete: the channel is open and has room. */
    method Send(t: Ticket)
      requires !chanClosed && |fs| < capacity
      modifies this`fs
      ensures View() == Enqueue(old(View()), t)
    {
      fs := fs + [t];
    }

    /** A receive that yields a task; buffered tasks are still received once the channel is closed. */
    method Receive() returns (t: Ticket)
      requires fs != []
      modifies this`fs
      ensures t == old(fs)[0] && View() == Dequeue(old(View()))
    {
      t, fs := fs[0], fs[1..];
    }

    /** Post run without interruption: a closed worker ignores the task; an open one counts it, and the
        send then completes, waits for room, or panics at a closed channel. */
    method Post(t: Ticket) returns (r: PostOutcome)
      modifies this
      ensures r == PostResult(old(View()), capacity)
      ensures View() == PostEffect(old(View()), capacity, t)
    {
      if closed { return Ignored; }
      Add(1);
      if chanClosed { return SendPanics; }
      if |fs| >= capacity { return Blocked; }
      Send(t);
      return Posted;
    }

    /** Start up to the spawning of its goroutine. */
    method Start()
      modifies this`finiWg
      ensures View() == AddWait(old(View()))
    {
      finiWg := finiWg + 1;
    }

    /** What a goroutine of the worker does last. */
    method Done()
      requires finiWg > 0
      modifies this`finiWg
      ensures View() == DoneWait(old(View()))
    {
      finiWg := finiWg - 1;
    }

    /** Only the first caller wins. */
    method CompareAndSwapClosed() returns (won: bool)
      modifies this`closed
      ensures won == !old(closed) && View() == old(View()).(closed := true)
    {
      won := !closed;
      if won { closed := true; }
    }

    /** Stop up to its wait: only the winning call closes the channel and waits. */
    method Stop() returns (waits: bool)
      requires chanClosed ==> closed
      modifies this`closed, this`chanClosed
      ensures waits == !old(closed)
      ensures View() == if waits then old(View()).(closed := true, chanClosed := true) else old(View())
    {
      waits := CompareAndSwapClosed();
      if waits { CloseChannel(); }
    }

    method CloseChannel()
      requires !chanClosed
      modifies this`chanClosed
      ensures View() == old(View()).(chanClosed := true)
    {
      chanClosed := true;
    }
  }

  function Capacity(maxWorkerLen: nat): (c: nat)
    ensures c > 0
  {
    if maxWorkerLen == 0 then 1024 else maxWorkerLen
  }

  // ---- The goroutines ----

  /** Where a goroutine counted by the wait group stands.
      Starting: an outside Start has added to the wait group but not spawned yet.
      Reserved: the same for the Start a recovering runner calls; its parent is Spawning it.
      Exiting: the range loop ended. Leaving: the runner was replaced. Both still owe their Done. */
  datatype Runner =
    | Starting
    | Reserved
    | Receiving
    | Took(ticket: Ticket)
    | Running(ticket: Ticket)
    | Recovering
    | Spawning(child: nat)
    | Exiting
    | Leaving

  datatype Poster = Checked | Counted

  datatype Ending = Returned | Panicked

  datatype Stopper = NotStopped | Swapped | Waiting | Finished

  /** starts counts outside Start calls, exited the runners gone because their range loop ended, and
      failed the posts that panicked at the send after they had been counted. */
  datatype State = State(
    mem: Shared, capacity: nat, runners: map<nat, Runner>, posters: map<nat, Poster>, stopper: Stopper,
    sent: nat, taken: nat, ended: map<Ticket, Ending>, starts: nat, exited: nat, failed: nat)

  function Init(maxWorkerLen: nat): State {
    State(Shared(false, false, [], 0, 0), Capacity(maxWorkerLen), map[], map[], NotStopped, 0, 0, map[], 0, 0, 0)
  }

  datatype Step =
    | PostCheck(p: nat)
    | PostCount(p: nat)
    | PostSend(p: nat)
    | PostPanic(p: nat)
    | StartAdd(r: nat)
    | StartSpawn(r: nat)
    | Receive(r: nat)
    | RangeEnds(r: nat)
    | Begin(r: nat)
    | End(r: nat, how: Ending)
    | RestartAdd(r: nat, child: nat)
    | RestartSpawn(r: nat)
    | Done(r: nat)
    | StopSwap
    | StopClose
    | StopWait

  predicate At(s: State, r: nat, pc: Runner) { r in s.runners && s.runners[r] == pc }

  function Move(s: State, r: nat, pc: Runner): State { s.(runners := s.runners[r := pc]) }

  /** The state after a step, or None where the goroutine has to wait or does not exist. A post that
      finds the worker closed returns without a trace, so it has no step here. */
  function Next(s: State, step: Step): Option<State> {
    match step
    case PostCheck(p) =>
      if p in s.posters || s.mem.closed then None
      else Some(s.(posters := s.posters[p := Checked]))
    case PostCount(p) =>
      if !(p in s.posters && s.posters[p] == Checked) then None
      else Some(s.(mem := AddLen(s.mem, 1), posters := s.posters[p := Counted]))
    case PostSend(p) =>
      if !(p in s.posters && s.posters[p] == Counted) || s.mem.chanClosed || |s.mem.queue| >= s.capacity then None
      else Some(s.(mem := Enqueue(s.mem, s.sent), posters := s.posters - {p}, sent := s.sent + 1))
    case PostPanic(p) =>
      if !(p in s.posters && s.posters[p] == Counted) || !s.mem.chanClosed then None
      else Some(s.(posters := s.posters - {p}, failed := s.failed + 1))
    case StartAdd(r) =>
      if r in s.runners then None
      else Some(Move(s, r, Starting).(mem := AddWait(s.mem), starts := s.starts + 1))
    case StartSpawn(r) =>
      if !At(s, r, Starting) then None else Some(Move(s, r, Receiving))
    case Receive(r) =>
      if !At(s, r, Receiving) || s.mem.queue == [] then None
      else Some(Move(s, r, Took(s.mem.queue[0])).(mem := Dequeue(s.mem), taken := s.taken + 1))
    case RangeEnds(r) =>
      if !At(s, r, Receiving) || s.mem.queue != [] || !s.mem.chanClosed then None
      else Some(Move(s, r, Exiting))
    case Begin(r) =>
      if !(r in s.runners && s.runners[r].Took?) then None
      else Some(Move(s, r, Running(s.runners[r].ticket)).(mem := AddLen(s.mem, -1)))
    case End(r, how) =>
      if !(r in s.runners && s.runners[r].Running?) then None
      else Some(Move(s, r, if how.Returned? then Receiving else Recovering)
                  .(ended := s.ended[s.runners[r].ticket := how]))
    case RestartAdd(r, child) =>
      if !At(s, r, Recovering) || child in s.runners then None
      else Some(Move(Move(s, r, Spawning(child)), child, Reserved).(mem := AddWait(s.mem)))
    case RestartSpawn(r) =>
      if !(r in s.runners && s.runners[r].Spawning?) then None
      else Some(Move(Move(s, s.runners[r].child, Receiving), r, Leaving))
    case Done(r) =>
      if !(At(s, r, Exiting) || At(s, r, Leaving)) || s.mem.wg == 0 then None
      else Some(s.(mem := DoneWait(s.mem), runners := s.runners - {r},
                   exited := s.exited + (if s.runners[r].Exiting? then 1 else 0)))
    case StopSwap =>
      if !s.stopper.NotStopped? then None
      else Some(s.(mem := s.mem.(closed := true), stopper := Swapped))
    case StopClose =>
      if !s.stopper.Swapped? then None
      else Some(s.(mem := s.mem.(chanClosed := true), stopper := Waiting))
    case StopWait =>
      if !s.stopper.Waiting? || s.mem.wg != 0 then None else Some(s.(stopper := Finished))
  }

  // ---- Invariants ----

  /** A runner that still carries the slot its outside Start gave it. A runner that panicked passes
      the slot on to its replacement when it reserves it. */
  predicate HoldsSlot(pc: Runner) { !pc.Spawning? && !pc.Leaving? }

  predicate Busy(pc: Runner) { pc.Took? || pc.Running? }

  function Slots(runners: map<nat, Runner>): set<nat> { set r | r in runners && HoldsSlot(runners[r]) }

  function BusyRunners(runners: map<nat, Runner>): set<nat> { set r | r in runners && Busy(runners[r]) }

  function TookRunners(runners: map<nat, Runner>): set<nat> { set r | r in runners && runners[r].Took? }

  function CountedPosters(posters: map<nat, Poster>): set<nat> { set p | p in posters && posters[p].Counted? }

  /** The queue holds the tickets sent and not yet taken, in order. */
  ghost predicate FifoInv(s: State) {
    && s.sent == s.taken + |s.mem.queue|
    && |s.mem.queue| <= s.capacity
    && (forall i :: 0 <= i < |s.mem.queue| ==> s.mem.queue[i] == s.taken + i)
  }

  ghost predicate StopInv(s: State) {
    && (s.mem.closed <==> !s.stopper.NotStopped?)
    && (s.mem.chanClosed <==> s.stopper.Waiting? || s.stopper.Finished?)
    && (forall r :: At(s, r, Exiting) ==> s.mem.chanClosed && s.mem.queue == [])
    && (s.exited > 0 ==> s.mem.chanClosed && s.mem.queue == [])
  }

  /** A restart in progress has reserved its own replacement. */
  ghost predicate RestartInv(runners: map<nat, Runner>) {
    && (forall r :: r in runners && runners[r].Spawning? ==>
          runners[r].child in runners && runners[runners[r].child] == Reserved)
    && (forall r, q :: r in runners && q in runners && runners[r].Spawning? && runners[q].Spawning? && r != q ==>
          runners[r].child != runners[q].child)
  }

  function Size(runners: map<nat, Runner>): nat { |runners| }

  /** The wait group counts the goroutines. */
  ghost predicate WaitInv(s: State) { s.mem.wg == Size(s.runners) }

  ghost predicate SlotInv(s: State) { |Slots(s.runners)| + s.exited == s.starts }

  /** Every ticket taken has ended or is in the hands of exactly one runner, never both. */
  ghost predicate TicketInv(runners: map<nat, Runner>, taken: nat, ended: map<Ticket, Ending>) {
    && (forall r :: r in runners && Busy(runners[r]) ==> runners[r].ticket < taken && runners[r].ticket !in ended)
    && (forall r, q :: r in runners && q in runners && Busy(runners[r]) && Busy(runners[q]) && r != q ==>
          runners[r].ticket != runners[q].ticket)
    && (forall t :: t in ended ==> t < taken)
    && (forall t: Ticket :: t < taken && t !in ended ==> exists r :: HasTicket(runners, r, t))
  }

  predicate HasTicket(runners: map<nat, Runner>, r: nat, t: Ticket) {
    r in runners && Busy(runners[r]) && runners[r].ticket == t
  }

  ghost predicate LenInv(s: State) {
    s.mem.len == |s.mem.queue| + |CountedPosters(s.posters)| + |TookRunners(s.runners)| + s.failed
  }

  /** With one outside Start, the task in hand is the one taken last. */
  ghost predicate SequentialInv(s: State) {
    s.starts <= 1 ==>
      forall r :: r in s.runners && Busy(s.runners[r]) ==> s.runners[r].ticket + 1 == s.taken
  }

  /** Nothing runs before the first outside Start. */
  ghost predicate IdleInv(s: State) {
    s.starts == 0 ==> s.runners == map[] && s.taken == 0 && s.ended == map[]
  }

  ghost predicate Inv(s: State) {
    && FifoInv(s) && StopInv(s) && RestartInv(s.runners) && WaitInv(s) && SlotInv(s)
    && TicketInv(s.runners, s.taken, s.ended) && LenInv(s) && SequentialInv(s) && IdleInv(s)
  }

  lemma InitInv(maxWorkerLen: nat)
    ensures Inv(Init(maxWorkerLen))
  {
    assert Slots(map[]) == {} && CountedPosters(map[]) == {} && TookRunners(map[]) == {};
  }

  lemma FifoKept(s: State, step: Step)
    requires FifoInv(s) && Next(s, step).Some?
    ensures FifoInv(Next(s, step).value)
  {
  }

  lemma StopKept(s: State, step: Step)
    requires StopInv(s) && Next(s, step).Some?
    ensures StopInv(Next(s, step).value)
  {
    var s' := Next(s, step).value;
    forall r | At(s', r, Exiting) ensures s'.mem.chanClosed && s'.mem.queue == [] {
      if step != RangeEnds(r) { assert At(s, r, Exiting); }
    }
    if step.Done? && s'.exited > s.exited { assert At(s, step.r, Exiting); }
  }

  lemma RestartKept(s: State, step: Step)
    requires RestartInv(s.runners) && Next(s, step).Some?
    ensures RestartInv(Next(s, step).value.runners)
  {
    if step.RestartSpawn? {
      assert forall q :: q in s.runners && s.runners[q].Spawning? && q != step.r ==>
        s.runners[q].child != s.runners[step.r].child;
    }
  }

  /** The steps that only change where one runner stands. */
  predicate MovesOne(step: Step) {
    step.StartAdd? || step.StartSpawn? || step.Receive? || step.RangeEnds? || step.Begin? || step.End?
  }

  function Bit(b: bool): nat { if b then 1 else 0 }

  predicate HasSlot(runners: map<nat, Runner>, r: nat) { r in runners && HoldsSlot(runners[r]) }

  predicate HasTaken(runners: map<nat, Runner>, r: nat) { r in runners && runners[r].Took? }

  lemma SlotsMove(runners: map<nat, Runner>, r: nat, pc: Runner)
    ensures |Slots(runners[r := pc])| == |Slots(runners)| + Bit(HoldsSlot(pc)) - Bit(HasSlot(runners, r))
  {
    assert Slots(runners[r := pc]) == if HoldsSlot(pc) then Slots(runners) + {r} else Slots(runners) - {r};
  }

  lemma SlotsDone(runners: map<nat, Runner>, r: nat)
    ensures |Slots(runners - {r})| == |Slots(runners)| - Bit(HasSlot(runners, r))
  {
    assert Slots(runners - {r}) == Slots(runners) - {r};
  }

  lemma RunnersMove(runners: map<nat, Runner>, r: nat, pc: Runner)
    ensures Size(runners[r := pc]) == Size(runners) + 1 - Bit(r in runners)
    ensures Size(runners - {r}) == Size(runners) - Bit(r in runners)
  {
    assert runners[r := pc].Keys == runners.Keys + {r};
    assert (runners - {r}).Keys == runners.Keys - {r};
  }

  lemma WaitKept(s: State, step: Step)
    requires WaitInv(s) && RestartInv(s.runners) && Next(s, step).Some?
    ensures WaitInv(Next(s, step).value)
  {
    hide RestartInv, Size;
    var s' := Next(s, step).value;
    if step.RestartAdd? {
      RunnersMove(s.runners, step.r, Spawning(step.child));
      RunnersMove(s.runners[step.r := Spawning(step.child)], step.child, Reserved);
    } else if step.RestartSpawn? {
      ChildReserved(s.runners, step.r);
      RunnersMove(s.runners, s.runners[step.r].child, Receiving);
      RunnersMove(s.runners[s.runners[step.r].child := Receiving], step.r, Leaving);
    } else if step.Done? {
      RunnersMove(s.runners, step.r, Leaving);
    } else if MovesOne(step) {
      RunnersMove(s.runners, step.r, s'.runners[step.r]);
    }
  }

  lemma SlotKept(s: State, step: Step)
    requires SlotInv(s) && RestartInv(s.runners) && Next(s, step).Some?
    ensures SlotInv(Next(s, step).value)
  {
    hide Slots, RestartInv;
    var s' := Next(s, step).value;
    if step.RestartAdd? {
      SlotsMove(s.runners, step.r, Spawning(step.child));
      SlotsMove(s.runners[step.r := Spawning(step.child)], step.child, Reserved);
    } else if step.RestartSpawn? {
      ChildReserved(s.runners, step.r);
      SlotsMove(s.runners, s.runners[step.r].child, Receiving);
      SlotsMove(s.runners[s.runners[step.r].child := Receiving], step.r, Leaving);
    } else if step.Done? {
      SlotsDone(s.runners, step.r);
    } else if MovesOne(step) {
      SlotsMove(s.runners, step.r, s'.runners[step.r]);
    }
  }

  lemma ChildReserved(runners: map<nat, Runner>, r: nat)
    requires RestartInv(runners) && r in runners && runners[r].Spawning?
    ensures runners[r].child in runners && runners[runners[r].child] == Reserved
  {
  }

  lemma TookMove(runners: map<nat, Runner>, r: nat, pc: Runner)
    ensures |TookRunners(runners[r := pc])| == |TookRunners(runners)| + Bit(pc.Took?) - Bit(HasTaken(runners, r))
    ensures |TookRunners(runners - {r})| == |TookRunners(runners)| - Bit(HasTaken(runners, r))
  {
    assert TookRunners(runners[r := pc]) == if pc.Took? then TookRunners(runners) + {r} else TookRunners(runners) - {r};
    assert TookRunners(runners - {r}) == TookRunners(runners) - {r};
  }

  lemma LenKept(s: State, step: Step)
    requires LenInv(s) && RestartInv(s.runners) && Next(s, step).Some?
    ensures LenInv(Next(s, step).value)
  {
    hide TookRunners, CountedPosters, RestartInv;
    var s' := Next(s, step).value;
    if step.RestartAdd? {
      TookMove(s.runners, step.r, Spawning(step.child));
      TookMove(s.runners[step.r := Spawning(step.child)], step.child, Reserved);
    } else if step.RestartSpawn? {
      ChildReserved(s.runners, step.r);
      TookMove(s.runners, s.runners[step.r].child, Receiving);
      TookMove(s.runners[s.runners[step.r].child := Receiving], step.r, Leaving);
    } else if step.Done? {
      TookMove(s.runners, step.r, Leaving);
    } else if MovesOne(step) {
      TookMove(s.runners, step.r, s'.runners[step.r]);
    } else if step.PostCheck? || step.PostCount? {
      PosterMove(s.posters, step.p, s'.posters[step.p]);
    } else if step.PostSend? || step.PostPanic? {
      PosterLeaves(s.posters, step.p);
    }
  }

  predicate IsCounted(posters: map<nat, Poster>, p: nat) { p in posters && posters[p].Counted? }

  lemma PosterMove(posters: map<nat, Poster>, p: nat, pc: Poster)
    ensures |CountedPosters(posters[p := pc])|
         == |CountedPosters(posters)| + Bit(pc.Counted?) - Bit(IsCounted(posters, p))
  {
    assert CountedPosters(posters[p := pc]) ==
      if pc.Counted? then CountedPosters(posters) + {p} else CountedPosters(posters) - {p};
  }

  lemma PosterLeaves(posters: map<nat, Poster>, p: nat)
    ensures |CountedPosters(posters - {p})| == |CountedPosters(posters)| - Bit(IsCounted(posters, p))
  {
    assert CountedPosters(posters - {p}) == CountedPosters(posters) - {p};
  }

  // ---- Tickets ----

  lemma IdleMoveKeepsTickets(runners: map<nat, Runner>, taken: nat, ended: map<Ticket, Ending>, r: nat, pc: Runner)
    requires TicketInv(runners, taken, ended) && !Busy(pc) && (r in runners ==> !Busy(runners[r]))
    ensures TicketInv(runners[r := pc], taken, ended)
  {
    var moved := runners[r := pc];
    forall t: Ticket | t < taken && t !in ended ensures exists q :: HasTicket(moved, q, t) {
      var q :| HasTicket(runners, q, t);
      assert HasTicket(moved, q, t);
    }
  }

  lemma IdleDoneKeepsTickets(runners: map<nat, Runner>, taken: nat, ended: map<Ticket, Ending>, r: nat)
    requires TicketInv(runners, taken, ended) && r in runners && !Busy(runners[r])
    ensures TicketInv(runners - {r}, taken, ended)
  {
    var left := runners - {r};
    forall t: Ticket | t < taken && t !in ended ensures exists q :: HasTicket(left, q, t) {
      var q :| HasTicket(runners, q, t);
      assert HasTicket(left, q, t);
    }
  }

  lemma TakeKeepsTickets(runners: map<nat, Runner>, taken: nat, ended: map<Ticket, Ending>, r: nat)
    requires TicketInv(runners, taken, ended) && r in runners && !Busy(runners[r])
    ensures TicketInv(runners[r := Took(taken)], taken + 1, ended)
  {
    var moved := runners[r := Took(taken)];
    assert taken !in ended;
    forall t: Ticket | t < taken + 1 && t !in ended ensures exists q :: HasTicket(moved, q, t) {
      if t == taken {
        assert HasTicket(moved, r, t);
      } else {
        var q :| HasTicket(runners, q, t);
        assert HasTicket(moved, q, t);
      }
    }
  }

  lemma BeginKeepsTickets(runners: map<nat, Runner>, taken: nat, ended: map<Ticket, Ending>, r: nat)
    requires TicketInv(runners, taken, ended) && r in runners && runners[r].Took?
    ensures TicketInv(runners[r := Running(runners[r].ticket)], taken, ended)
  {
    var moved := runners[r := Running(runners[r].ticket)];
    forall t: Ticket | t < taken && t !in ended ensures exists q :: HasTicket(moved, q, t) {
      var q :| HasTicket(runners, q, t);
      assert HasTicket(moved, q, t);
    }
  }

  lemma EndKeepsTickets(runners: map<nat, Runner>, taken: nat, ended: map<Ticket, Ending>, r: nat, how: Ending,
                        pc: Runner)
    requires TicketInv(runners, taken, ended) && r in runners && runners[r].Running? && !Busy(pc)
    ensures TicketInv(runners[r := pc], taken, ended[runners[r].ticket := how])
  {
    var moved, ended' := runners[r := pc], ended[runners[r].ticket := how];
    forall t: Ticket | t < taken && t !in ended' ensures exists q :: HasTicket(moved, q, t) {
      var q :| HasTicket(runners, q, t);
      assert HasTicket(moved, q, t);
    }
  }

  lemma TicketKept(s: State, step: Step)
    requires TicketInv(s.runners, s.taken, s.ended) && RestartInv(s.runners) && FifoInv(s) && Next(s, step).Some?
    ensures var s' := Next(s, step).value; TicketInv(s'.runners, s'.taken, s'.ended)
  {
    hide TicketInv;
    var s' := Next(s, step).value;
    if step.Receive? {
      TakeKeepsTickets(s.runners, s.taken, s.ended, step.r);
    } else if step.Begin? {
      BeginKeepsTickets(s.runners, s.taken, s.ended, step.r);
    } else if step.End? {
      EndKeepsTickets(s.runners, s.taken, s.ended, step.r, step.how, s'.runners[step.r]);
    } else if step.RestartAdd? {
      IdleMoveKeepsTickets(s.runners, s.taken, s.ended, step.r, Spawning(step.child));
      IdleMoveKeepsTickets(s.runners[step.r := Spawning(step.child)], s.taken, s.ended, step.child, Reserved);
    } else if step.RestartSpawn? {
      IdleMoveKeepsTickets(s.runners, s.taken, s.ended, s.runners[step.r].child, Receiving);
      IdleMoveKeepsTickets(s.runners[s.runners[step.r].child := Receiving], s.taken, s.ended, step.r, Leaving);
    } else if step.Done? {
      IdleDoneKeepsTickets(s.runners, s.taken, s.ended, step.r);
    } else if MovesOne(step) {
      IdleMoveKeepsTickets(s.runners, s.taken, s.ended, step.r, s'.runners[step.r]);
    }
  }

  // ---- Overlap ----

  lemma OneSlot(s: State, r: nat, q: nat)
    requires SlotInv(s) && s.starts <= 1 && r in Slots(s.runners) && q in Slots(s.runners)
    ensures r == q
  {
    SubsetSize({r, q}, Slots(s.runners));
  }

  lemma SequentialKept(s: State, step: Step)
    requires SlotInv(s) && SequentialInv(s) && FifoInv(s) && Next(s, step).Some?
    ensures SequentialInv(Next(s, step).value)
  {
    var s' := Next(s, step).value;
    if s'.starts <= 1 {
      forall q | q in s'.runners && Busy(s'.runners[q]) ensures s'.runners[q].ticket + 1 == s'.taken {
        if step.Receive? {
          if q != step.r { OneSlot(s, q, step.r); }
        } else {
          assert q in s.runners && Busy(s.runners[q]) && s.runners[q].ticket == s'.runners[q].ticket;
        }
      }
    }
  }

  lemma IdleKept(s: State, step: Step)
    requires IdleInv(s) && Next(s, step).Some?
    ensures IdleInv(Next(s, step).value)
  {
  }

  // ---- Whole runs ----

  lemma StepKeepsInv(s: State, step: Step)
    requires Inv(s) && Next(s, step).Some?
    ensures Inv(Next(s, step).value)
  {
    hide Next, FifoInv, StopInv, RestartInv, WaitInv, SlotInv, TicketInv, LenInv, SequentialInv, IdleInv;
    FifoKept(s, step);
    StopKept(s, step);
    RestartKept(s, step);
    WaitKept(s, step);
    SlotKept(s, step);
    TicketKept(s, step);
    LenKept(s, step);
    SequentialKept(s, step);
    IdleKept(s, step);
  }

  /** The states the worker can be in: whatever a run of any length and any interleaving leads to. */
  ghost predicate Reachable(maxWorkerLen: nat, s: State) {
    Runs.Reachable(Next, Init(maxWorkerLen), s)
  }

  lemma InvIsInductive()
    ensures Runs.Inductive(Next, Inv)
  {
    hide Inv, Next;
    forall s, step | Inv(s) && Next(s, step).Some? ensures Inv(Next(s, step).value) {
      StepKeepsInv(s, step);
    }
  }

  lemma ReachableInv(maxWorkerLen: nat, s: State)
    requires Reachable(maxWorkerLen, s)
    ensures Inv(s)
  {
    hide Inv, Next;
    InitInv(maxWorkerLen);
    InvIsInductive();
    Runs.ReachableKeeps(Next, Inv, Init(maxWorkerLen), s);
  }

  lemma ReachStep(maxWorkerLen: nat, s: State, step: Step) returns (s': State)
    requires Reachable(maxWorkerLen, s) && Next(s, step).Some?
    ensures s' == Next(s, step).value && Reachable(maxWorkerLen, s')
  {
    hide Next;
    s' := Next(s, step).value;
    Runs.ReachStep(Next, Init(maxWorkerLen), s, step);
  }

  ghost predicate AllEnded(s: State) {
    forall t: Ticket :: t < s.sent ==> t in s.ended
  }

  /** Stop drains: once the winning Stop call can return from its wait, and there was a Start at all,
      every task whose send completed has been taken and has run to return or panic, whatever panics
      there were; no goroutine of the worker is left. */
  lemma StopDrains(maxWorkerLen: nat, s: State)
    requires Reachable(maxWorkerLen, s) && Next(s, StopWait).Some? && s.starts >= 1
    ensures s.mem.queue == [] && s.taken == s.sent && AllEnded(s) && s.runners == map[]
  {
    ReachableInv(maxWorkerLen, s);
    assert s.runners.Keys == {};
    assert Slots(s.runners) == {};
    assert s.exited > 0;
  }

  /** Whether Stop drained is settled by whether there was a Start: without one it leaves all sent tasks
      in the queue. */
  lemma StopDrainsIff(maxWorkerLen: nat, s: State)
    requires Reachable(maxWorkerLen, s) && Next(s, StopWait).Some?
    ensures AllEnded(s) <==> s.starts >= 1 || s.sent == 0
    ensures s.starts == 0 ==> |s.mem.queue| == s.sent
  {
    ReachableInv(maxWorkerLen, s);
    if s.starts >= 1 { StopDrains(maxWorkerLen, s); } else { assert s.sent > 0 ==> 0 !in s.ended; }
  }

  ghost predicate Drained(s: State) {
    s.mem.chanClosed && s.taken == s.sent && AllEnded(s)
  }

  /** Nothing undoes the drain: later steps, even outside Starts, send nothing and run nothing. */
  lemma DrainedForEver(s: State, steps: seq<Step>)
    requires Inv(s) && Drained(s) && Runs.Run(Next, s, steps).Some?
    ensures var s' := Runs.Run(Next, s, steps).value;
      Drained(s') && s'.sent == s.sent && s'.taken == s.taken && s'.ended == s.ended
  {
    hide Next, Inv, Drained;
    var kept := (x: State) => Inv(x) && Drained(x) && x.sent == s.sent && x.taken == s.taken && x.ended == s.ended;
    forall x, step | kept(x) && Next(x, step).Some? ensures kept(Next(x, step).value) {
      DrainedStep(x, step);
      StepKeepsInv(x, step);
    }
    Runs.RunKeeps(Next, kept, s, steps);
  }

  lemma DrainedStep(s: State, step: Step)
    requires Inv(s) && Drained(s) && Next(s, step).Some?
    ensures var s' := Next(s, step).value;
      Drained(s') && s'.sent == s.sent && s'.taken == s.taken && s'.ended == s.ended
  {
    hide StopInv, RestartInv, WaitInv, SlotInv, LenInv, SequentialInv, IdleInv;
    assert !step.End?;
  }

  /** A post on an open, idle worker with room. */
  lemma ReachPost(maxWorkerLen: nat, s: State) returns (s': State)
    requires Reachable(maxWorkerLen, s) && s.posters == map[] && !s.mem.closed && !s.mem.chanClosed
    requires |s.mem.queue| < s.capacity
    ensures s' == s.(mem := Enqueue(AddLen(s.mem, 1), s.sent), sent := s.sent + 1) && Reachable(maxWorkerLen, s')
  {
    hide Reachable;
    s' := ReachStep(maxWorkerLen, s, PostCheck(0));
    s' := ReachStep(maxWorkerLen, s', PostCount(0));
    s' := ReachStep(maxWorkerLen, s', PostSend(0));
    assert s'.posters == map[];
  }

  lemma ReachStart(maxWorkerLen: nat, s: State, r: nat) returns (s': State)
    requires Reachable(maxWorkerLen, s) && r !in s.runners
    ensures s' == s.(mem := AddWait(s.mem), starts := s.starts + 1, runners := s.runners[r := Receiving])
    ensures Reachable(maxWorkerLen, s')
  {
    hide Reachable;
    s' := ReachStep(maxWorkerLen, s, StartAdd(r));
    s' := ReachStep(maxWorkerLen, s', StartSpawn(r));
    assert s'.runners == s.runners[r := Receiving];
  }

  lemma ReachInit(maxWorkerLen: nat)
    ensures Reachable(maxWorkerLen, Init(maxWorkerLen))
  {
    hide Next;
    Runs.ReachInit(Next, Init(maxWorkerLen));
  }

  /** Any number of tasks the channel has room for, sent while nothing runs. */
  lemma {:induction false} ReachPosts(maxWorkerLen: nat, k: nat) returns (s: State)
    requires k <= Capacity(maxWorkerLen)
    ensures Reachable(maxWorkerLen, s) && |s.mem.queue| == k && s.mem.len == k
    ensures s == Init(maxWorkerLen).(mem := Shared(false, false, s.mem.queue, k, 0), sent := k)
  {
    hide Reachable;
    if k == 0 {
      ReachInit(maxWorkerLen);
      s := Init(maxWorkerLen);
    } else {
      s := ReachPosts(maxWorkerLen, k - 1);
      s := ReachPost(maxWorkerLen, s);
    }
  }

  /** Without a Start, Stop returns at once and leaves the sent tasks in the queue, as many as it holds. */
  lemma StopWithoutStart(maxWorkerLen: nat, k: nat)
    requires k <= Capacity(maxWorkerLen)
    ensures exists s ::
      Reachable(maxWorkerLen, s) && s.stopper.Finished? && s.sent == k && |s.mem.queue| == k && s.starts == 0
  {
    hide Reachable;
    var s := ReachPosts(maxWorkerLen, k);
    s := ReachStep(maxWorkerLen, s, StopSwap);
    s := ReachStep(maxWorkerLen, s, StopClose);
    s := ReachStep(maxWorkerLen, s, StopWait);
  }

  /** Until the queue is closed, runners and restarts in progress are as many as the outside Starts,
      for any pattern of panics; so k Starts never run more than k tasks at once. */
  lemma RunnerCount(maxWorkerLen: nat, s: State)
    requires Reachable(maxWorkerLen, s)
    ensures !s.mem.chanClosed ==> |Slots(s.runners)| == s.starts
    ensures |BusyRunners(s.runners)| <= s.starts
  {
    ReachableInv(maxWorkerLen, s);
    SubsetSize(BusyRunners(s.runners), Slots(s.runners));
  }

  /** One outside Start runs one task at a time, in the order the sends completed: when a task is in
      hand, exactly the tasks sent before it have ended, and the queue holds those sent after it. */
  lemma OneStartIsSequential(maxWorkerLen: nat, s: State, r: nat)
    requires Reachable(maxWorkerLen, s) && s.starts <= 1 && r in s.runners && Busy(s.runners[r])
    ensures BusyRunners(s.runners) == {r}
    ensures forall t :: t in s.ended <==> 0 <= t < s.runners[r].ticket
    ensures forall i :: 0 <= i < |s.mem.queue| ==> s.mem.queue[i] == s.runners[r].ticket + 1 + i
    ensures s.runners[r].ticket + 1 + |s.mem.queue| == s.sent
  {
    hide Reachable, StopInv, RestartInv, WaitInv, LenInv, IdleInv;
    ReachableInv(maxWorkerLen, s);
    forall q | q in BusyRunners(s.runners) ensures q == r { OneSlot(s, q, r); }
    forall q, t: Ticket | t < s.runners[r].ticket ensures !HasTicket(s.runners, q, t) {
      assert q in s.runners && Busy(s.runners[q]) ==> q in BusyRunners(s.runners);
    }
  }

  /** Len counts the queued tasks, the posts between counting and sending, the tasks received but not
      yet uncounted, and for ever every post that panicked at the closed channel; at rest it is off by
      exactly the last. */
  lemma LenCounts(maxWorkerLen: nat, s: State)
    requires Reachable(maxWorkerLen, s)
    ensures s.mem.len == |s.mem.queue| + |CountedPosters(s.posters)| + |TookRunners(s.runners)| + s.failed
    ensures s.posters == map[] && TookRunners(s.runners) == {} ==> s.mem.len == |s.mem.queue| + s.failed
  {
    hide Reachable;
    ReachableInv(maxWorkerLen, s);
    assert s.posters == map[] ==> CountedPosters(s.posters) == {};
  }

  /** A post that was counted before the close panics at it, and Len stays wrong with nothing left. */
  lemma LenStaysOff(maxWorkerLen: nat)
    ensures exists s ::
      && Reachable(maxWorkerLen, s) && s.failed == 1 && s.mem.len == 1
      && s.mem.queue == [] && s.posters == map[] && s.runners == map[]
  {
    hide Reachable;
    ReachInit(maxWorkerLen);
    var s := ReachStep(maxWorkerLen, Init(maxWorkerLen), PostCheck(0));
    s := ReachStep(maxWorkerLen, s, PostCount(0));
    s := ReachStep(maxWorkerLen, s, StopSwap);
    s := ReachStep(maxWorkerLen, s, StopClose);
    s := ReachStep(maxWorkerLen, s, PostPanic(0));
    assert s.posters == map[];
  }

  lemma BusyMove(runners: map<nat, Runner>, r: nat, pc: Runner)
    requires r !in runners
    ensures |BusyRunners(runners[r := pc])| == |BusyRunners(runners)| + Bit(Busy(pc))
  {
    assert BusyRunners(runners[r := pc]) == if Busy(pc) then BusyRunners(runners) + {r} else BusyRunners(runners);
  }

  /** k outside Starts, and a task in the hands of each of their runners. */
  lemma {:induction false} ReachBusy(maxWorkerLen: nat, k: nat) returns (s: State)
    ensures Reachable(maxWorkerLen, s) && s.starts == k && |BusyRunners(s.runners)| == k
    ensures s.posters == map[] && !s.mem.closed && !s.mem.chanClosed && s.mem.queue == []
    ensures s.capacity == Capacity(maxWorkerLen) && forall r :: r in s.runners ==> r < k
  {
    hide Reachable, BusyRunners;
    if k == 0 {
      ReachInit(maxWorkerLen);
      s := Init(maxWorkerLen);
      assert BusyRunners(s.runners) == {} by { NoneBusy(); }
    } else {
      var before := ReachBusy(maxWorkerLen, k - 1);
      s := ReachStart(maxWorkerLen, before, k - 1);
      s := ReachPost(maxWorkerLen, s);
      s := ReachStep(maxWorkerLen, s, Receive(k - 1));
      BusyMove(before.runners, k - 1, s.runners[k - 1]);
      assert s.runners == before.runners[k - 1 := s.runners[k - 1]];
    }
  }

  lemma NoneBusy()
    ensures BusyRunners(map[]) == {}
  {
  }

  /** The bound of RunnerCount is met for every number of Starts, whatever the length of the queue: two
      tasks can run at once exactly when there were at least two, which is what a real node makes. */
  lemma OverlapIff(maxWorkerLen: nat, k: nat)
    ensures exists s :: Reachable(maxWorkerLen, s) && s.starts == k && |BusyRunners(s.runners)| == k
    ensures (exists s :: Reachable(maxWorkerLen, s) && s.starts == k && |BusyRunners(s.runners)| >= 2) <==> k >= 2
  {
    hide Reachable;
    var s := ReachBusy(maxWorkerLen, k);
    if t :| Reachable(maxWorkerLen, t) && t.starts == k && |BusyRunners(t.runners)| >= 2 {
      RunnerCount(maxWorkerLen, t);
    }
  }

  // ---- Posts, one by one ----

  /** A Post that nothing interrupts is its steps in a row: it checks and counts, and then sends, panics or
      waits for room, as the method does. */
  lemma PostAlone(s: State, p: nat)
    requires p !in s.posters
    ensures PostResult(s.mem, s.capacity).Ignored? <==> Next(s, PostCheck(p)).None?
    ensures var counted := Runs.Run(Next, s, [PostCheck(p), PostCount(p)]); !s.mem.closed ==>
      && counted.Some? && counted.value.mem == AddLen(s.mem, 1)
      && match PostResult(s.mem, s.capacity) {
           case Posted => Next(counted.value, PostSend(p)).Some?
                          && Next(counted.value, PostSend(p)).value.mem == PostEffect(s.mem, s.capacity, s.sent)
           case SendPanics => Next(counted.value, PostPanic(p)).Some? && Next(counted.value, PostSend(p)).None?
           case _ => Next(counted.value, PostSend(p)).None? && Next(counted.value, PostPanic(p)).None?
         }
  {
    if !s.mem.closed {
      var checked := Next(s, PostCheck(p)).value;
      assert [PostCheck(p), PostCount(p)][1..] == [PostCount(p)] && [PostCount(p)][1..] == [];
      assert Runs.Run(Next, checked, [PostCount(p)]) == Next(checked, PostCount(p));
    }
  }

  /** As many sends complete without a receive as NewWorker was asked to make room for, or 1024. */
  lemma CapacityIff(maxWorkerLen: nat, k: nat)
    ensures (exists s :: Reachable(maxWorkerLen, s) && s.taken == 0 && s.sent == k)
       <==> k <= (if maxWorkerLen == 0 then 1024 else maxWorkerLen)
  {
    hide Reachable, Inv;
    if s :| Reachable(maxWorkerLen, s) && s.taken == 0 && s.sent == k {
      CapacityKept(maxWorkerLen, s);
      ReachableInv(maxWorkerLen, s);
      assert FifoInv(s) by { FifoOfInv(s); }
    }
    if k <= Capacity(maxWorkerLen) { var s := ReachPosts(maxWorkerLen, k); }
  }

  lemma CapacityKept(maxWorkerLen: nat, s: State)
    requires Reachable(maxWorkerLen, s)
    ensures s.capacity == Capacity(maxWorkerLen)
  {
    var kept := (x: State) => x.capacity == Capacity(maxWorkerLen);
    Runs.ReachableKeeps(Next, kept, Init(maxWorkerLen), s);
  }

  lemma FifoOfInv(s: State)
    requires Inv(s)
    ensures FifoInv(s)
  {
  }

  // ---- Tasks that return and panic ----

  /** One runner is left, waiting for tasks; all tasks so far have ended as listed. */
  ghost predicate Ended(maxWorkerLen: nat, s: State, hows: seq<Ending>, r: nat) {
    && Reachable(maxWorkerLen, s) && s.capacity > 0 && s.starts == 1 && s.sent == s.taken == |hows|
    && s.mem == Shared(false, false, [], 0, 1) && s.posters == map[] && s.stopper.NotStopped?
    && s.runners == map[r := Receiving]
    && (forall t: Ticket :: t in s.ended <==> t < |hows|) && (forall t :: 0 <= t < |hows| ==> s.ended[t] == hows[t])
  }

  lemma OneRunner(r: nat, a: Runner, b: Runner)
    ensures map[r := a][r := b] == map[r := b]
  {
  }

  lemma Replaced(r: nat)
    ensures map[r := Recovering][r := Spawning(r + 1)][r + 1 := Reserved][r + 1 := Receiving][r := Leaving] - {r}
         == map[r + 1 := Receiving]
  {
  }

  /** A panic is followed by a restart: the runner's replacement goes on, and the runner is done. */
  lemma ReachRestart(maxWorkerLen: nat, s: State, r: nat) returns (s': State)
    requires Reachable(maxWorkerLen, s) && s.runners == map[r := Recovering] && s.mem.wg == 1
    ensures Reachable(maxWorkerLen, s') && s' == s.(runners := map[r + 1 := Receiving])
  {
    hide Reachable;
    s' := ReachStep(maxWorkerLen, s, RestartAdd(r, r + 1));
    s' := ReachStep(maxWorkerLen, s', RestartSpawn(r));
    s' := ReachStep(maxWorkerLen, s', Done(r));
    Replaced(r);
  }

  function Taken(s: State, r: nat): State {
    s.(sent := s.sent + 1, taken := s.taken + 1, mem := Shared(false, false, [], 1, 1),
       runners := map[r := Took(s.sent)])
  }

  lemma TakesOnly(posted: State, s: State, r: nat)
    requires posted == s.(mem := Shared(false, false, [s.sent], 1, 1), sent := s.sent + 1)
    requires s.runners == map[r := Receiving]
    ensures Next(posted, Receive(r)) == Some(Taken(s, r))
  {
    assert posted.mem.queue[1..] == [];
    OneRunner(r, Receiving, Took(s.sent));
  }

  lemma ReachTaken(maxWorkerLen: nat, s: State, r: nat) returns (s': State)
    requires Reachable(maxWorkerLen, s) && s.capacity > 0 && s.sent == s.taken
    requires s.mem == Shared(false, false, [], 0, 1) && s.posters == map[] && s.runners == map[r := Receiving]
    ensures Reachable(maxWorkerLen, s')
    ensures s' == Taken(s, r)
  {
    hide Reachable;
    var posted := ReachPost(maxWorkerLen, s);
    assert [] + [s.sent] == [s.sent] && posted.mem == Shared(false, false, [s.sent], 1, 1);
    OneRunner(r, Receiving, Took(s.sent));
    assert Next(posted, Receive(r)) == Some(Taken(s, r)) by { TakesOnly(posted, s, r); }
    s' := ReachStep(maxWorkerLen, posted, Receive(r));
  }

  lemma ReachEnd(maxWorkerLen: nat, s: State, r: nat, how: Ending) returns (s': State)
    requires Reachable(maxWorkerLen, s) && s.capacity > 0 && s.sent == s.taken
    requires s.mem == Shared(false, false, [], 0, 1) && s.posters == map[] && s.runners == map[r := Receiving]
    ensures Reachable(maxWorkerLen, s')
    ensures s' == s.(sent := s.sent + 1, taken := s.taken + 1, ended := s.ended[s.sent := how],
                     runners := map[r := if how.Returned? then Receiving else Recovering])
  {
    hide Reachable;
    s' := ReachTaken(maxWorkerLen, s, r);
    s' := ReachStep(maxWorkerLen, s', Begin(r));
    OneRunner(r, Took(s.sent), Running(s.sent));
    s' := ReachStep(maxWorkerLen, s', End(r, how));
    OneRunner(r, Running(s.sent), if how.Returned? then Receiving else Recovering);
  }

  lemma ReachTask(maxWorkerLen: nat, s: State, hows: seq<Ending>, r: nat, how: Ending) returns (s': State, r': nat)
    requires Ended(maxWorkerLen, s, hows, r)
    ensures Ended(maxWorkerLen, s', hows + [how], r')
  {
    hide Reachable;
    s' := ReachEnd(maxWorkerLen, s, r, how);
    if how.Panicked? { s' := ReachRestart(maxWorkerLen, s', r); }
    r' := if how.Panicked? then r + 1 else r;
  }

  lemma {:induction false} ReachEnded(maxWorkerLen: nat, hows: seq<Ending>) returns (s: State, r: nat)
    ensures Ended(maxWorkerLen, s, hows, r)
    decreases |hows|
  {
    hide Reachable;
    if hows == [] {
      ReachInit(maxWorkerLen);
      r := 0;
      s := ReachStart(maxWorkerLen, Init(maxWorkerLen), r);
      assert s.runners == map[0 := Receiving];
    } else {
      var n := |hows| - 1;
      s, r := ReachEnded(maxWorkerLen, hows[..n]);
      s, r := ReachTask(maxWorkerLen, s, hows[..n], r, hows[n]);
      assert hows[..n] + [hows[n]] == hows;
    }
  }

  /** One Start runs any number of tasks however they end, each panic followed by a restart, and Stop
      returns after the last. */
  lemma AnyEndings(maxWorkerLen: nat, hows: seq<Ending>)
    ensures exists s :: Reachable(maxWorkerLen, s) && s.starts == 1 && EndedAs(s, hows) && Next(s, StopWait).Some?
  {
    hide Reachable;
    var s, r := ReachEnded(maxWorkerLen, hows);
    s := ReachStep(maxWorkerLen, s, StopSwap);
    s := ReachStep(maxWorkerLen, s, StopClose);
    s := ReachStep(maxWorkerLen, s, RangeEnds(r));
    s := ReachStep(maxWorkerLen, s, Done(r));
    assert EndedAs(s, hows);
  }

  ghost predicate EndedAs(s: State, hows: seq<Ending>) {
    s.sent == |hows| && forall t :: 0 <= t < |hows| ==> t in s.ended && s.ended[t] == hows[t]
  }

  // ---- Stop can always return ----

  predicate Spawns(runners: map<nat, Runner>, r: nat, child: nat) { r in runners && runners[r] == Spawning(child) }

  /** Nobody is reserved but by a restart in progress. */
  ghost predicate ParentInv(runners: map<nat, Runner>) {
    forall c :: c in runners && runners[c] == Reserved ==> exists r :: Spawns(runners, r, c)
  }

  lemma ParentKept(s: State, step: Step)
    requires ParentInv(s.runners) && RestartInv(s.runners) && Next(s, step).Some?
    ensures ParentInv(Next(s, step).value.runners)
  {
    var s' := Next(s, step).value;
    forall c | c in s'.runners && s'.runners[c] == Reserved ensures exists r :: Spawns(s'.runners, r, c) {
      if step.RestartAdd? && c == step.child {
        assert Spawns(s'.runners, step.r, c);
      } else {
        var r :| Spawns(s.runners, r, c);
        assert Spawns(s'.runners, r, c);
      }
    }
  }

  ghost predicate Sane(s: State) { Inv(s) && ParentInv(s.runners) }

  lemma SaneKept(s: State, step: Step)
    requires Sane(s) && Next(s, step).Some?
    ensures Sane(Next(s, step).value)
  {
    hide Next, ParentInv, FifoInv, StopInv, WaitInv, SlotInv, TicketInv, LenInv, SequentialInv, IdleInv;
    StepKeepsInv(s, step);
    ParentKept(s, step);
  }

  lemma ReachableSane(maxWorkerLen: nat, s: State)
    requires Reachable(maxWorkerLen, s)
    ensures Sane(s)
  {
    hide Inv, Next;
    InitInv(maxWorkerLen);
    forall x, step | Sane(x) && Next(x, step).Some? ensures Sane(Next(x, step).value) { SaneKept(x, step); }
    Runs.ReachableKeeps(Next, Sane, Init(maxWorkerLen), s);
  }

  /** Some run leads from one state to the other. */
  ghost predicate Leads(s: State, s': State) { Runs.Reachable(Next, s, s') }

  ghost predicate Goes(s0: State, s: State) { Leads(s0, s) && Sane(s) }

  lemma Go(s0: State, s: State, step: Step) returns (s': State)
    requires Goes(s0, s) && Next(s, step).Some?
    ensures s' == Next(s, step).value && Goes(s0, s')
  {
    hide Next, Sane;
    s' := Next(s, step).value;
    Runs.ReachStep(Next, s0, s, step);
    SaneKept(s, step);
  }

  lemma CanBeDone(s: State, r: nat)
    requires Sane(s) && (At(s, r, Exiting) || At(s, r, Leaving))
    ensures Next(s, Done(r)).Some?
  {
    hide ParentInv, FifoInv, StopInv, SlotInv, TicketInv, LenInv, SequentialInv, IdleInv, RestartInv;
    RunnersMove(s.runners, r, Leaving);
  }

  lemma {:induction false} FreshId(ids: set<nat>) returns (free: nat)
    ensures forall r :: r in ids ==> r < free
  {
    if ids == {} {
      free := 0;
    } else {
      var r :| r in ids;
      var below := FreshId(ids - {r});
      assert ids == ids - {r} + {r};
      free := if below > r then below else r + 1;
    }
  }

  /** How far a runner is from taking the next task, or from being done if there is none. */
  function Distance(pc: Runner): nat {
    match pc
    case Recovering => 6
    case Starting => 5
    case Took(_) => 4
    case Running(_) => 3
    case Receiving => 2
    case _ => 1
  }

  lemma Leave(s0: State, s: State, r: nat) returns (s': State)
    requires Goes(s0, s) && (At(s, r, Exiting) || At(s, r, Leaving))
    ensures Goes(s0, s') && s'.mem == DoneWait(s.mem) && s'.stopper == s.stopper && s'.runners == s.runners - {r}
    ensures Size(s'.runners) == Size(s.runners) - 1
  {
    hide Goes, Size;
    assert Sane(s) by { SaneOf(s0, s); }
    CanBeDone(s, r);
    s' := Go(s0, s, Done(r));
    RunnersMove(s.runners, r, Leaving);
  }

  lemma SaneOf(s0: State, s: State)
    requires Goes(s0, s)
    ensures Sane(s)
  {
  }

  lemma ChildOf(s0: State, s: State, r: nat)
    requires Goes(s0, s) && r in s.runners && s.runners[r].Spawning?
    ensures s.runners[r].child in s.runners && s.runners[s.runners[r].child] == Reserved && s.runners[r].child != r
  {
    ChildReserved(s.runners, r);
  }

  /** A restart in progress finishes: the replacement receives, and the runner is gone. */
  lemma Restarted(s0: State, s: State, r: nat) returns (s': State)
    requires Goes(s0, s) && r in s.runners && s.runners[r].Spawning?
    ensures Goes(s0, s') && s'.stopper == s.stopper
    ensures s'.mem.queue == s.mem.queue && s'.mem.chanClosed == s.mem.chanClosed
    ensures At(s', s.runners[r].child, Receiving) && Size(s'.runners) == Size(s.runners) - 1
  {
    hide Goes, Size;
    ChildOf(s0, s, r);
    var child := s.runners[r].child;
    s' := Go(s0, s, RestartSpawn(r));
    RunnersMove(s.runners, child, Receiving);
    RunnersMove(s.runners[child := Receiving], r, Leaving);
    s' := Leave(s0, s', r);
  }

  /** A runner of a closed worker can come to its end, and with it the tasks it still finds. */
  lemma {:induction false} Finish(s0: State, s: State, r: nat) returns (s': State)
    requires Goes(s0, s) && s.mem.chanClosed && r in s.runners && s.runners[r] != Reserved
    ensures Goes(s0, s') && s'.mem.chanClosed && s'.stopper == s.stopper && Size(s'.runners) < Size(s.runners)
    decreases |s.mem.queue|, Distance(s.runners[r])
  {
    hide Goes, Size;
    RunnersMove(s.runners, r, Leaving);
    match s.runners[r] {
      case Starting =>
        s' := Go(s0, s, StartSpawn(r));
        RunnersMove(s.runners, r, Receiving);
        s' := Finish(s0, s', r);
      case Receiving =>
        if s.mem.queue == [] {
          s' := Go(s0, s, RangeEnds(r));
          RunnersMove(s.runners, r, Exiting);
          s' := Leave(s0, s', r);
        } else {
          s' := Go(s0, s, Receive(r));
          RunnersMove(s.runners, r, s'.runners[r]);
          s' := Finish(s0, s', r);
        }
      case Took(_) =>
        s' := Go(s0, s, Begin(r));
        RunnersMove(s.runners, r, s'.runners[r]);
        s' := Finish(s0, s', r);
      case Running(_) =>
        s' := Go(s0, s, End(r, Returned));
        RunnersMove(s.runners, r, s'.runners[r]);
        s' := Finish(s0, s', r);
      case Recovering =>
        var child := FreshId(s.runners.Keys);
        s' := Go(s0, s, RestartAdd(r, child));
        RunnersMove(s.runners, r, Spawning(child));
        RunnersMove(s.runners[r := Spawning(child)], child, Reserved);
        s' := Restarted(s0, s', r);
        s' := Finish(s0, s', child);
      case Spawning(_) => s' := Restarted(s0, s, r);
      case Exiting => s' := Leave(s0, s, r);
      case Leaving => s' := Leave(s0, s, r);
    }
  }

  lemma SomeoneFinishes(s0: State, s: State) returns (r: nat)
    requires Goes(s0, s) && s.runners != map[]
    ensures r in s.runners && s.runners[r] != Reserved
  {
    hide Inv;
    assert s.runners.Keys != {};
    r :| r in s.runners;
    if s.runners[r] == Reserved {
      var parent :| Spawns(s.runners, parent, r);
      r := parent;
    }
  }

  lemma {:induction false} AllFinish(s0: State, s: State) returns (s': State)
    requires Goes(s0, s) && s.mem.chanClosed
    ensures Goes(s0, s') && s'.mem.chanClosed && s'.stopper == s.stopper && s'.runners == map[]
    decreases Size(s.runners)
  {
    hide Goes;
    if s.runners == map[] {
      s' := s;
    } else {
      var r := SomeoneFinishes(s0, s);
      s' := Finish(s0, s, r);
      s' := AllFinish(s0, s');
    }
  }

  /** Stop never gets stuck: from whatever state the worker is in, with whatever runners, panics and
      restarts in progress, it can go on to where the winning Stop returns. */
  lemma StopCanReturn(maxWorkerLen: nat, s: State)
    requires Reachable(maxWorkerLen, s) && !s.stopper.Finished?
    ensures exists s' :: Leads(s, s') && Next(s', StopWait).Some?
  {
    hide Reachable, Sane, Leads;
    ReachableSane(maxWorkerLen, s);
    assert Leads(s, s) by { LeadsSelf(s); }
    var s' := s;
    if s'.stopper.NotStopped? { s' := Go(s, s', StopSwap); }
    if s'.stopper.Swapped? { s' := Go(s, s', StopClose); }
    ClosedWhenWaiting(s');
    s' := AllFinish(s, s');
    NobodyLeft(s');
  }

  lemma LeadsSelf(s: State)
    ensures Leads(s, s)
  {
    Runs.ReachInit(Next, s);
  }

  lemma ClosedWhenWaiting(s: State)
    requires Sane(s) && s.stopper.Waiting?
    ensures s.mem.chanClosed
  {
  }

  lemma NobodyLeft(s: State)
    requires Sane(s) && s.runners == map[]
    ensures s.mem.wg == 0
  {
  }
}

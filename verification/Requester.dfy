/** requester.go: mids, the callbacks registered under them, and the runners that invoke them. */
module Requester {
  import opened Base

  /** Callbacks are numbered in the order of their registration, from 1. */
  type Callback = nat

  /** The table after registering a callback: the mid is incremented with 32-bit wrap-around. */
  function RegisterIn(handlers: map<uint32, Callback>, mid: uint32, cb: Callback): (map<uint32, Callback>, uint32) {
    var mid': uint32 := (mid + 1) % TWO_32;
    (handlers[mid' := cb], mid')
  }

  class CallbackTable {
    var handlers: map<uint32, Callback>
    var mid: uint32

    constructor ()
      ensures handlers == map[] && mid == 0
    {
      handlers, mid := map[], 0;
    }

    /** A nil callback gets mid 0 and leaves no trace. */
    method RegisterCallback(cb: Option<Callback>) returns (r: uint32)
      modifies this
      ensures cb.None? ==> r == 0 && handlers == old(handlers) && mid == old(mid)
      ensures cb.Some? ==> (handlers, mid) == RegisterIn(old(handlers), old(mid), cb.value) && r == mid
    {
      if cb.None? { return 0; }
      mid := (mid + 1) % TWO_32;
      handlers := handlers[mid := cb.value];
      return mid;
    }

    method UnregisterCallback(m: uint32)
      modifies this`handlers
      ensures handlers == old(handlers) - {m}
    {
      handlers := handlers - {m};
    }

    /** The closure made by getCallback, for a callback that returns: it is looked up, and its mid
        unregistered afterwards; a nil one panics before that. */
    method Answer(m: uint32) returns (cb: Option<Callback>)
      modifies this`handlers
      ensures cb == if m in old(handlers) then Some(old(handlers)[m]) else None
      ensures handlers == if cb.Some? then old(handlers) - {m} else old(handlers)
    {
      cb := Lookup(m);
      if cb.Some? { UnregisterCallback(m); }
    }

    /** What the closure made by getCallback calls first; a mid without a callback is a nil function,
        whose call panics. */
    method Lookup(m: uint32) returns (cb: Option<Callback>)
      ensures cb == if m in handlers then Some(handlers[m]) else None
    {
      if m !in handlers { return None; }
      return Some(handlers[m]);
    }
  }

  // ---- One node over time ----

  /** A node's table; `serial` registrations so far, `unsent` those whose request is not on its way yet;
      `busy` the callback each worker runner is inside of; and how often each callback has begun,
      returned and panicked. */
  datatype Node = Node(
    handlers: map<uint32, Callback>, mid: uint32, serial: nat, unsent: set<Callback>, busy: map<nat, Callback>,
    begun: map<Callback, nat>, returned: map<Callback, nat>, panicked: map<Callback, nat>)

  const FRESH_NODE := Node(map[], 0, 0, {}, map[], map[], map[], map[])

  function Times(m: map<Callback, nat>, cb: Callback): nat { if cb in m then m[cb] else 0 }

  function Once(m: map<Callback, nat>, cb: Callback): map<Callback, nat> { m[cb := Times(m, cb) + 1] }

  function MidOf(cb: Callback): uint32 { cb % TWO_32 }

  function Register(nd: Node): Node {
    var (handlers, mid) := RegisterIn(nd.handlers, nd.mid, nd.serial + 1);
    nd.(handlers := handlers, mid := mid, serial := nd.serial + 1, unsent := nd.unsent + {nd.serial + 1})
  }

  /** A runner starts the callback found under a mid; the table still holds it. */
  function Begin(nd: Node, runner: nat, cb: Callback): Node {
    nd.(busy := nd.busy[runner := cb], begun := Once(nd.begun, cb))
  }

  /** The callback returned: its mid is unregistered, whoever owns it by now. */
  function Return(nd: Node, runner: nat): Node
    requires runner in nd.busy
  {
    var cb := nd.busy[runner];
    nd.(busy := nd.busy - {runner}, returned := Once(nd.returned, cb), handlers := nd.handlers - {MidOf(cb)})
  }

  /** The callback panicked: the worker recovers and nothing is unregistered. */
  function Panic(nd: Node, runner: nat): Node
    requires runner in nd.busy
  {
    nd.(busy := nd.busy - {runner}, panicked := Once(nd.panicked, nd.busy[runner]))
  }

  function RunningIn(busy: map<nat, Callback>, cb: Callback): set<nat> { set r | r in busy && busy[r] == cb }

  function Running(busy: map<nat, Callback>, cb: Callback): nat { |RunningIn(busy, cb)| }

  ghost predicate TableInv(nd: Node, runners: nat) {
    && nd.mid == nd.serial % TWO_32
    && (forall m :: m in nd.handlers ==> m == MidOf(nd.handlers[m]) && 1 <= nd.handlers[m] <= nd.serial)
    && |nd.busy| <= runners && (runners == 0 ==> nd.begun == map[])
    && (forall r :: r in nd.busy ==> 1 <= nd.busy[r] <= nd.serial)
    && (forall cb :: cb in nd.unsent ==> 1 <= cb <= nd.serial)
    && (forall cb :: cb in nd.returned ==> 1 <= cb <= nd.serial)
    && (forall m :: m in nd.handlers ==> Times(nd.returned, nd.handlers[m]) == 0)
  }

  ghost predicate CallbackInv(nd: Node, runners: nat, cb: Callback) {
    && Times(nd.begun, cb) == Times(nd.panicked, cb) + Times(nd.returned, cb) + Running(nd.busy, cb)
    && Times(nd.returned, cb) + Running(nd.busy, cb) <= runners
  }

  /** The callback was registered and no later one got its mid, and none with its mid has returned. */
  ghost predicate Pending(nd: Node, cb: Callback) {
    && 1 <= cb <= nd.serial < cb + TWO_32
    && forall c :: Times(nd.returned, c) > 0 ==> MidOf(c) != MidOf(cb)
  }

  predicate Holds(nd: Node, cb: Callback) { MidOf(cb) in nd.handlers && nd.handlers[MidOf(cb)] == cb }

  /** Every pending callback is in the table. */
  ghost predicate PendingInv(nd: Node) {
    forall cb :: Pending(nd, cb) ==> Holds(nd, cb)
  }

  ghost predicate NodeInv(nd: Node, runners: nat) {
    TableInv(nd, runners) && PendingInv(nd) && forall cb :: CallbackInv(nd, runners, cb)
  }

  lemma FreshNodeInv(runners: nat)
    ensures NodeInv(FRESH_NODE, runners)
  {
    forall cb ensures CallbackInv(FRESH_NODE, runners, cb) {
      assert RunningIn(map[], cb) == {};
    }
  }

  lemma MidAdvances(serial: nat)
    ensures (serial % TWO_32 + 1) % TWO_32 == (serial + 1) % TWO_32
  {
  }

  /** Mids repeat only after 2^32 registrations. */
  lemma MidsDiffer(a: nat, b: nat)
    requires a < b < a + TWO_32
    ensures MidOf(a) != MidOf(b)
  {
  }

  lemma PendingBefore(nd: Node, nd': Node, cb: Callback)
    requires Pending(nd', cb) && cb <= nd.serial <= nd'.serial
    requires forall c :: Times(nd.returned, c) > 0 ==> Times(nd'.returned, c) > 0
    ensures Pending(nd, cb)
  {
    hide MidOf;
  }

  /** A registration adds an entry under its own mid and changes no other. */
  lemma RegisterAdds(nd: Node)
    requires nd.mid == nd.serial % TWO_32
    ensures Register(nd).handlers == nd.handlers[MidOf(nd.serial + 1) := nd.serial + 1]
  {
    MidAdvances(nd.serial);
  }

  lemma RegisterKeepsPending(nd: Node, runners: nat)
    requires TableInv(nd, runners) && PendingInv(nd)
    ensures PendingInv(Register(nd))
  {
    hide MidOf, Pending;
    var nd' := Register(nd);
    RegisterAdds(nd);
    forall cb: Callback | Pending(nd', cb) ensures Holds(nd', cb) {
      PendingRange(nd', cb);
      if cb <= nd.serial {
        PendingBefore(nd, nd', cb);
        MidsDiffer(cb, nd.serial + 1);
      }
    }
  }

  lemma PendingRange(nd: Node, cb: Callback)
    requires Pending(nd, cb)
    ensures 1 <= cb <= nd.serial < cb + TWO_32
  {
  }

  lemma ReturnKeepsPending(nd: Node, runner: nat)
    requires PendingInv(nd) && runner in nd.busy
    ensures PendingInv(Return(nd, runner))
  {
    hide MidOf;
    var nd' := Return(nd, runner);
    forall cb: Callback | Pending(nd', cb) ensures Holds(nd', cb) {
      assert Times(nd'.returned, nd.busy[runner]) > 0;
      PendingBefore(nd, nd', cb);
    }
  }

  lemma SameTableKeepsPending(nd: Node, nd': Node)
    requires PendingInv(nd) && nd'.handlers == nd.handlers && nd'.serial == nd.serial && nd'.returned == nd.returned
    ensures PendingInv(nd')
  {
    forall cb: Callback | Pending(nd', cb) ensures Holds(nd', cb) { PendingBefore(nd, nd', cb); }
  }

  lemma RegisterKeepsTable(nd: Node, runners: nat)
    requires TableInv(nd, runners)
    ensures TableInv(Register(nd), runners)
  {
    var nd' := Register(nd);
    MidAdvances(nd.serial);
    assert nd'.mid == MidOf(nd'.serial) && Times(nd'.returned, nd'.serial) == 0;
    assert forall m :: m in nd'.handlers && m != nd'.mid ==> m in nd.handlers && nd'.handlers[m] == nd.handlers[m];
  }

  lemma RegisterKeepsInv(nd: Node, runners: nat)
    requires NodeInv(nd, runners)
    ensures NodeInv(Register(nd), runners)
  {
    hide TableInv, PendingInv, RunningIn;
    RegisterKeepsTable(nd, runners);
    RegisterKeepsPending(nd, runners);
    forall cb ensures CallbackInv(Register(nd), runners, cb) {
      assert CallbackInv(nd, runners, cb);
    }
  }

  lemma RunningAtMost(busy: map<nat, Callback>, cb: Callback)
    ensures Running(busy, cb) <= |busy|
  {
    SubsetSize(RunningIn(busy, cb), busy.Keys);
  }

  lemma RunningAfterBegin(busy: map<nat, Callback>, runner: nat, cb: Callback, other: Callback)
    requires runner !in busy
    ensures Running(busy[runner := cb], other) == Running(busy, other) + (if other == cb then 1 else 0)
  {
    assert RunningIn(busy[runner := cb], other) ==
      if other == cb then RunningIn(busy, other) + {runner} else RunningIn(busy, other);
  }

  lemma RunningAfterEnd(busy: map<nat, Callback>, runner: nat, other: Callback)
    requires runner in busy
    ensures Running(busy - {runner}, other) == Running(busy, other) - (if other == busy[runner] then 1 else 0)
    ensures |busy - {runner}| == |busy| - 1
  {
    assert (busy - {runner}).Keys == busy.Keys - {runner};
    assert RunningIn(busy - {runner}, other) == RunningIn(busy, other) - {runner};
  }

  lemma BeginKeepsTable(nd: Node, runners: nat, runner: nat, m: uint32)
    requires TableInv(nd, runners) && |nd.busy| < runners && runner !in nd.busy && m in nd.handlers
    ensures TableInv(Begin(nd, runner, nd.handlers[m]), runners)
  {
  }

  lemma ReturnKeepsTable(nd: Node, runners: nat, runner: nat)
    requires TableInv(nd, runners) && runner in nd.busy
    ensures TableInv(Return(nd, runner), runners)
  {
    hide RunningIn;
    RunningAfterEnd(nd.busy, runner, 0);
  }

  lemma PanicKeepsTable(nd: Node, runners: nat, runner: nat)
    requires TableInv(nd, runners) && runner in nd.busy
    ensures TableInv(Panic(nd, runner), runners)
  {
    hide RunningIn;
    RunningAfterEnd(nd.busy, runner, 0);
  }

  lemma BeginKeepsInv(nd: Node, runners: nat, runner: nat, m: uint32)
    requires NodeInv(nd, runners) && |nd.busy| < runners && runner !in nd.busy && m in nd.handlers
    ensures NodeInv(Begin(nd, runner, nd.handlers[m]), runners)
  {
    hide TableInv, PendingInv, RunningIn;
    var nd', owner := Begin(nd, runner, nd.handlers[m]), nd.handlers[m];
    BeginKeepsTable(nd, runners, runner, m);
    SameTableKeepsPending(nd, nd');
    forall cb ensures CallbackInv(nd', runners, cb) {
      assert CallbackInv(nd, runners, cb);
      RunningAfterBegin(nd.busy, runner, owner, cb);
      if cb == owner { RunningBound(nd', runners, cb, m); }
    }
  }

  /** A callback still in the table has not returned, so its runs are limited by the runners alone. */
  lemma RunningBound(nd: Node, runners: nat, cb: Callback, m: uint32)
    requires TableInv(nd, runners) && m in nd.handlers && nd.handlers[m] == cb
    ensures Times(nd.returned, cb) + Running(nd.busy, cb) <= runners
  {
    RunningAtMost(nd.busy, cb);
  }

  lemma ReturnKeepsInv(nd: Node, runners: nat, runner: nat)
    requires NodeInv(nd, runners) && runner in nd.busy
    ensures NodeInv(Return(nd, runner), runners)
  {
    hide TableInv, PendingInv, RunningIn;
    var nd' := Return(nd, runner);
    ReturnKeepsTable(nd, runners, runner);
    ReturnKeepsPending(nd, runner);
    forall cb ensures CallbackInv(nd', runners, cb) {
      assert CallbackInv(nd, runners, cb);
      RunningAfterEnd(nd.busy, runner, cb);
    }
  }

  lemma PanicKeepsInv(nd: Node, runners: nat, runner: nat)
    requires NodeInv(nd, runners) && runner in nd.busy
    ensures NodeInv(Panic(nd, runner), runners)
  {
    hide TableInv, PendingInv, RunningIn;
    var nd' := Panic(nd, runner);
    PanicKeepsTable(nd, runners, runner);
    SameTableKeepsPending(nd, nd');
    forall cb ensures CallbackInv(nd', runners, cb) {
      assert CallbackInv(nd, runners, cb);
      RunningAfterEnd(nd.busy, runner, cb);
    }
  }

  lemma MidsApart(a: nat, b: nat)
    requires 1 <= a <= TWO_32 && 1 <= b <= TWO_32 && MidOf(a) == MidOf(b)
    ensures a == b
  {
  }

  /** Before mids come round the table holds exactly the callbacks that have not returned. */
  lemma HoldsIff(nd: Node, runners: nat, cb: Callback)
    requires NodeInv(nd, runners) && 1 <= cb <= nd.serial <= TWO_32
    ensures Holds(nd, cb) <==> Times(nd.returned, cb) == 0
  {
    hide CallbackInv, MidOf;
    if Times(nd.returned, cb) == 0 {
      forall c: Callback | Times(nd.returned, c) > 0 ensures MidOf(c) != MidOf(cb) {
        if MidOf(c) == MidOf(cb) { MidsApart(c, cb); }
      }
      assert Pending(nd, cb);
    }
  }
}

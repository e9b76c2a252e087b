/** discovery.go: the cache of cluster members and the listeners told about its changes. */
module MemberCache {
  import opened Base

  type NodeId = Bytes

  datatype Member = Member(nodeId: NodeId, nodeType: Bytes, address: Bytes)

  /** One call of a listener, known by its place in the order of registration. */
  datatype Notice = Added(listener: nat, member: Member) | Removed(listener: nat, member: Member)

  datatype Cache = Cache(members: map<NodeId, Member>, addListeners: nat, removeListeners: nat, log: seq<Notice>)

  function AddNotices(n: nat, m: Member): seq<Notice> {
    if n == 0 then [] else AddNotices(n - 1, m) + [Added(n - 1, m)]
  }

  function RemoveNotices(n: nat, m: Member): seq<Notice> {
    if n == 0 then [] else RemoveNotices(n - 1, m) + [Removed(n - 1, m)]
  }

  /** The first value of a node id stays until the node is removed. */
  function AddTo(c: Cache, m: Member): Cache {
    if m.nodeId in c.members then c
    else c.(members := c.members[m.nodeId := m], log := c.log + AddNotices(c.addListeners, m))
  }

  function RemoveFrom(c: Cache, id: NodeId): Cache {
    if id !in c.members then c
    else c.(members := c.members - {id}, log := c.log + RemoveNotices(c.removeListeners, c.members[id]))
  }

  lemma {:induction false} ListenersInOrder(n: nat, m: Member)
    ensures |AddNotices(n, m)| == n && forall i :: 0 <= i < n ==> AddNotices(n, m)[i] == Added(i, m)
    ensures |RemoveNotices(n, m)| == n && forall i :: 0 <= i < n ==> RemoveNotices(n, m)[i] == Removed(i, m)
  {
    if n == 0 {
    } else {
      ListenersInOrder(n - 1, m);
    }
  }

  /** A node that comes is told to every add listener once, in the order of their registration. */
  lemma AddTellsInOrder(c: Cache, m: Member)
    requires m.nodeId !in c.members
    ensures var log := AddTo(c, m).log;
      && c.log <= log && |log| == |c.log| + c.addListeners
      && forall i :: 0 <= i < c.addListeners ==> log[|c.log| + i] == Added(i, m)
  {
    ListenersInOrder(c.addListeners, m);
  }

  /** A node that goes is told to every remove listener once, in the order of their registration. */
  lemma RemoveTellsInOrder(c: Cache, id: NodeId)
    requires id in c.members
    ensures var log := RemoveFrom(c, id).log;
      && c.log <= log && |log| == |c.log| + c.removeListeners
      && forall i :: 0 <= i < c.removeListeners ==> log[|c.log| + i] == Removed(i, c.members[id])
  {
    ListenersInOrder(c.removeListeners, c.members[id]);
  }

  class DiscoveryDefault {
    var memberMap: map<NodeId, Member>
    var onAddListener: nat
    var onRemoveListener: nat
    var log: seq<Notice>

    function View(): Cache
      reads this
    {
      Cache(memberMap, onAddListener, onRemoveListener, log)
    }

    constructor ()
      ensures View() == Cache(map[], 0, 0, [])
    {
      memberMap, onAddListener, onRemoveListener, log := map[], 0, 0, [];
    }

    method AddMember(m: Member)
      modifies this`memberMap, this`log
      ensures View() == AddTo(old(View()), m)
    {
      if m.nodeId in memberMap { return; }
      memberMap := memberMap[m.nodeId := m];
      assert log + [] == log;
      for i := 0 to onAddListener
        invariant log == old(log) + AddNotices(i, m) && memberMap == old(memberMap)[m.nodeId := m]
      {
        assert old(log) + AddNotices(i, m) + [Added(i, m)] == old(log) + (AddNotices(i, m) + [Added(i, m)]);
        log := log + [Added(i, m)];
      }
    }

    method RemoveMember(id: NodeId)
      modifies this`memberMap, this`log
      ensures View() == RemoveFrom(old(View()), id)
    {
      if id !in memberMap { return; }
      var m := memberMap[id];
      memberMap := memberMap - {id};
      assert log + [] == log;
      for i := 0 to onRemoveListener
        invariant log == old(log) + RemoveNotices(i, m) && memberMap == old(memberMap) - {id}
      {
        assert old(log) + RemoveNotices(i, m) + [Removed(i, m)] == old(log) + (RemoveNotices(i, m) + [Removed(i, m)]);
        log := log + [Removed(i, m)];
      }
    }

    /** The empty id is never found, even if a member was stored under it. */
    method GetMember(id: NodeId) returns (r: Option<Member>)
      ensures r.Some? <==> id != [] && id in View().members
      ensures r.Some? ==> r.value == View().members[id]
    {
      if id == [] || id !in memberMap { return None; }
      r := Some(memberMap[id]);
    }

    method OnAddMember(isNil: bool)
      modifies this`onAddListener
      ensures View() == old(View()).(addListeners := old(onAddListener) + if isNil then 0 else 1)
    {
      if !isNil { onAddListener := onAddListener + 1; }
    }

    method OnRemoveMember(isNil: bool)
      modifies this`onRemoveListener
      ensures View() == old(View()).(removeListeners := old(onRemoveListener) + if isNil then 0 else 1)
    {
      if !isNil { onRemoveListener := onRemoveListener + 1; }
    }
  }

  // ---- The notification log ----

  /** What one add listener and one remove listener make of a notice; None if a node is added twice in
      a row, or removed without having been added with the same value. */
  function Hear(heard: map<NodeId, Member>, n: Notice, a: nat, r: nat): Option<map<NodeId, Member>> {
    match n
    case Added(i, m) =>
      if i != a then Some(heard) else if m.nodeId in heard then None else Some(heard[m.nodeId := m])
    case Removed(i, m) =>
      if i != r then Some(heard)
      else if m.nodeId in heard && heard[m.nodeId] == m then Some(heard - {m.nodeId}) else None
  }

  function Fold(log: seq<Notice>, a: nat, r: nat): Option<map<NodeId, Member>>
    decreases |log|
  {
    if log == [] then Some(map[])
    else match Fold(log[..|log| - 1], a, r)
         case None => None
         case Some(heard) => Hear(heard, log[|log| - 1], a, r)
  }

  lemma FoldSnoc(log: seq<Notice>, n: Notice, a: nat, r: nat)
    requires Fold(log, a, r).Some?
    ensures Fold(log + [n], a, r) == Hear(Fold(log, a, r).value, n, a, r)
  {
    assert (log + [n])[..|log|] == log;
  }

  lemma {:induction false} FoldAdded(log: seq<Notice>, n: nat, m: Member, a: nat, r: nat)
    requires Fold(log, a, r).Some? && m.nodeId !in Fold(log, a, r).value
    ensures Fold(log + AddNotices(n, m), a, r) ==
      Some(if a < n then Fold(log, a, r).value[m.nodeId := m] else Fold(log, a, r).value)
  {
    if n == 0 {
      assert log + [] == log;
    } else {
      FoldAdded(log, n - 1, m, a, r);
      FoldSnoc(log + AddNotices(n - 1, m), Added(n - 1, m), a, r);
      assert log + AddNotices(n, m) == log + AddNotices(n - 1, m) + [Added(n - 1, m)];
    }
  }

  lemma {:induction false} FoldRemoved(log: seq<Notice>, n: nat, m: Member, a: nat, r: nat)
    requires Fold(log, a, r).Some? && m.nodeId in Fold(log, a, r).value && Fold(log, a, r).value[m.nodeId] == m
    ensures Fold(log + RemoveNotices(n, m), a, r) ==
      Some(if r < n then Fold(log, a, r).value - {m.nodeId} else Fold(log, a, r).value)
  {
    if n == 0 {
      assert log + [] == log;
    } else {
      FoldRemoved(log, n - 1, m, a, r);
      FoldSnoc(log + RemoveNotices(n - 1, m), Removed(n - 1, m), a, r);
      assert log + RemoveNotices(n, m) == log + RemoveNotices(n - 1, m) + [Removed(n - 1, m)];
    }
  }

  datatype Call = CallAdd(member: Member) | CallRemove(id: NodeId) | CallOnAdd | CallOnRemove

  function Apply(c: Cache, call: Call): Cache {
    match call
    case CallAdd(m) => AddTo(c, m)
    case CallRemove(id) => RemoveFrom(c, id)
    case CallOnAdd => c.(addListeners := c.addListeners + 1)
    case CallOnRemove => c.(removeListeners := c.removeListeners + 1)
  }

  function ApplyAll(c: Cache, calls: seq<Call>): Cache
    decreases |calls|
  {
    if calls == [] then c else ApplyAll(Apply(c, calls[0]), calls[1..])
  }

  ghost predicate KeysAreIds(c: Cache) {
    forall id :: id in c.members ==> c.members[id].nodeId == id
  }

  /** With add listener a and remove listener r present from the start, folding what they were told
      gives the member map after every call, and never finds a repeated add or an unmatched remove. */
  lemma {:induction false} ListenersReproduceMap(c: Cache, calls: seq<Call>, a: nat, r: nat)
    requires a < c.addListeners && r < c.removeListeners && KeysAreIds(c)
    requires Fold(c.log, a, r) == Some(c.members)
    ensures Fold(ApplyAll(c, calls).log, a, r) == Some(ApplyAll(c, calls).members)
    ensures KeysAreIds(ApplyAll(c, calls))
    decreases |calls|
  {
    if calls == [] {
    } else {
      match calls[0] {
        case CallAdd(m) =>
          if m.nodeId !in c.members { FoldAdded(c.log, c.addListeners, m, a, r); }
        case CallRemove(id) =>
          if id in c.members { FoldRemoved(c.log, c.removeListeners, c.members[id], a, r); }
        case _ =>
      }
      ListenersReproduceMap(Apply(c, calls[0]), calls[1..], a, r);
    }
  }

  /** What listeners a and r heard about one node: true for an add, false for a remove. */
  function HeardOf(log: seq<Notice>, a: nat, r: nat, id: NodeId): seq<bool>
    decreases |log|
  {
    if log == [] then []
    else
      var before := HeardOf(log[..|log| - 1], a, r, id);
      match log[|log| - 1]
      case Added(i, m) => if i == a && m.nodeId == id then before + [true] else before
      case Removed(i, m) => if i == r && m.nodeId == id then before + [false] else before
  }

  /** A log that folds alternates, for every node, between add and remove, starting with add. */
  lemma {:induction false} HeardAlternates(log: seq<Notice>, a: nat, r: nat, id: NodeId)
    requires Fold(log, a, r).Some?
    ensures var h := HeardOf(log, a, r, id);
      && (forall i :: 0 <= i < |h| ==> (h[i] <==> i % 2 == 0))
      && (id in Fold(log, a, r).value <==> |h| % 2 == 1)
    decreases |log|
  {
    if log == [] {
    } else {
      HeardAlternates(log[..|log| - 1], a, r, id);
    }
  }
}

/** discovery_etcd.go: the member cache follows the key-value store by replaying its events. */
module EtcdDiscovery {
  import opened Base
  import opened MemberCache

  type Key = Bytes

  datatype Entry = Entry(key: Key, value: Bytes)

  datatype Event = Put(key: Key, value: Bytes) | Delete(key: Key)

  // ---- Keys ----

  predicate StartsWith(s: Bytes, p: Bytes) { |p| <= |s| && s[..|p|] == p }

  /** strings.ReplaceAll with an empty replacement: every non-overlapping occurrence goes, from the left. */
  function RemoveAll(s: Bytes, p: Bytes): (r: Bytes)
    requires p != []
    ensures |r| <= |s|
    decreases |s|
  {
    if s == [] then []
    else if StartsWith(s, p) then RemoveAll(s[|p|..], p)
    else [s[0]] + RemoveAll(s[1..], p)
  }

  ghost predicate Occurs(s: Bytes, p: Bytes) {
    exists i :: 0 <= i <= |s| && StartsWith(s[i..], p)
  }

  lemma OccursTail(s: Bytes, p: Bytes)
    requires s != [] && p != [] && !StartsWith(s, p)
    ensures Occurs(s, p) <==> Occurs(s[1..], p)
  {
    if i :| 0 <= i <= |s| && StartsWith(s[i..], p) {
      assert s[0..] == s;
      assert s[i..] == s[1..][i - 1..];
    }
    if i :| 0 <= i <= |s[1..]| && StartsWith(s[1..][i..], p) {
      assert s[i + 1..] == s[1..][i..];
    }
  }

  lemma {:induction false} RemoveAllIdentity(s: Bytes, p: Bytes)
    requires p != []
    ensures RemoveAll(s, p) == s <==> !Occurs(s, p)
    decreases |s|
  {
    if s == [] {
      assert !Occurs(s, p);
    } else if StartsWith(s, p) {
      assert s[0..] == s;
      assert |RemoveAll(s, p)| < |s|;
    } else {
      OccursTail(s, p);
      RemoveAllIdentity(s[1..], p);
      assert s == [s[0]] + s[1..];
      assert RemoveAll(s, p)[1..] == RemoveAll(s[1..], p);
    }
  }

  /** Of several occurrences the leftmost goes first, and the search goes on behind it. */
  lemma {:induction false} RemoveAllSplits(s: Bytes, p: Bytes, i: nat)
    requires p != [] && i + |p| <= |s| && StartsWith(s[i..], p)
    requires forall j :: 0 <= j < i ==> !StartsWith(s[j..], p)
    ensures RemoveAll(s, p) == s[..i] + RemoveAll(s[i + |p|..], p)
    decreases i
  {
    hide StartsWith;
    assert s[0..] == s;
    if i == 0 {
      assert s[..0] == [];
    } else {
      assert s[1..][i - 1..] == s[i..] && s[1..][i - 1 + |p|..] == s[i + |p|..];
      forall j | 0 <= j < i - 1 ensures !StartsWith(s[1..][j..], p) { assert s[1..][j..] == s[j + 1..]; }
      RemoveAllSplits(s[1..], p, i - 1);
      assert s[..i] == [s[0]] + s[1..][..i - 1];
    }
  }

  /** The id comes back from its key exactly when it does not contain the prefix. */
  lemma KeyRoundTrip(prefix: Bytes, id: NodeId)
    requires prefix != []
    ensures RemoveAll(prefix + id, prefix) == id <==> !Occurs(id, prefix)
  {
    assert (prefix + id)[..|prefix|] == prefix && (prefix + id)[|prefix|..] == id;
    RemoveAllIdentity(id, prefix);
  }

  // ---- Replay ----

  function PutIn(c: Cache, decode: Bytes -> Option<Member>, value: Bytes): Cache {
    match decode(value)
    case None => c
    case Some(m) => AddTo(c, m)
  }

  function ReplayEvent(c: Cache, decode: Bytes -> Option<Member>, prefix: Bytes, e: Event): Cache
    requires prefix != []
  {
    match e
    case Put(_, value) => PutIn(c, decode, value)
    case Delete(key) => RemoveFrom(c, RemoveAll(key, prefix))
  }

  function LoadSnapshot(c: Cache, decode: Bytes -> Option<Member>, snapshot: seq<Entry>): Cache
    decreases |snapshot|
  {
    if snapshot == [] then c
    else PutIn(LoadSnapshot(c, decode, snapshot[..|snapshot| - 1]), decode, snapshot[|snapshot| - 1].value)
  }

  function ReplayAll(c: Cache, decode: Bytes -> Option<Member>, prefix: Bytes, events: seq<Event>): Cache
    requires prefix != []
    decreases |events|
  {
    if events == [] then c
    else ReplayEvent(ReplayAll(c, decode, prefix, events[..|events| - 1]), decode, prefix, events[|events| - 1])
  }

  class Etcd {
    const cache: DiscoveryDefault
    const keyPrefix: Bytes
    const decode: Bytes -> Option<Member>

    /** The prefix is "/<project>/node/", so it is never empty. */
    constructor (project: Bytes, decode: Bytes -> Option<Member>)
      ensures cache.View() == Cache(map[], 0, 0, []) && fresh(cache)
      ensures keyPrefix == [47] + project + [47, 110, 111, 100, 101, 47] && this.decode == decode
    {
      cache := new DiscoveryDefault();
      keyPrefix := [47] + project + [47, 110, 111, 100, 101, 47];
      this.decode := decode;
    }

    method AddMemberValue(value: Bytes)
      modifies cache
      ensures cache.View() == PutIn(old(cache.View()), decode, value)
    {
      match decode(value)
      case None => return;
      case Some(m) => cache.AddMember(m);
    }

    /** The snapshot's entries first, then the events of the watch, one after the other. */
    method Watch(snapshot: seq<Entry>, events: seq<Event>)
      requires keyPrefix != []
      modifies cache
      ensures cache.View() == ReplayAll(LoadSnapshot(old(cache.View()), decode, snapshot), decode, keyPrefix, events)
    {
      for i := 0 to |snapshot|
        invariant cache.View() == LoadSnapshot(old(cache.View()), decode, snapshot[..i])
      {
        assert snapshot[..i + 1][..i] == snapshot[..i];
        AddMemberValue(snapshot[i].value);
      }
      assert snapshot[..|snapshot|] == snapshot;
      ghost var loaded := cache.View();
      for i := 0 to |events|
        invariant cache.View() == ReplayAll(loaded, decode, keyPrefix, events[..i])
      {
        assert events[..i + 1][..i] == events[..i];
        match events[i]
        case Put(_, value) => AddMemberValue(value);
        case Delete(key) => cache.RemoveMember(RemoveAll(key, keyPrefix));
      }
      assert events[..|events|] == events;
    }
  }

  // ---- The store the cache should follow ----

  /** The key-value store itself: the last value put under each key. */
  function SnapshotStore(snapshot: seq<Entry>): map<Key, Bytes>
    decreases |snapshot|
  {
    if snapshot == [] then map[]
    else SnapshotStore(snapshot[..|snapshot| - 1])[snapshot[|snapshot| - 1].key := snapshot[|snapshot| - 1].value]
  }

  function Store(snapshot: seq<Entry>, events: seq<Event>): map<Key, Bytes>
    decreases |events|
  {
    if events == [] then SnapshotStore(snapshot)
    else StoreEvent(Store(snapshot, events[..|events| - 1]), events[|events| - 1])
  }

  function StoreEvent(store: map<Key, Bytes>, e: Event): map<Key, Bytes> {
    match e
    case Put(key, value) => store[key := value]
    case Delete(key) => store - {key}
  }

  /** A deployment: how values decode, the key prefix, and the entries found when the watch starts. */
  datatype Setup = Setup(decode: Bytes -> Option<Member>, prefix: Bytes, snapshot: seq<Entry>)

  ghost predicate ValidId(prefix: Bytes, id: NodeId) { id != [] && !Occurs(id, prefix) }

  /** The key of a valid id, with a value that names it. */
  ghost predicate ValidEntry(su: Setup, key: Key, value: Bytes) {
    exists id :: ValidId(su.prefix, id) && key == su.prefix + id && Names(su, value, id)
  }

  predicate Names(su: Setup, value: Bytes, id: NodeId) {
    su.decode(value).Some? && su.decode(value).value.nodeId == id
  }

  ghost predicate ValidEvent(su: Setup, e: Event) {
    match e
    case Put(key, value) => ValidEntry(su, key, value)
    case Delete(key) => exists id :: ValidId(su.prefix, id) && key == su.prefix + id
  }

  ghost predicate ValidSetup(su: Setup) {
    && su.prefix != []
    && (forall i :: 0 <= i < |su.snapshot| ==> ValidEntry(su, su.snapshot[i].key, su.snapshot[i].value))
    && (forall i, j :: 0 <= i < j < |su.snapshot| ==> su.snapshot[i].key != su.snapshot[j].key)
  }

  ghost predicate ValidEvents(su: Setup, events: seq<Event>) {
    forall i :: 0 <= i < |events| ==> ValidEvent(su, events[i])
  }

  function Members(su: Setup, events: seq<Event>): map<NodeId, Member>
    requires su.prefix != []
  {
    ReplayAll(LoadSnapshot(Cache(map[], 0, 0, []), su.decode, su.snapshot), su.decode, su.prefix, events).members
  }

  /** The current lifetime of key began with this value: with the snapshot, or with a Put that found the
      key absent, and no Delete of the key since. */
  ghost predicate BornWith(su: Setup, events: seq<Event>, key: Key, value: Bytes) {
    || (key in SnapshotStore(su.snapshot) && value == SnapshotStore(su.snapshot)[key] && NoDelete(events, key, 0))
    || exists j :: BornAt(su, events, key, value, j)
  }

  ghost predicate BornAt(su: Setup, events: seq<Event>, key: Key, value: Bytes, j: int) {
    && 0 <= j < |events| && events[j] == Put(key, value) && key !in Store(su.snapshot, events[..j])
    && NoDelete(events, key, j)
  }

  ghost predicate NoDelete(events: seq<Event>, key: Key, from: nat) {
    forall i :: from <= i < |events| ==> events[i] != Delete(key)
  }

  /** A node is a member exactly when its key is in the store, with the value its current lifetime began with. */
  ghost predicate FollowsFor(su: Setup, events: seq<Event>, id: NodeId)
    requires su.prefix != []
  {
    && (id in Members(su, events) <==> su.prefix + id in Store(su.snapshot, events))
    && (id in Members(su, events) ==>
          exists value ::
            BornWith(su, events, su.prefix + id, value) && su.decode(value) == Some(Members(su, events)[id]))
  }

  // ---- The cache follows the store ----

  lemma PrefixInjective(p: Bytes, a: NodeId, b: NodeId)
    requires p + a == p + b
    ensures a == b
  {
    assert a == (p + a)[|p|..] && b == (p + b)[|p|..];
  }

  lemma {:induction false} SnapshotKeys(snapshot: seq<Entry>, key: Key)
    ensures key in SnapshotStore(snapshot) <==> exists i :: 0 <= i < |snapshot| && snapshot[i].key == key
    decreases |snapshot|
  {
    if snapshot == [] {
    } else {
      var n := |snapshot| - 1;
      SnapshotKeys(snapshot[..n], key);
      if i :| 0 <= i < |snapshot[..n]| && snapshot[..n][i].key == key { assert snapshot[i].key == key; }
      if i :| 0 <= i < n && snapshot[i].key == key { assert snapshot[..n][i].key == key; }
    }
  }

  ghost predicate SnapshotFollowsFor(su: Setup, id: NodeId) {
    var members, key := LoadSnapshot(Cache(map[], 0, 0, []), su.decode, su.snapshot).members, su.prefix + id;
    && (id in members <==> key in SnapshotStore(su.snapshot))
    && (id in members ==> su.decode(SnapshotStore(su.snapshot)[key]) == Some(members[id]))
  }

  lemma {:induction false} SnapshotFollows(su: Setup, id: NodeId)
    requires ValidSetup(su) && ValidId(su.prefix, id)
    ensures SnapshotFollowsFor(su, id)
    decreases |su.snapshot|
  {
    if su.snapshot == [] {
    } else {
      var n := |su.snapshot| - 1;
      var last, before := su.snapshot[n], su.(snapshot := su.snapshot[..n]);
      assert ValidEntry(su, last.key, last.value);
      assert ValidSetup(before) by {
        forall i | 0 <= i < n ensures ValidEntry(before, su.snapshot[i].key, su.snapshot[i].value) {
          var x :| ValidId(su.prefix, x) && su.snapshot[i].key == su.prefix + x && Names(su, su.snapshot[i].value, x);
          assert Names(before, su.snapshot[i].value, x);
        }
      }
      SnapshotFollows(before, id);
      var x :| ValidId(su.prefix, x) && last.key == su.prefix + x && Names(su, last.value, x);
      if x == id {
        SnapshotKeys(before.snapshot, last.key);
        assert last.key !in SnapshotStore(before.snapshot);
      } else if su.prefix + x == su.prefix + id {
        PrefixInjective(su.prefix, x, id);
      }
    }
  }

  lemma BornPersists(su: Setup, events: seq<Event>, e: Event, key: Key, value: Bytes)
    requires BornWith(su, events, key, value) && e != Delete(key)
    ensures BornWith(su, events + [e], key, value)
  {
    if j :| BornAt(su, events, key, value, j) {
      assert (events + [e])[..j] == events[..j];
      assert BornAt(su, events + [e], key, value, j);
    }
  }

  lemma StoreSnoc(su: Setup, events: seq<Event>, e: Event)
    requires su.prefix != []
    ensures Store(su.snapshot, events + [e]) == StoreEvent(Store(su.snapshot, events), e)
    ensures Members(su, events + [e]) ==
      ReplayEvent(ReplayAll(LoadSnapshot(Cache(map[], 0, 0, []), su.decode, su.snapshot), su.decode, su.prefix, events),
                  su.decode, su.prefix, e).members
  {
    assert (events + [e])[..|events|] == events;
  }

  lemma PutFollows(su: Setup, events: seq<Event>, key: Key, value: Bytes, id: NodeId)
    requires ValidSetup(su) && ValidEntry(su, key, value) && ValidId(su.prefix, id) && FollowsFor(su, events, id)
    ensures FollowsFor(su, events + [Put(key, value)], id)
  {
    var e := Put(key, value);
    StoreSnoc(su, events, e);
    var x :| ValidId(su.prefix, x) && key == su.prefix + x && Names(su, value, x);
    if id in Members(su, events) {
      var v :| BornWith(su, events, su.prefix + id, v) && su.decode(v) == Some(Members(su, events)[id]);
      BornPersists(su, events, e, su.prefix + id, v);
    } else if x == id {
      assert (events + [e])[..|events|] == events;
      assert BornAt(su, events + [e], key, value, |events|);
      assert BornWith(su, events + [e], key, value);
    } else if su.prefix + x == su.prefix + id {
      PrefixInjective(su.prefix, x, id);
    }
  }

  lemma DeleteFollows(su: Setup, events: seq<Event>, key: Key, id: NodeId)
    requires ValidSetup(su) && ValidEvent(su, Delete(key)) && ValidId(su.prefix, id) && FollowsFor(su, events, id)
    ensures FollowsFor(su, events + [Delete(key)], id)
  {
    var e := Delete(key);
    StoreSnoc(su, events, e);
    var x :| ValidId(su.prefix, x) && key == su.prefix + x;
    KeyRoundTrip(su.prefix, x);
    if x != id {
      if su.prefix + x == su.prefix + id { PrefixInjective(su.prefix, x, id); }
      if id in Members(su, events) {
        var v :| BornWith(su, events, su.prefix + id, v) && su.decode(v) == Some(Members(su, events)[id]);
        BornPersists(su, events, e, su.prefix + id, v);
      }
    }
  }

  /** From a snapshot and a contiguous log of well-formed events, the member map holds after every event
      exactly the nodes whose key is in the store, each with the value that began its current lifetime. */
  lemma {:induction false} CacheFollowsLog(su: Setup, events: seq<Event>, id: NodeId)
    requires ValidSetup(su) && ValidEvents(su, events) && ValidId(su.prefix, id)
    ensures FollowsFor(su, events, id)
    decreases |events|
  {
    if events == [] {
      SnapshotFollows(su, id);
      if id in Members(su, events) {
        assert BornWith(su, events, su.prefix + id, SnapshotStore(su.snapshot)[su.prefix + id]);
      }
    } else {
      var before, last := events[..|events| - 1], events[|events| - 1];
      assert events == before + [last] && ValidEvent(su, last);
      assert ValidEvents(su, before) by {
        assert forall i :: 0 <= i < |before| ==> before[i] == events[i];
      }
      CacheFollowsLog(su, before, id);
      match last
      case Put(key, value) => PutFollows(su, before, key, value, id);
      case Delete(key) => DeleteFollows(su, before, key, id);
    }
  }

  lemma {:induction false} StaysStored(su: Setup, events: seq<Event>, key: Key, from: nat, n: nat)
    requires from <= n <= |events| && NoDelete(events, key, from) && key in Store(su.snapshot, events[..from])
    ensures key in Store(su.snapshot, events[..n])
    decreases n
  {
    if from < n {
      StaysStored(su, events, key, from, n - 1);
      assert events[..n][..n - 1] == events[..n - 1];
    }
  }

  lemma StoredAfterPut(su: Setup, events: seq<Event>, key: Key, value: Bytes, j: nat)
    requires j < |events| && events[j] == Put(key, value)
    ensures key in Store(su.snapshot, events[..j + 1])
  {
    assert events[..j + 1][..j] == events[..j];
  }

  /** A lifetime begins only once, so the value the cache shows is determined by the log. */
  lemma BornUnique(su: Setup, events: seq<Event>, key: Key, v: Bytes, w: Bytes)
    requires BornWith(su, events, key, v) && BornWith(su, events, key, w)
    ensures v == w
  {
    assert events[..0] == [];
    if j :| BornAt(su, events, key, v, j) {
      if k :| BornAt(su, events, key, w, k) {
        if j < k {
          StoredAfterPut(su, events, key, v, j);
          StaysStored(su, events, key, j + 1, k);
        } else if k < j {
          StoredAfterPut(su, events, key, w, k);
          StaysStored(su, events, key, k + 1, j);
        }
      } else {
        StaysStored(su, events, key, 0, j);
      }
    } else if k :| BornAt(su, events, key, w, k) {
      StaysStored(su, events, key, 0, k);
    }
  }

  /** A Delete event of a live node's key removes that node exactly when the id does not contain the prefix. */
  lemma DeleteRemovesIff(c: Cache, decode: Bytes -> Option<Member>, prefix: Bytes, id: NodeId)
    requires prefix != [] && id in c.members
    ensures id !in ReplayEvent(c, decode, prefix, Delete(prefix + id)).members <==> !Occurs(id, prefix)
  {
    KeyRoundTrip(prefix, id);
  }

  /** What goes instead is the node named by the id with every occurrence of the prefix cut out of it, and
      no other. */
  lemma DeleteRemoves(c: Cache, decode: Bytes -> Option<Member>, prefix: Bytes, id: NodeId)
    requires prefix != []
    ensures ReplayEvent(c, decode, prefix, Delete(prefix + id)).members == c.members - {RemoveAll(id, prefix)}
    ensures Occurs(id, prefix) ==> RemoveAll(id, prefix) != id
  {
    assert (prefix + id)[..|prefix|] == prefix && (prefix + id)[|prefix|..] == id;
    RemoveAllIdentity(id, prefix);
  }

  /** With an id that is the prefix and another node's id, its deletion leaves it in the cache and evicts
      the other, live one. */
  lemma DeleteEvictsOther(c: Cache, decode: Bytes -> Option<Member>, prefix: Bytes, other: NodeId)
    requires prefix != [] && !Occurs(other, prefix)
    requires other in c.members && prefix + other in c.members
    ensures var c' := ReplayEvent(c, decode, prefix, Delete(prefix + (prefix + other)));
      prefix + other in c'.members && other !in c'.members && c'.members == c.members - {other}
  {
    DeleteRemoves(c, decode, prefix, prefix + other);
    KeyRoundTrip(prefix, other);
    assert |prefix + other| != |other|;
  }

  /** No other id is ever in the member map. */
  lemma {:induction false} OnlyValidMembers(su: Setup, events: seq<Event>, id: NodeId)
    requires ValidSetup(su) && ValidEvents(su, events) && id in Members(su, events)
    ensures ValidId(su.prefix, id)
    decreases |events|
  {
    if events == [] {
      assert su.snapshot[..|su.snapshot|] == su.snapshot;
      SnapshotOnlyValid(su, |su.snapshot|, id);
    } else {
      var before, last := events[..|events| - 1], events[|events| - 1];
      assert ValidEvent(su, last);
      assert ValidEvents(su, before) by {
        assert forall i :: 0 <= i < |before| ==> before[i] == events[i];
      }
      assert events == before + [last];
      StoreSnoc(su, before, last);
      if id in Members(su, before) {
        OnlyValidMembers(su, before, id);
      } else {
        var x :| ValidId(su.prefix, x) && last.key == su.prefix + x && Names(su, last.value, x);
        assert x == id;
      }
    }
  }

  lemma {:induction false} SnapshotOnlyValid(su: Setup, n: nat, id: NodeId)
    requires ValidSetup(su) && n <= |su.snapshot|
    requires id in LoadSnapshot(Cache(map[], 0, 0, []), su.decode, su.snapshot[..n]).members
    ensures ValidId(su.prefix, id)
  {
    var part := su.snapshot[..n];
    if n == 0 {
    } else {
      assert part[..n - 1] == su.snapshot[..n - 1];
      if id in LoadSnapshot(Cache(map[], 0, 0, []), su.decode, part[..n - 1]).members {
        SnapshotOnlyValid(su, n - 1, id);
      } else {
        assert ValidEntry(su, su.snapshot[n - 1].key, su.snapshot[n - 1].value);
      }
    }
  }
}

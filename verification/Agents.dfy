/** agentManager.go: the gate's tables from sid to agent and from uid to sid. */
module Agents {
  import opened Base
  import Runs

  type Sid = Bytes

  datatype BindError = EmptySid | ZeroUid | UnknownSid | AlreadyBound

  // ---- The tables as values ----

  /** The uid of every agent in the sid table (0 while none is bound), and the uid table. */
  datatype Tables = Tables(uidOf: map<Sid, uint64>, uidMap: map<uint64, Sid>)

  const EMPTY_TABLES := Tables(map[], map[])

  function BindSidIn(t: Tables, sid: Sid, uid: uint64): Tables { t.(uidOf := t.uidOf[sid := uid]) }

  /** The old uid of a rebound session stays in the uid table. */
  function BindUidIn(t: Tables, sid: Sid, uid: uint64): Result<Tables, BindError> {
    if sid == [] then Err(EmptySid)
    else if uid < 1 then Err(ZeroUid)
    else if sid !in t.uidOf then Err(UnknownSid)
    else if t.uidOf[sid] > 0 && t.uidOf[sid] == uid then Err(AlreadyBound)
    else Ok(Tables(t.uidOf[sid := uid], t.uidMap[uid := sid]))
  }

  /** The uid entry of the leaving agent goes, whoever it points to by now. */
  function UnbindIn(t: Tables, sid: Sid): Tables {
    if sid !in t.uidOf then t else Tables(t.uidOf - {sid}, t.uidMap - {t.uidOf[sid]})
  }

  function LookupUid(t: Tables, uid: uint64): Option<Sid> {
    if uid < 1 || uid !in t.uidMap || t.uidMap[uid] !in t.uidOf then None else Some(t.uidMap[uid])
  }

  // ---- The source's objects ----

  class Agent {
    const sid: Sid
    var uid: uint64

    constructor (sid: Sid, uid: uint64)
      ensures this.sid == sid && this.uid == uid
    {
      this.sid, this.uid := sid, uid;
    }
  }

  class AgentManager {
    var sidAgentMap: map<Sid, Agent>
    var uidMap: map<uint64, Sid>

    constructor ()
      ensures Valid() && View() == EMPTY_TABLES
    {
      sidAgentMap, uidMap := map[], map[];
    }

    /** Every agent is filed under its own sid, so no two entries share an agent. */
    ghost predicate Valid()
      reads this
    {
      forall sid :: sid in sidAgentMap ==> sidAgentMap[sid].sid == sid
    }

    function View(): Tables
      reads this, sidAgentMap.Values
    {
      Tables(map sid | sid in sidAgentMap :: sidAgentMap[sid].uid, uidMap)
    }

    method BindSID(agent: Agent)
      requires Valid()
      modifies this`sidAgentMap
      ensures Valid() && agent.sid in sidAgentMap && sidAgentMap[agent.sid] == agent
      ensures View() == BindSidIn(old(View()), agent.sid, agent.uid)
    {
      sidAgentMap := sidAgentMap[agent.sid := agent];
    }

    method BindUID(sid: Sid, uid: uint64) returns (r: Option<BindError>)
      requires Valid()
      modifies this`uidMap, sidAgentMap.Values
      ensures Valid() && sidAgentMap == old(sidAgentMap)
      ensures match BindUidIn(old(View()), sid, uid)
              case Err(e) => r == Some(e) && View() == old(View())
              case Ok(t) => r == None && View() == t
    {
      if sid == [] { return Some(EmptySid); }
      if uid < 1 { return Some(ZeroUid); }
      if sid !in sidAgentMap { return Some(UnknownSid); }
      var agent := sidAgentMap[sid];
      if agent.uid > 0 && agent.uid == uid { return Some(AlreadyBound); }
      assert forall s :: s in sidAgentMap && s != sid ==> sidAgentMap[s] != agent;
      agent.uid := uid;
      uidMap := uidMap[uid := sid];
      r := None;
    }

    method Unbind(sid: Sid)
      requires Valid()
      modifies this
      ensures Valid() && sidAgentMap == old(sidAgentMap) - {sid}
      ensures View() == UnbindIn(old(View()), sid)
    {
      if sid !in sidAgentMap { return; }
      var agent := sidAgentMap[sid];
      sidAgentMap := sidAgentMap - {sid};
      uidMap := uidMap - {agent.uid};
    }

    method GetAgent(sid: Sid) returns (r: Option<Agent>)
      requires Valid()
      ensures r.Some? <==> sid in sidAgentMap
      ensures r.Some? ==> r.value == sidAgentMap[sid] && r.value.sid == sid
    {
      if sid !in sidAgentMap { return None; }
      r := Some(sidAgentMap[sid]);
    }

    method GetAgentWithUID(uid: uint64) returns (r: Option<Agent>)
      requires Valid()
      ensures r.Some? <==> LookupUid(View(), uid).Some?
      ensures r.Some? ==> r.value.sid == LookupUid(View(), uid).value && sidAgentMap[r.value.sid] == r.value
    {
      if uid < 1 { return None; }
      if uid !in uidMap { return None; }
      var sid := uidMap[uid];
      if sid !in sidAgentMap { return None; }
      r := Some(sidAgentMap[sid]);
    }
  }

  // ---- Soundness and completeness ----

  /** Every uid entry points to a live agent that has this uid. */
  ghost predicate Sound(t: Tables) {
    && 0 !in t.uidMap
    && forall u :: u in t.uidMap ==> t.uidMap[u] in t.uidOf && t.uidOf[t.uidMap[u]] == u
  }

  /** For every uid that a live agent has, some agent is found. */
  ghost predicate Found(t: Tables) {
    forall sid :: sid in t.uidOf && t.uidOf[sid] > 0 ==> LookupUid(t, t.uidOf[sid]).Some?
  }

  /** The agents bound to a uid are found under it. */
  ghost predicate Complete(t: Tables) {
    forall sid :: sid in t.uidOf && t.uidOf[sid] > 0 ==> t.uidOf[sid] in t.uidMap && t.uidMap[t.uidOf[sid]] == sid
  }

  /** Which binds succeed, whoever has the uid by now: all but to no sid, to uid 0, to an unknown session,
      and of a session to the uid it has; and what a bind changes. */
  lemma BindUidOkIff(t: Tables, sid: Sid, uid: uint64)
    ensures var r := BindUidIn(t, sid, uid);
      && (r.Ok? <==> sid != [] && uid >= 1 && sid in t.uidOf && t.uidOf[sid] != uid)
      && (r.Ok? ==>
            && r.value.uidOf.Keys == t.uidOf.Keys && r.value.uidMap.Keys == t.uidMap.Keys + {uid}
            && (forall s :: s in t.uidOf ==> r.value.uidOf[s] == if s == sid then uid else t.uidOf[s])
            && (forall u :: u in t.uidMap && u != uid ==> r.value.uidMap[u] == t.uidMap[u])
            && LookupUid(r.value, uid) == Some(sid))
  {
  }

  /** A bind leaves the tables sound exactly when the session had no uid yet, or the entry of its old
      uid already belongs to somebody else. */
  lemma BindUidSoundIff(t: Tables, sid: Sid, uid: uint64)
    requires Sound(t) && BindUidIn(t, sid, uid).Ok?
    ensures Sound(BindUidIn(t, sid, uid).value) <==>
      (t.uidOf[sid] == 0 || LookupUid(t, t.uidOf[sid]) != Some(sid))
  {
    var t' := BindUidIn(t, sid, uid).value;
    if t.uidOf[sid] != 0 && LookupUid(t, t.uidOf[sid]) == Some(sid) {
      assert t.uidOf[sid] in t'.uidMap && t'.uidMap[t.uidOf[sid]] == sid && t'.uidOf[sid] == uid;
    } else {
      forall u | u in t'.uidMap ensures t'.uidMap[u] in t'.uidOf && t'.uidOf[t'.uidMap[u]] == u {
        if u != uid { assert t.uidMap[u] != sid; }
      }
    }
  }

  /** A bind keeps every bound agent findable exactly when no other live session has the uid, whether
      the session had a uid before or not. */
  lemma BindUidCompleteIff(t: Tables, sid: Sid, uid: uint64)
    requires Complete(t) && BindUidIn(t, sid, uid).Ok?
    ensures Complete(BindUidIn(t, sid, uid).value) <==>
      forall other :: other in t.uidOf && other != sid ==> t.uidOf[other] != uid
  {
    var t' := BindUidIn(t, sid, uid).value;
    if other :| other in t.uidOf && other != sid && t.uidOf[other] == uid {
      assert t'.uidOf[other] == uid && t'.uidMap[uid] != other;
    } else {
      forall s | s in t'.uidOf && t'.uidOf[s] > 0 ensures t'.uidOf[s] in t'.uidMap && t'.uidMap[t'.uidOf[s]] == s {
        if s != sid { assert t.uidOf[s] != uid; }
      }
    }
  }

  /** Leaving keeps the tables sound; what it takes from the lookups is the uid of the leaver, even
      where a later session had taken that uid over. */
  lemma UnbindEffect(t: Tables, sid: Sid, uid: uint64)
    requires Sound(t) && sid in t.uidOf
    ensures Sound(UnbindIn(t, sid))
    ensures LookupUid(UnbindIn(t, sid), uid) == if uid == t.uidOf[sid] then None else LookupUid(t, uid)
  {
    var t' := UnbindIn(t, sid);
    forall u | u in t'.uidMap ensures t'.uidMap[u] in t'.uidOf && t'.uidOf[t'.uidMap[u]] == u {
      assert t.uidMap[u] != sid;
    }
  }

  lemma UnbindKeepsComplete(t: Tables, sid: Sid)
    requires Complete(t)
    ensures Complete(UnbindIn(t, sid))
  {
    var t' := UnbindIn(t, sid);
    forall s | s in t'.uidOf && t'.uidOf[s] > 0 ensures t'.uidOf[s] in t'.uidMap && t'.uidMap[t'.uidOf[s]] == s {
      assert sid in t.uidOf && s != sid ==> t.uidOf[s] != t.uidOf[sid];
    }
  }

  lemma BindSidKeepsFound(t: Tables, sid: Sid)
    requires Found(t)
    ensures Found(BindSidIn(t, sid, 0))
  {
    var t' := BindSidIn(t, sid, 0);
    forall s | s in t'.uidOf && t'.uidOf[s] > 0 ensures LookupUid(t', t'.uidOf[s]).Some? {
      assert LookupUid(t, t.uidOf[s]).Some?;
    }
  }

  lemma BindUidKeepsFound(t: Tables, sid: Sid, uid: uint64)
    requires Found(t) && BindUidIn(t, sid, uid).Ok?
    ensures Found(BindUidIn(t, sid, uid).value)
  {
    var t' := BindUidIn(t, sid, uid).value;
    forall s | s in t'.uidOf && t'.uidOf[s] > 0 ensures LookupUid(t', t'.uidOf[s]).Some? {
      if t'.uidOf[s] != uid { assert LookupUid(t, t.uidOf[s]).Some?; }
    }
  }

  /** No other live session has the uid of this one, or a uid under which this one is found. */
  ghost predicate LeavesNobody(t: Tables, sid: Sid) {
    sid in t.uidOf ==> forall other :: other in t.uidOf && other != sid && t.uidOf[other] > 0 ==>
      t.uidOf[other] != t.uidOf[sid] && LookupUid(t, t.uidOf[other]) != Some(sid)
  }

  /** Leaving keeps the uids of all others findable exactly when none of them hangs on an entry that goes,
      or that points to the leaver. */
  lemma UnbindFoundIff(t: Tables, sid: Sid)
    requires Found(t)
    ensures Found(UnbindIn(t, sid)) <==> LeavesNobody(t, sid)
  {
    var t' := UnbindIn(t, sid);
    if sid in t.uidOf {
      forall other | other in t'.uidOf && t'.uidOf[other] > 0
        ensures LookupUid(t', t'.uidOf[other]).Some?
           <==> t.uidOf[other] != t.uidOf[sid] && LookupUid(t, t.uidOf[other]) != Some(sid)
      {
        assert LookupUid(t, t.uidOf[other]).Some?;
      }
    }
  }

  // ---- Whole runs ----

  datatype Op =
    | OpBindSid(sid: Sid)
    | OpBindUid(sid: Sid, uid: uint64)
    | OpUnbind(sid: Sid)

  /** The tables and the sids ever handed out; a new connection gets a sid never used before. */
  datatype History = History(tables: Tables, used: set<Sid>)

  function Apply(h: History, op: Op): Option<History> {
    match op
    case OpBindSid(sid) =>
      if sid == [] || sid in h.used then None
      else Some(History(BindSidIn(h.tables, sid, 0), h.used + {sid}))
    case OpBindUid(sid, uid) =>
      (match BindUidIn(h.tables, sid, uid)
       case Err(_) => Some(h)
       case Ok(t) => Some(h.(tables := t)))
    case OpUnbind(sid) => Some(h.(tables := UnbindIn(h.tables, sid)))
  }

  /** Every call returns; a failed bind changes nothing, and a new connection needs a new sid. */
  lemma CallsReturn(h: History, op: Op)
    ensures Apply(h, op).Some? <==> (op.OpBindSid? ==> op.sid != [] && op.sid !in h.used)
    ensures op.OpBindUid? && BindUidIn(h.tables, op.sid, op.uid).Err? ==> Apply(h, op) == Some(h)
  {
  }

  const START := History(EMPTY_TABLES, {})

  function Replay(h: History, ops: seq<Op>): Option<History> { Runs.Run(Apply, h, ops) }

  /** A bind that succeeds leaves no entry of the session's old uid behind. */
  predicate CleanBind(t: Tables, op: Op) {
    op.OpBindUid? && BindUidIn(t, op.sid, op.uid).Ok? ==>
      t.uidOf[op.sid] == 0 || LookupUid(t, t.uidOf[op.sid]) != Some(op.sid)
  }

  /** A bind that succeeds takes its uid from no other live session. */
  ghost predicate NoTakeover(t: Tables, op: Op) {
    op.OpBindUid? && BindUidIn(t, op.sid, op.uid).Ok? ==>
      forall other :: other in t.uidOf && other != op.sid ==> t.uidOf[other] != op.uid
  }

  /** A session leaves without taking the uid of another from the lookups. */
  ghost predicate CleanLeave(t: Tables, op: Op) { op.OpUnbind? ==> LeavesNobody(t, op.sid) }

  /** Every operation of the run meets the guard where it is made. */
  ghost predicate AllOps(h: History, ops: seq<Op>, guard: (Tables, Op) -> bool)
    decreases |ops|
  {
    ops == [] ||
    (guard(h.tables, ops[0]) && (Apply(h, ops[0]).Some? ==> AllOps(Apply(h, ops[0]).value, ops[1..], guard)))
  }

  /** p holds of the tables before, between and after the operations. */
  ghost predicate Always(h: History, ops: seq<Op>, p: Tables -> bool)
    decreases |ops|
  {
    && p(h.tables)
    && (ops != [] && Apply(h, ops[0]).Some? ==> Always(Apply(h, ops[0]).value, ops[1..], p))
  }

  predicate UsedInv(h: History) { h.tables.uidOf.Keys <= h.used }

  lemma StepSoundIff(h: History, op: Op)
    requires UsedInv(h) && Sound(h.tables) && Apply(h, op).Some?
    ensures UsedInv(Apply(h, op).value)
    ensures Sound(Apply(h, op).value.tables) <==> CleanBind(h.tables, op)
  {
    match op
    case OpBindSid(sid) => assert sid !in h.tables.uidOf;
    case OpBindUid(sid, uid) => if BindUidIn(h.tables, sid, uid).Ok? { BindUidSoundIff(h.tables, sid, uid); }
    case OpUnbind(sid) => if sid in h.tables.uidOf { UnbindEffect(h.tables, sid, 0); }
  }

  lemma StepCompleteIff(h: History, op: Op)
    requires UsedInv(h) && Complete(h.tables) && Apply(h, op).Some?
    ensures UsedInv(Apply(h, op).value)
    ensures Complete(Apply(h, op).value.tables) <==> NoTakeover(h.tables, op)
  {
    match op
    case OpBindSid(sid) => assert sid !in h.tables.uidOf;
    case OpBindUid(sid, uid) => if BindUidIn(h.tables, sid, uid).Ok? { BindUidCompleteIff(h.tables, sid, uid); }
    case OpUnbind(sid) => UnbindKeepsComplete(h.tables, sid);
  }

  lemma StepFoundIff(h: History, op: Op)
    requires UsedInv(h) && Found(h.tables) && Apply(h, op).Some?
    ensures UsedInv(Apply(h, op).value)
    ensures Found(Apply(h, op).value.tables) <==> CleanLeave(h.tables, op)
  {
    match op
    case OpBindSid(sid) => BindSidKeepsFound(h.tables, sid);
    case OpBindUid(sid, uid) => if BindUidIn(h.tables, sid, uid).Ok? { BindUidKeepsFound(h.tables, sid, uid); }
    case OpUnbind(sid) => UnbindFoundIff(h.tables, sid);
  }

  /** With sids never reused, the uid table stays sound throughout a run, takeovers included, exactly
      when no bind in it leaves an old uid of its session behind. */
  lemma {:induction false} SoundThroughoutIff(h: History, ops: seq<Op>)
    requires UsedInv(h) && Sound(h.tables) && Replay(h, ops).Some?
    ensures Always(h, ops, Sound) <==> AllOps(h, ops, CleanBind)
    decreases |ops|
  {
    hide UsedInv, Sound, Apply, CleanBind;
    if ops == [] {
    } else {
      StepSoundIff(h, ops[0]);
      if CleanBind(h.tables, ops[0]) { SoundThroughoutIff(Apply(h, ops[0]).value, ops[1..]); }
      else { assert !Always(Apply(h, ops[0]).value, ops[1..], Sound); }
    }
  }

  /** Every bound agent stays findable throughout a run, rebinding included, exactly when no bind in it
      takes the uid of another live session. */
  lemma {:induction false} CompleteThroughoutIff(h: History, ops: seq<Op>)
    requires UsedInv(h) && Complete(h.tables) && Replay(h, ops).Some?
    ensures Always(h, ops, Complete) <==> AllOps(h, ops, NoTakeover)
    decreases |ops|
  {
    hide UsedInv, Complete, Apply, NoTakeover;
    if ops == [] {
    } else {
      StepCompleteIff(h, ops[0]);
      if NoTakeover(h.tables, ops[0]) { CompleteThroughoutIff(Apply(h, ops[0]).value, ops[1..]); }
      else { assert !Always(Apply(h, ops[0]).value, ops[1..], Complete); }
    }
  }

  /** Some agent is found for every uid that a live one has, throughout a run, takeovers and rebinding
      included, exactly when no session leaves while another one's lookup hangs on it. */
  lemma {:induction false} FoundThroughoutIff(h: History, ops: seq<Op>)
    requires UsedInv(h) && Found(h.tables) && Replay(h, ops).Some?
    ensures Always(h, ops, Found) <==> AllOps(h, ops, CleanLeave)
    decreases |ops|
  {
    hide UsedInv, Found, Apply, CleanLeave;
    if ops == [] {
    } else {
      StepFoundIff(h, ops[0]);
      if CleanLeave(h.tables, ops[0]) { FoundThroughoutIff(Apply(h, ops[0]).value, ops[1..]); }
      else { assert !Always(Apply(h, ops[0]).value, ops[1..], Found); }
    }
  }

  lemma {:induction false} AlwaysAtEnd(h: History, ops: seq<Op>, p: Tables -> bool)
    requires Always(h, ops, p) && Replay(h, ops).Some?
    ensures p(Replay(h, ops).value.tables)
    decreases |ops|
  {
    if ops == [] {
    } else {
      AlwaysAtEnd(Apply(h, ops[0]).value, ops[1..], p);
    }
  }

  /** The lookup by uid after any run from empty tables: never wrong if no bind left an old uid behind,
      never failing for the uid of a live agent if every leave was clean, and giving this very agent if no
      bind took a uid over. */
  lemma LookupOverRuns(ops: seq<Op>, uid: uint64)
    requires Replay(START, ops).Some?
    ensures var t := Replay(START, ops).value.tables; AllOps(START, ops, CleanBind) && LookupUid(t, uid).Some? ==>
      LookupUid(t, uid).value in t.uidOf && t.uidOf[LookupUid(t, uid).value] == uid
    ensures var t := Replay(START, ops).value.tables; AllOps(START, ops, CleanLeave) && uid > 0 ==>
      forall sid :: sid in t.uidOf && t.uidOf[sid] == uid ==> LookupUid(t, uid).Some?
    ensures var t := Replay(START, ops).value.tables; AllOps(START, ops, NoTakeover) && uid > 0 ==>
      forall sid :: sid in t.uidOf && t.uidOf[sid] == uid ==> LookupUid(t, uid) == Some(sid)
  {
    hide Replay, AllOps, Always;
    if AllOps(START, ops, CleanBind) {
      SoundThroughoutIff(START, ops);
      AlwaysAtEnd(START, ops, Sound);
    }
    if AllOps(START, ops, CleanLeave) {
      FoundThroughoutIff(START, ops);
      AlwaysAtEnd(START, ops, Found);
    }
    if AllOps(START, ops, NoTakeover) {
      CompleteThroughoutIff(START, ops);
      AlwaysAtEnd(START, ops, Complete);
    }
  }

  /** The sid was handed out, and is not bound. */
  predicate Unbound(h: History, sid: Sid) { sid in h.used && sid !in h.tables.uidOf }

  lemma StaysUnbound(h: History, op: Op, sid: Sid)
    requires Unbound(h, sid) && Apply(h, op).Some?
    ensures Unbound(Apply(h, op).value, sid)
  {
  }

  /** Once a sid has been unbound it never comes back: no later bind of a uid to it succeeds, whatever
      is done in between. */
  lemma UnboundForGood(h: History, ops: seq<Op>, sid: Sid, uid: uint64)
    requires Unbound(h, sid) && Replay(h, ops).Some?
    ensures BindUidIn(Replay(h, ops).value.tables, sid, uid).Err?
  {
    hide Apply;
    var kept := (x: History) => Unbound(x, sid);
    forall x, op | kept(x) && Apply(x, op).Some? ensures kept(Apply(x, op).value) { StaysUnbound(x, op, sid); }
    Runs.RunKeeps(Apply, kept, h, ops);
  }

  /** A takeover followed by the first session leaving: a live session has uid 7 and is not found. */
  lemma TakeoverLosesUid(a: Sid, b: Sid)
    requires a != b && a != [] && b != []
    ensures var ops := [OpBindSid(a), OpBindSid(b), OpBindUid(a, 7), OpBindUid(b, 7), OpUnbind(a)];
      var h := Replay(START, ops);
      h.Some? && b in h.value.tables.uidOf && h.value.tables.uidOf[b] == 7 && LookupUid(h.value.tables, 7) == None
  {
    var ops := [OpBindSid(a), OpBindSid(b), OpBindUid(a, 7), OpBindUid(b, 7), OpUnbind(a)];
    var h1 := Apply(START, ops[0]).value;
    var h2 := Apply(h1, ops[1]).value;
    var h3 := Apply(h2, ops[2]).value;
    var h4 := Apply(h3, ops[3]).value;
    var h5 := Apply(h4, ops[4]).value;
    assert Replay(h4, ops[4..]) == Some(h5) by { assert ops[4..][1..] == [] && Replay(h5, []) == Some(h5); }
    assert ops[3..][1..] == ops[4..] && ops[2..][1..] == ops[3..] && ops[1..][1..] == ops[2..];
    assert Replay(h3, ops[3..]) == Some(h5);
    assert Replay(h2, ops[2..]) == Some(h5);
    assert Replay(h1, ops[1..]) == Some(h5);
  }

  /** A session bound to 7 and then to 8 is still found under 7, which it no longer has. */
  lemma RebindLeavesStale(a: Sid)
    requires a != []
    ensures var ops := [OpBindSid(a), OpBindUid(a, 7), OpBindUid(a, 8)];
      var h := Replay(START, ops);
      h.Some? && LookupUid(h.value.tables, 7) == Some(a) && h.value.tables.uidOf[a] == 8
  {
    var ops := [OpBindSid(a), OpBindUid(a, 7), OpBindUid(a, 8)];
    var h1 := Apply(START, ops[0]).value;
    var h2 := Apply(h1, ops[1]).value;
    var h3 := Apply(h2, ops[2]).value;
    assert Replay(h2, ops[2..]) == Some(h3) by { assert ops[2..][1..] == [] && Replay(h3, []) == Some(h3); }
    assert ops[1..][1..] == ops[2..];
    assert Replay(h1, ops[1..]) == Some(h3);
  }
}

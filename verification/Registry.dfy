/** Protobuf messages as the framework sees them: a type with a full name, and a payload that the
    generated code can marshal and unmarshal. */
module Messages {
  import opened Base

  /** A registered Go message type; impl tells apart two Go types with the same full name. */
  datatype MessageType = MessageType(fullName: Bytes, impl: nat)

  type Payload(==, !new)

  datatype Message = Message(typ: MessageType, payload: Payload)

  /** The library code behind the registry: CRC-32 of a name, and the marshalling of user payloads. */
  datatype Schema = Schema(
    checksum: Bytes -> uint32,
    marshal: Message -> Option<Bytes>,
    unmarshal: (MessageType, Bytes) -> Option<Message>)

  /** Unmarshalling inverts marshalling, keeps the type asked for, and yields only messages that marshal again. */
  ghost predicate Lawful(schema: Schema) {
    && (forall m: Message :: schema.marshal(m).Some? ==> schema.unmarshal(m.typ, schema.marshal(m).value) == Some(m))
    && (forall t: MessageType, b: Bytes :: schema.unmarshal(t, b).Some? ==>
          schema.unmarshal(t, b).value.typ == t && schema.marshal(schema.unmarshal(t, b).value).Some?)
  }
}

/** hash.go: the three global maps between message ids, types and names. */
module HashRegistry {
  import opened Base
  import opened Messages

  datatype Maps = Maps(
    id2type: map<uint32, MessageType>, type2id: map<MessageType, uint32>, id2name: map<uint32, Bytes>)

  const EMPTY_MAPS := Maps(map[], map[], map[])

  /** A first registration adds the type to all three maps; a checksum owned by another type panics
      and leaves them as they were. */
  function RegisterStep(schema: Schema, m: Maps, t: MessageType): (r: (Maps, Result<uint32, Error>)) {
    var id := schema.checksum(t.fullName);
    if id in m.id2type then (m, if m.id2type[id] == t then Ok(id) else Err(HashCollision))
    else (Maps(m.id2type[id := t], m.type2id[t := id], m.id2name[id := t.fullName]), Ok(id))
  }

  /** Marshalling registers the type on first use, so it may change the maps too. */
  function MarshalStep(schema: Schema, m: Maps, msg: Message): (Maps, Result<(uint32, Bytes), Error>) {
    var (m', id) := if msg.typ in m.type2id then (m, Ok(m.type2id[msg.typ])) else RegisterStep(schema, m, msg.typ);
    match id
    case Err(e) => (m', Err(e))
    case Ok(n) =>
      match schema.marshal(msg)
      case None => (m', Err(MarshalFailed))
      case Some(raw) => (m', Ok((n, raw)))
  }

  function UnmarshalById(schema: Schema, m: Maps, id: uint32, data: Bytes): Result<Message, Error> {
    if id !in m.id2type then Err(NotRegistered(id))
    else
      match schema.unmarshal(m.id2type[id], data)
      case None => Err(PayloadMalformed)
      case Some(msg) => Ok(msg)
  }

  class Registry {
    const schema: Schema
    var id2type: map<uint32, MessageType>
    var type2id: map<MessageType, uint32>
    var id2name: map<uint32, Bytes>

    function View(): Maps
      reads this
    {
      Maps(id2type, type2id, id2name)
    }

    constructor (schema: Schema)
      ensures this.schema == schema && View() == EMPTY_MAPS && Consistent(schema, View())
    {
      this.schema := schema;
      id2type, type2id, id2name := map[], map[], map[];
    }

    method RegisterMessage(t: Option<MessageType>) returns (r: Result<uint32, Error>)
      modifies this
      ensures t.None? ==> r == Err(NilMessage) && View() == old(View())
      ensures t.Some? ==> (View(), r) == RegisterStep(schema, old(View()), t.value)
      ensures old(Consistent(schema, View())) ==> Consistent(schema, View())
    {
      if t.None? { return Err(NilMessage); }
      ghost var before := View();
      var id := schema.checksum(t.value.fullName);
      if id in id2type {
        if id2type[id] != t.value { return Err(HashCollision); }
        return Ok(id);
      }
      id2type := id2type[id := t.value];
      type2id := type2id[t.value := id];
      id2name := id2name[id := t.value.fullName];
      if Consistent(schema, before) { RegisterKeepsConsistent(schema, before, t.value); }
      return Ok(id);
    }

    method OnMarshal(msg: Message) returns (r: Result<(uint32, Bytes), Error>)
      modifies this
      ensures (View(), r) == MarshalStep(schema, old(View()), msg)
      ensures old(Consistent(schema, View())) ==> Consistent(schema, View())
    {
      var id;
      if msg.typ in type2id {
        id := type2id[msg.typ];
      } else {
        var registered := RegisterMessage(Some(msg.typ));
        if registered.Err? { return Err(registered.error); }
        id := registered.value;
      }
      match schema.marshal(msg)
      case None => return Err(MarshalFailed);
      case Some(raw) => return Ok((id, raw));
    }

    method OnUnmarshal(id: uint32, data: Bytes) returns (r: Result<Message, Error>)
      ensures r == UnmarshalById(schema, View(), id, data)
    {
      if id !in id2type { return Err(NotRegistered(id)); }
      match schema.unmarshal(id2type[id], data)
      case None => return Err(PayloadMalformed);
      case Some(msg) => return Ok(msg);
    }
  }

  /** id2type and type2id are inverse, ids are checksums of the stored names, and the key sets agree. */
  ghost predicate Consistent(schema: Schema, m: Maps) {
    && (forall id :: id in m.id2type ==>
          && m.id2type[id] in m.type2id && m.type2id[m.id2type[id]] == id
          && id in m.id2name && m.id2name[id] == m.id2type[id].fullName)
    && (forall t :: t in m.type2id ==>
          && m.type2id[t] in m.id2type && m.id2type[m.type2id[t]] == t
          && m.type2id[t] == schema.checksum(t.fullName))
    && m.id2name.Keys == m.id2type.Keys
  }

  lemma RegisterKeepsConsistent(schema: Schema, m: Maps, t: MessageType)
    requires Consistent(schema, m)
    ensures Consistent(schema, RegisterStep(schema, m, t).0)
  {
    var id := schema.checksum(t.fullName);
    if id !in m.id2type {
      assert t !in m.type2id;
      var m' := RegisterStep(schema, m, t).0;
      assert m'.id2name.Keys == m.id2name.Keys + {id} && m'.id2type.Keys == m.id2type.Keys + {id};
    }
  }

  /** On consistent maps a marshal does to them exactly what a registration of its type does. */
  lemma MarshalIsRegister(schema: Schema, m: Maps, msg: Message)
    requires Consistent(schema, m)
    ensures MarshalStep(schema, m, msg).0 == RegisterStep(schema, m, msg.typ).0
    ensures MarshalStep(schema, m, msg).1.Ok? <==>
      RegisterStep(schema, m, msg.typ).1.Ok? && schema.marshal(msg).Some?
    ensures MarshalStep(schema, m, msg).1.Ok? ==>
      MarshalStep(schema, m, msg).1.value == (schema.checksum(msg.typ.fullName), schema.marshal(msg).value)
  {
  }

  // ---- Whole runs ----

  /** The maps after registering ts in order; a registration that panics changes nothing. */
  function RegisterAll(schema: Schema, m: Maps, ts: seq<MessageType>): Maps
    decreases |ts|
  {
    if ts == [] then m else RegisterAll(schema, RegisterStep(schema, m, ts[0]).0, ts[1..])
  }

  predicate AllSucceed(schema: Schema, m: Maps, ts: seq<MessageType>)
    decreases |ts|
  {
    ts == [] ||
    var (m', r) := RegisterStep(schema, m, ts[0]);
    r.Ok? && AllSucceed(schema, m', ts[1..])
  }

  ghost predicate NoCollision(schema: Schema, types: set<MessageType>) {
    forall t, u :: t in types && u in types && schema.checksum(t.fullName) == schema.checksum(u.fullName) ==> t == u
  }

  function Types(ts: seq<MessageType>): set<MessageType> { set t | t in ts }

  /** The invariant holds after any registrations, panicking ones included. */
  lemma {:induction false} RunKeepsConsistent(schema: Schema, m: Maps, ts: seq<MessageType>)
    requires Consistent(schema, m)
    ensures Consistent(schema, RegisterAll(schema, m, ts))
    decreases |ts|
  {
    if ts == [] {
    } else {
      RegisterKeepsConsistent(schema, m, ts[0]);
      RunKeepsConsistent(schema, RegisterStep(schema, m, ts[0]).0, ts[1..]);
    }
  }

  /** Registration never panics exactly when no two of the types share a checksum, and then the
      registered types are the old ones and all of ts. */
  lemma {:induction false} SucceedIffNoCollision(schema: Schema, m: Maps, ts: seq<MessageType>)
    requires Consistent(schema, m)
    ensures AllSucceed(schema, m, ts) <==> NoCollision(schema, m.type2id.Keys + Types(ts))
    ensures AllSucceed(schema, m, ts) ==> RegisterAll(schema, m, ts).type2id.Keys == m.type2id.Keys + Types(ts)
    decreases |ts|
  {
    if ts == [] {
      assert m.type2id.Keys + Types(ts) == m.type2id.Keys;
    } else {
      var t := ts[0];
      var (m', r) := RegisterStep(schema, m, t);
      RegisterKeepsConsistent(schema, m, t);
      assert Types(ts) == {t} + Types(ts[1..]);
      if r.Ok? {
        assert m'.type2id.Keys + Types(ts[1..]) == m.type2id.Keys + Types(ts);
        SucceedIffNoCollision(schema, m', ts[1..]);
      } else {
        var u := m.id2type[schema.checksum(t.fullName)];
        assert u in m.type2id && t in Types(ts) && u != t;
      }
    }
  }

  /** Consistent maps are determined by the set of types they hold. */
  lemma ConsistentDetermined(schema: Schema, m: Maps, n: Maps)
    requires Consistent(schema, m) && Consistent(schema, n) && m.type2id.Keys == n.type2id.Keys
    ensures m == n
  {
    assert m.type2id == n.type2id;
    forall id ensures id in m.id2type <==> id in n.id2type {
      if id in m.id2type { assert n.id2type[n.type2id[m.id2type[id]]] == m.id2type[id]; }
      if id in n.id2type { assert m.id2type[m.type2id[n.id2type[id]]] == n.id2type[id]; }
    }
    forall id | id in m.id2type ensures m.id2type[id] == n.id2type[id] && m.id2name[id] == n.id2name[id] {
      assert n.id2type[n.type2id[m.id2type[id]]] == m.id2type[id];
    }
    assert m.id2type == n.id2type && m.id2name.Keys == n.id2name.Keys;
    assert m.id2name == n.id2name;
  }

  /** Two processes that register the same types in any order, without a panic, hold the same maps. */
  lemma OrderIrrelevant(schema: Schema, ts: seq<MessageType>, us: seq<MessageType>)
    requires AllSucceed(schema, EMPTY_MAPS, ts) && AllSucceed(schema, EMPTY_MAPS, us) && Types(ts) == Types(us)
    ensures RegisterAll(schema, EMPTY_MAPS, ts) == RegisterAll(schema, EMPTY_MAPS, us)
  {
    RunKeepsConsistent(schema, EMPTY_MAPS, ts);
    RunKeepsConsistent(schema, EMPTY_MAPS, us);
    SucceedIffNoCollision(schema, EMPTY_MAPS, ts);
    SucceedIffNoCollision(schema, EMPTY_MAPS, us);
    ConsistentDetermined(schema, RegisterAll(schema, EMPTY_MAPS, ts), RegisterAll(schema, EMPTY_MAPS, us));
  }

  ghost predicate AgreeOnNames(m: Maps, n: Maps) {
    forall id :: id in m.id2name && id in n.id2name ==> m.id2name[id] == n.id2name[id]
  }

  ghost predicate NamesApart(schema: Schema, ts: set<MessageType>, us: set<MessageType>) {
    forall t, u :: t in ts && u in us && schema.checksum(t.fullName) == schema.checksum(u.fullName) ==>
      t.fullName == u.fullName
  }

  /** Two processes that registered ts and us give every common id the same name exactly when the
      checksum separates the names in ts from the different names in us. */
  lemma ProcessesAgree(schema: Schema, ts: seq<MessageType>, us: seq<MessageType>)
    requires AllSucceed(schema, EMPTY_MAPS, ts) && AllSucceed(schema, EMPTY_MAPS, us)
    ensures AgreeOnNames(RegisterAll(schema, EMPTY_MAPS, ts), RegisterAll(schema, EMPTY_MAPS, us))
        <==> NamesApart(schema, Types(ts), Types(us))
  {
    RunKeepsConsistent(schema, EMPTY_MAPS, ts);
    RunKeepsConsistent(schema, EMPTY_MAPS, us);
    SucceedIffNoCollision(schema, EMPTY_MAPS, ts);
    SucceedIffNoCollision(schema, EMPTY_MAPS, us);
    var m, n := RegisterAll(schema, EMPTY_MAPS, ts), RegisterAll(schema, EMPTY_MAPS, us);
    if AgreeOnNames(m, n) {
      forall t, u | t in Types(ts) && u in Types(us) && schema.checksum(t.fullName) == schema.checksum(u.fullName)
        ensures t.fullName == u.fullName
      {
        assert t in m.type2id.Keys && u in n.type2id.Keys;
        assert m.type2id[t] in m.id2type && n.type2id[u] in n.id2type;
      }
    }
    if NamesApart(schema, Types(ts), Types(us)) {
      forall id | id in m.id2name && id in n.id2name ensures m.id2name[id] == n.id2name[id] {
        assert id in m.id2type && id in n.id2type;
        assert m.id2type[id] in m.type2id.Keys && n.id2type[id] in n.type2id.Keys;
      }
    }
  }
}

/** msg_handler.go: which handler a received message goes to. */
module MsgHandler {
  import opened Base
  import opened Messages
  import opened HashRegistry

  datatype Kind = Listen | Response | Default

  function KindOf(reqHandlers: map<uint32, Kind>, route: uint32): Kind {
    if route in reqHandlers then reqHandlers[route] else Default
  }

  /** A call of RegisterResponse with a message of this type, or of ListenMsg with a handler for it. */
  datatype Registration = Registration(typ: MessageType, response: bool)

  function KindFor(r: Registration): Kind { if r.response then Response else Listen }

  /** The registry's maps, and the kind of handler held under each id. */
  datatype Handlers = Handlers(maps: Maps, kinds: map<uint32, Kind>)

  const NO_HANDLERS := Handlers(EMPTY_MAPS, map[])

  /** A type whose checksum belongs to another one panics and leaves everything as it was. */
  function AddHandler(schema: Schema, h: Handlers, r: Registration): Handlers {
    var (maps, id) := RegisterStep(schema, h.maps, r.typ);
    match id
    case Err(_) => h
    case Ok(n) => Handlers(maps, h.kinds[n := KindFor(r)])
  }

  class MessageHandlerMgr {
    const registry: Registry
    var reqHandlers: map<uint32, Kind>

    function View(): Handlers
      reads this, registry
    {
      Handlers(registry.View(), reqHandlers)
    }

    constructor (registry: Registry)
      ensures this.registry == registry && reqHandlers == map[]
    {
      this.registry, reqHandlers := registry, map[];
    }

    /** ListenMsg and RegisterResponse differ in the handler they store; false stands for the panic. */
    method Register(r: Registration) returns (ok: bool)
      modifies this`reqHandlers, registry
      ensures View() == AddHandler(registry.schema, old(View()), r)
      ensures ok <==> RegisterStep(registry.schema, old(registry.View()), r.typ).1.Ok?
    {
      var id := registry.RegisterMessage(Some(r.typ));
      if id.Err? { return false; }
      reqHandlers := reqHandlers[id.value := KindFor(r)];
      return true;
    }

    /** After the registrations rs: the default handler exactly when none of them has the route, otherwise
        that of the last one that did not panic. */
    method Dispatch(route: uint32, ghost rs: seq<Registration>) returns (k: Kind)
      requires View() == AddAll(registry.schema, rs)
      ensures k == Default <==> forall i :: 0 <= i < |rs| ==> IdOf(registry.schema, rs[i]) != route
      ensures forall i :: LastFor(registry.schema, rs, route, i) ==> k == KindFor(rs[i])
    {
      hide AddAll, LastFor;
      DispatchIsLast(registry.schema, rs, route);
      if route in reqHandlers { return reqHandlers[route]; }
      return Default;
    }
  }

  // ---- Registrations one after the other ----

  function AddAll(schema: Schema, rs: seq<Registration>): Handlers
    decreases |rs|
  {
    if rs == [] then NO_HANDLERS else AddHandler(schema, AddAll(schema, rs[..|rs| - 1]), rs[|rs| - 1])
  }

  function IdOf(schema: Schema, r: Registration): uint32 { schema.checksum(r.typ.fullName) }

  /** The i-th registration did not panic. */
  predicate Accepted(schema: Schema, rs: seq<Registration>, i: nat)
    requires i < |rs|
  {
    RegisterStep(schema, AddAll(schema, rs[..i]).maps, rs[i].typ).1.Ok?
  }

  predicate For(schema: Schema, rs: seq<Registration>, route: uint32, i: int) {
    0 <= i < |rs| && IdOf(schema, rs[i]) == route && Accepted(schema, rs, i)
  }

  /** The i-th registration is the last of those for the route that did not panic. */
  ghost predicate LastFor(schema: Schema, rs: seq<Registration>, route: uint32, i: int) {
    For(schema, rs, route, i) && forall j :: i < j ==> !For(schema, rs, route, j)
  }

  lemma {:induction false} KindsHeld(schema: Schema, rs: seq<Registration>)
    ensures var h := AddAll(schema, rs);
      h.kinds.Keys == h.maps.id2type.Keys && forall n :: n in h.kinds ==> h.kinds[n] != Default
    decreases |rs|
  {
    if rs == [] {
    } else {
      KindsHeld(schema, rs[..|rs| - 1]);
    }
  }

  lemma LastAdded(schema: Schema, rs: seq<Registration>, route: uint32)
    requires rs != []
    ensures var n := |rs| - 1; var before := AddAll(schema, rs[..n]).kinds;
      && KindOf(AddAll(schema, rs).kinds, route)
         == (if For(schema, rs, route, n) then KindFor(rs[n]) else KindOf(before, route))
      && (IdOf(schema, rs[n]) == route && !For(schema, rs, route, n) ==> KindOf(before, route) != Default)
  {
    KindsHeld(schema, rs[..|rs| - 1]);
  }

  lemma ForPrefix(schema: Schema, rs: seq<Registration>, route: uint32, i: int)
    requires 0 <= i < |rs| - 1
    ensures For(schema, rs, route, i) <==> For(schema, rs[..|rs| - 1], route, i)
  {
    assert rs[..|rs| - 1][..i] == rs[..i];
  }

  /** A message goes to the default handler exactly when no registration has its route, and otherwise to
      the handler of the last one that did not panic. */
  lemma {:induction false} DispatchIsLast(schema: Schema, rs: seq<Registration>, route: uint32)
    ensures var k := KindOf(AddAll(schema, rs).kinds, route);
      && (k == Default <==> forall i :: 0 <= i < |rs| ==> IdOf(schema, rs[i]) != route)
      && (k != Default ==> exists i :: LastFor(schema, rs, route, i))
      && (forall i :: LastFor(schema, rs, route, i) ==> k == KindFor(rs[i]))
    decreases |rs|
  {
    hide AddHandler, Accepted;
    if rs == [] {
    } else {
      var n := |rs| - 1;
      var before := rs[..n];
      DispatchIsLast(schema, before, route);
      LastAdded(schema, rs, route);
      assert forall i :: 0 <= i < n ==> rs[i] == before[i];
      forall i | 0 <= i < n ensures For(schema, rs, route, i) <==> For(schema, before, route, i) {
        ForPrefix(schema, rs, route, i);
      }
      if For(schema, rs, route, n) {
        assert LastFor(schema, rs, route, n);
      } else {
        forall i ensures LastFor(schema, rs, route, i) <==> LastFor(schema, before, route, i) {
          assert forall j :: For(schema, rs, route, j) <==> For(schema, before, route, j);
        }
      }
    }
  }
}

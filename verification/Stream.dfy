/** What framing promises over whole streams: packets survive packing, chunking and re-packing. */
module Stream {
  import opened Base
  import opened Messages
  import opened HashRegistry
  import opened Protobuf
  import opened Packet

  /** A packet as packing leaves it: both bodies marshal and Route is the checksum of the message's name. */
  predicate Sendable(schema: Schema, p: Packet) {
    && MarshalCommon(p.common).Some? && schema.marshal(p.msg).Some?
    && p.common.route == schema.checksum(p.msg.typ.fullName)
  }

  function FrameOf(schema: Schema, p: Packet): Bytes
    requires Sendable(schema, p)
  {
    Frame(MarshalCommon(p.common).value, schema.marshal(p.msg).value)
  }

  /** Both bodies are short enough for the 16-bit lengths, which PackMessage does not check. */
  predicate Fits(schema: Schema, p: Packet)
    requires Sendable(schema, p)
  {
    |MarshalCommon(p.common).value| < TWO_16 && |schema.marshal(p.msg).value| < TWO_16
  }

  /** A successful pack changes only Route in the header and produces the frame of a sendable packet. */
  lemma PackYieldsFrame(schema: Schema, maps: Maps, common: MsgCommon, msg: Message)
    requires Consistent(schema, maps)
    ensures var packed := PackSpec(schema, maps, common, msg); var p := Packet(packed.common, msg);
      packed.result.Ok? ==>
        && p.common == common.(route := schema.checksum(msg.typ.fullName))
        && Sendable(schema, p) && packed.result.value == FrameOf(schema, p)
        && msg.typ in packed.maps.type2id
  {
    MarshalIsRegister(schema, maps, msg);
  }

  /** All that packing can come to, and what it writes into the header and the registry on the way. */
  lemma PackOutcome(schema: Schema, maps: Maps, common: MsgCommon, msg: Message)
    requires Consistent(schema, maps)
    ensures var packed := PackSpec(schema, maps, common, msg);
      var (maps', id) := RegisterStep(schema, maps, msg.typ);
      && packed.maps == maps'
      && packed.common == (if id.Ok? then common.(route := schema.checksum(msg.typ.fullName)) else common)
      && (packed.result == Err(HashCollision) <==> id.Err?)
      && (packed.result == Err(MarshalFailed) <==>
            id.Ok? && (schema.marshal(msg).None? || MarshalCommon(packed.common).None?))
      && (packed.result.Err? ==> packed.result.error.HashCollision? || packed.result.error.MarshalFailed?)
  {
    MarshalIsRegister(schema, maps, msg);
  }

  // ---- One frame ----

  lemma LittleEndianRoundTrip(n: nat, s: Bytes, i: nat)
    requires i + 1 < |s| && s[i] == n % 256 && s[i + 1] == n / 256 % 256
    ensures Uint16At(s, i) == n % TWO_16
  {
  }

  lemma TakeDrop(a: Bytes, b: Bytes)
    ensures Take(a + b, |a|) == a && Drop(a + b, |a|) == b
  {
    assert (a + b)[..|a|] == a && (a + b)[|a|..] == b;
    if b == [] { assert a + b == a; }
  }

  /** The four length bytes hand over to the bodies with the low 16 bits of both lengths. */
  lemma HeadParses(schema: Schema, maps: Maps, a: nat, b: nat, bodies: Bytes, broken: bool, commonLen: nat, msgLen: nat)
    requires commonLen == a % TWO_16 && msgLen == b % TWO_16
    ensures ParseFrame(schema, maps, LittleEndian16(a) + LittleEndian16(b) + bodies, broken)
         == ParseBodies(schema, maps, bodies, broken, commonLen, msgLen)
  {
    var header := LittleEndian16(a) + LittleEndian16(b);
    TakeDrop(header, bodies);
    LittleEndianRoundTrip(a, header, 0);
    LittleEndianRoundTrip(b, header, 2);
  }

  lemma FrameBytes(rawCommon: Bytes, rawMsg: Bytes, rest: Bytes)
    ensures Frame(rawCommon, rawMsg) + rest
         == LittleEndian16(|rawCommon|) + LittleEndian16(|rawMsg|) + (rawCommon + (rawMsg + rest))
  {
  }

  /** A successful parse of the bodies consumes exactly the stated lengths, if there are that many bytes. */
  lemma BodiesLength(schema: Schema, maps: Maps, s: Bytes, broken: bool, commonLen: nat, msgLen: nat)
    requires |s| >= commonLen + msgLen
    ensures var r := ParseBodies(schema, maps, s, broken, commonLen, msgLen);
      r.result.Ok? ==> |r.rest| == |s| - commonLen - msgLen
  {
  }

  lemma PayloadParses(schema: Schema, maps: Maps, common: MsgCommon, msg: Message, raw: Bytes, rest: Bytes,
                      broken: bool)
    requires UnmarshalById(schema, maps, common.route, raw) == Ok(msg)
    ensures ParsePayload(schema, maps, raw + rest, broken, common, |raw|) == Parsed(Ok(Packet(common, msg)), rest)
  {
    TakeDrop(raw, rest);
  }

  lemma BodiesParse(schema: Schema, maps: Maps, common: MsgCommon, raw: Bytes, rest: Bytes, broken: bool, msgLen: nat)
    requires UnmarshalCommon(raw) == Some(common)
    ensures ParseBodies(schema, maps, raw + rest, broken, |raw|, msgLen)
         == ParsePayload(schema, maps, rest, broken, common, msgLen)
  {
    TakeDrop(raw, rest);
  }

  lemma RawFrameParses(schema: Schema, maps: Maps, common: MsgCommon, msg: Message,
                       rawCommon: Bytes, rawMsg: Bytes, rest: Bytes, broken: bool)
    requires UnmarshalCommon(rawCommon) == Some(common) && |rawCommon| < TWO_16
    requires UnmarshalById(schema, maps, common.route, rawMsg) == Ok(msg) && |rawMsg| < TWO_16
    ensures ParseFrame(schema, maps, Frame(rawCommon, rawMsg) + rest, broken) == Parsed(Ok(Packet(common, msg)), rest)
  {
    FrameBytes(rawCommon, rawMsg, rest);
    HeadParses(schema, maps, |rawCommon|, |rawMsg|, rawCommon + (rawMsg + rest), broken, |rawCommon|, |rawMsg|);
    BodiesParse(schema, maps, common, rawCommon, rawMsg + rest, broken, |rawMsg|);
    PayloadParses(schema, maps, common, msg, rawMsg, rest, broken);
  }

  /** What survives of a length in 16 bits. */
  ghost function Low16(n: nat): (r: nat)
    ensures r == n % TWO_16 && r <= n && (n >= TWO_16 ==> r < n)
  {
    n % TWO_16
  }

  /** With a length beyond 16 bits the reader stops short of the end of the frame. */
  lemma RawFrameOverflows(schema: Schema, maps: Maps, rawCommon: Bytes, rawMsg: Bytes, rest: Bytes, broken: bool)
    requires |rawCommon| >= TWO_16 || |rawMsg| >= TWO_16
    ensures var r := ParseFrame(schema, maps, Frame(rawCommon, rawMsg) + rest, broken);
      r.result.Ok? ==> |r.rest| > |rest|
  {
    var bodies := rawCommon + (rawMsg + rest);
    var commonLen, msgLen := Low16(|rawCommon|), Low16(|rawMsg|);
    FrameBytes(rawCommon, rawMsg, rest);
    HeadParses(schema, maps, |rawCommon|, |rawMsg|, bodies, broken, commonLen, msgLen);
    BodiesLength(schema, maps, bodies, broken, commonLen, msgLen);
  }

  /** What a reader makes of a stream too short for the lengths of a frame. */
  lemma ShortStream(schema: Schema, maps: Maps, s: Bytes, broken: bool)
    requires |s| < 4
    ensures ParseFrame(schema, maps, s, broken)
         == Parsed(Err(if broken then ReadFailed else if s == [] then ConnectClosed else InvalidHeader), [])
  {
  }

  /** A frame that is whole but cannot be decoded: the error, and how far the stream was read. */
  lemma UndecodedFrame(schema: Schema, maps: Maps, rawCommon: Bytes, rawMsg: Bytes, rest: Bytes, broken: bool)
    requires |rawCommon| < TWO_16 && |rawMsg| < TWO_16
    ensures var r := ParseFrame(schema, maps, Frame(rawCommon, rawMsg) + rest, broken);
      var common := UnmarshalCommon(rawCommon);
      && (common.None? ==> r == Parsed(Err(CommonMalformed), rawMsg + rest))
      && (common.Some? && common.value.route !in maps.id2type ==>
            r == Parsed(Err(NotRegistered(common.value.route)), rest))
      && (common.Some? && common.value.route in maps.id2type
            && schema.unmarshal(maps.id2type[common.value.route], rawMsg).None? ==>
            r == Parsed(Err(PayloadMalformed), rest))
  {
    hide ParseFrame, UnmarshalCommon;
    FrameBytes(rawCommon, rawMsg, rest);
    HeadParses(schema, maps, |rawCommon|, |rawMsg|, rawCommon + (rawMsg + rest), broken, |rawCommon|, |rawMsg|);
    TakeDrop(rawCommon, rawMsg + rest);
    TakeDrop(rawMsg, rest);
  }

  lemma FrameParses(schema: Schema, maps: Maps, p: Packet, rest: Bytes, broken: bool)
    requires Lawful(schema) && Consistent(schema, maps) && p.msg.typ in maps.type2id
    requires Sendable(schema, p) && Fits(schema, p)
    ensures ParseFrame(schema, maps, FrameOf(schema, p) + rest, broken) == Parsed(Ok(p), rest)
  {
    var rawCommon, rawMsg := MarshalCommon(p.common).value, schema.marshal(p.msg).value;
    CommonRoundTrip(p.common);
    assert maps.id2type[p.common.route] == p.msg.typ;
    RawFrameParses(schema, maps, p.common, p.msg, rawCommon, rawMsg, rest, broken);
  }

  /** PackMessage casts the lengths to 16 bits unchecked: a frame is read back, and the rest of the
      stream left intact, exactly when both bodies are at most 65535 bytes. */
  lemma FrameRoundTripIff(schema: Schema, maps: Maps, p: Packet, rest: Bytes, broken: bool)
    requires Lawful(schema) && Consistent(schema, maps) && p.msg.typ in maps.type2id && Sendable(schema, p)
    ensures ParseFrame(schema, maps, FrameOf(schema, p) + rest, broken) == Parsed(Ok(p), rest) <==> Fits(schema, p)
  {
    if Fits(schema, p) {
      FrameParses(schema, maps, p, rest, broken);
    } else {
      RawFrameOverflows(schema, maps, MarshalCommon(p.common).value, schema.marshal(p.msg).value, rest, broken);
    }
  }

  lemma {:induction false} AsciiValid(n: nat)
    ensures ValidUtf8(seq(n, _ => 97))
  {
    if n == 0 {
    } else {
      AsciiValid(n - 1);
      assert seq(n, _ => 97 as byte)[1..] == seq(n - 1, _ => 97 as byte);
    }
  }

  predicate HeaderFits(p: Packet) {
    MarshalCommon(p.common).Some? && |MarshalCommon(p.common).value| < TWO_16
  }

  /** The message a reader makes of the payload, of which it takes as many bytes as the low 16 bits of its
      length say. */
  function Seen(schema: Schema, p: Packet): (r: Option<Message>)
    requires Sendable(schema, p)
    ensures Lawful(schema) && Fits(schema, p) ==> r == Some(p.msg)
    ensures Lawful(schema) && r.Some? ==> r.value.typ == p.msg.typ && schema.marshal(r.value).Some?
  {
    var raw := schema.marshal(p.msg).value;
    assert raw[..|raw|] == raw;
    schema.unmarshal(p.msg.typ, raw[..|raw| % TWO_16])
  }

  /** A frame on its own, with a header that fits: the header is read back, whatever the payload's length. */
  lemma FrameAloneParses(schema: Schema, maps: Maps, p: Packet, broken: bool)
    requires Consistent(schema, maps) && p.msg.typ in maps.type2id && Sendable(schema, p) && HeaderFits(p)
    ensures ParseFrame(schema, maps, FrameOf(schema, p), broken).result ==
      if Seen(schema, p).Some? then Ok(Packet(p.common, Seen(schema, p).value)) else Err(PayloadMalformed)
  {
    hide ParseFrame, ParseBodies, UnmarshalCommon, MarshalCommon;
    var rawCommon, rawMsg := MarshalCommon(p.common).value, schema.marshal(p.msg).value;
    CommonRoundTrip(p.common);
    assert maps.id2type[p.common.route] == p.msg.typ;
    assert FrameOf(schema, p) == LittleEndian16(|rawCommon|) + LittleEndian16(|rawMsg|) + (rawCommon + rawMsg);
    HeadParses(schema, maps, |rawCommon|, |rawMsg|, rawCommon + rawMsg, broken, |rawCommon|, Low16(|rawMsg|));
    BodiesParse(schema, maps, p.common, rawCommon, rawMsg, broken, Low16(|rawMsg|));
    assert Take(rawMsg, Low16(|rawMsg|)) == rawMsg[..Low16(|rawMsg|)];
  }

  /** Such packets exist: a header whose source id is 65536 letters packs with every message, and is not
      read back. */
  lemma OversizedHeader(schema: Schema, maps: Maps, msg: Message, rest: Bytes, broken: bool) returns (p: Packet)
    requires Lawful(schema) && Consistent(schema, maps) && msg.typ in maps.type2id && schema.marshal(msg).Some?
    ensures p.msg == msg && Sendable(schema, p) && !Fits(schema, p)
    ensures ParseFrame(schema, maps, FrameOf(schema, p) + rest, broken) != Parsed(Ok(p), rest)
  {
    hide ParseFrame, ValidUtf8;
    var source: Bytes := seq(TWO_16, _ => 97);
    AsciiValid(TWO_16);
    assert ValidUtf8([]) by { AsciiValid(0); assert seq(0, _ => 97 as byte) == []; }
    p := Packet(MsgCommon(source, [], 0, [], 0, schema.checksum(msg.typ.fullName)), msg);
    assert |EncodeString(SOURCE_ID, source)| >= TWO_16;
    FrameRoundTripIff(schema, maps, p, rest, broken);
  }

  /** Reading a frame off a connection gives the packet back, and leaves what follows it, exactly when
      both bodies fit. */
  method ReadBack(registry: Registry, p: Packet, rest: Bytes, broken: bool)
    returns (r: Result<Packet, Error>, left: Bytes)
    requires Lawful(registry.schema) && Consistent(registry.schema, registry.View())
    requires p.msg.typ in registry.type2id && Sendable(registry.schema, p)
    ensures r == Ok(p) && left == rest <==> Fits(registry.schema, p)
  {
    hide ParseFrame, Fits;
    var frame := FrameOf(registry.schema, p);
    var source := new ByteSource([frame, rest], broken);
    assert source.Content() == frame + rest by {
      assert [frame, rest][1..] == [rest] && [rest][1..] == [];
      assert Flatten([rest]) == rest + Flatten<byte>([]);
    }
    FrameRoundTripIff(registry.schema, registry.View(), p, rest, broken);
    r := ReadMessage(source, registry);
    left := source.Content();
  }

  lemma RawTruncated(schema: Schema, maps: Maps, common: MsgCommon, rawCommon: Bytes, rawMsg: Bytes, kept: nat)
    requires UnmarshalCommon(rawCommon) == Some(common) && |rawCommon| < TWO_16
    requires kept < |rawMsg| < TWO_16
    ensures ParseFrame(schema, maps, Frame(rawCommon, rawMsg)[..HEAD_LENGTH + |rawCommon| + kept], false)
         == ParsePayload(schema, maps, rawMsg[..kept], false, common, |rawMsg|)
  {
    var cut := rawMsg[..kept];
    assert Frame(rawCommon, rawMsg)[..HEAD_LENGTH + |rawCommon| + kept]
        == LittleEndian16(|rawCommon|) + LittleEndian16(|rawMsg|) + (rawCommon + cut);
    HeadParses(schema, maps, |rawCommon|, |rawMsg|, rawCommon + cut, false, |rawCommon|, |rawMsg|);
    BodiesParse(schema, maps, common, rawCommon, cut, false, |rawMsg|);
  }

  /** A frame cut inside its payload is not noticed: on a cleanly ended stream its fate is that of
      unmarshalling the shortened payload. */
  lemma TruncatedPayload(schema: Schema, maps: Maps, p: Packet, kept: nat)
    requires Lawful(schema) && Consistent(schema, maps) && p.msg.typ in maps.type2id
    requires Sendable(schema, p) && Fits(schema, p) && kept < |schema.marshal(p.msg).value|
    ensures
      var cut := schema.marshal(p.msg).value[..kept];
      var s := FrameOf(schema, p)[..HEAD_LENGTH + |MarshalCommon(p.common).value| + kept];
      var decoded := schema.unmarshal(p.msg.typ, cut);
      ParseFrame(schema, maps, s, false) ==
        Parsed(if decoded.Some? then Ok(Packet(p.common, decoded.value)) else Err(PayloadMalformed), [])
  {
    hide ParseFrame, ValidString;
    var rawCommon, rawMsg := MarshalCommon(p.common).value, schema.marshal(p.msg).value;
    CommonRoundTrip(p.common);
    assert maps.id2type[p.common.route] == p.msg.typ;
    RawTruncated(schema, maps, p.common, rawCommon, rawMsg, kept);
  }

  /** A library in which the encoding of b is the first byte of the encoding of a. */
  function PrefixCode(a: Message, b: Message, id: uint32): Schema {
    Schema(
      _ => id,
      m => if m == a then Some([1, 2]) else if m == b then Some([1]) else None,
      (t, raw) => if t == a.typ && raw == [1, 2] then Some(a) else if t == a.typ && raw == [1] then Some(b) else None)
  }

  /** So two different messages of one type can be mistaken for each other: a lawful library, under which
      the frame of the one, cut by a byte, is read as the other. */
  lemma CutReadAsOther(common: MsgCommon, a: Message, b: Message)
    requires a != b && a.typ == b.typ && MarshalCommon(common).Some? && |MarshalCommon(common).value| < TWO_16
    ensures var schema := PrefixCode(a, b, common.route);
      var maps := RegisterStep(schema, EMPTY_MAPS, a.typ).0;
      && Lawful(schema) && Consistent(schema, maps) && Sendable(schema, Packet(common, a))
      && var frame := FrameOf(schema, Packet(common, a));
         ParseFrame(schema, maps, frame[..|frame| - 1], false) == Parsed(Ok(Packet(common, b)), [])
  {
    hide ParseFrame, MarshalCommon;
    var schema := PrefixCode(a, b, common.route);
    var maps := RegisterStep(schema, EMPTY_MAPS, a.typ).0;
    RegisterKeepsConsistent(schema, EMPTY_MAPS, a.typ);
    TruncatedPayload(schema, maps, Packet(common, a), 1);
    assert [1, 2][..1] == [1];
  }

  // ---- Whole streams ----

  /** Reading until the first error: the packets read, and the error. */
  function ParseAll(schema: Schema, maps: Maps, s: Bytes, broken: bool): (seq<Packet>, Error)
    decreases |s|
  {
    var parsed := ParseFrame(schema, maps, s, broken);
    match parsed.result
    case Err(e) => ([], e)
    case Ok(p) => Prepend([p], ParseAll(schema, maps, parsed.rest, broken))
  }

  function Prepend(ps: seq<Packet>, r: (seq<Packet>, Error)): (seq<Packet>, Error) {
    (ps + r.0, r.1)
  }

  lemma PrependLaws(a: seq<Packet>, b: seq<Packet>, r: (seq<Packet>, Error))
    ensures Prepend([], r) == r && Prepend(a, Prepend(b, r)) == Prepend(a + b, r)
  {
    assert [] + r.0 == r.0 && a + (b + r.0) == a + b + r.0;
  }

  /** What a reader meets at the end of a connection. */
  function EndOf(broken: bool): Error {
    if broken then ReadFailed else ConnectClosed
  }

  lemma EmptyStream(schema: Schema, maps: Maps, broken: bool)
    ensures ParseAll(schema, maps, [], broken) == ([], EndOf(broken))
  {
  }

  lemma ParseAllStep(schema: Schema, maps: Maps, s: Bytes, broken: bool, p: Packet, rest: Bytes)
    requires ParseFrame(schema, maps, s, broken) == Parsed(Ok(p), rest)
    ensures ParseAll(schema, maps, s, broken) == Prepend([p], ParseAll(schema, maps, rest, broken))
  {
  }

  lemma ParseAllStop(schema: Schema, maps: Maps, s: Bytes, broken: bool, e: Error)
    requires ParseFrame(schema, maps, s, broken).result == Err(e)
    ensures ParseAll(schema, maps, s, broken) == ([], e)
  {
  }

  /** The agent's read loop (readChan): every packet goes to processPacket, the first error ends it. */
  method ReadLoop(source: ByteSource, registry: Registry) returns (packets: seq<Packet>, error: Error)
    modifies source
    ensures (packets, error) == ParseAll(registry.schema, registry.View(), old(source.Content()), source.broken)
  {
    hide ParseFrame;
    packets := [];
    PrependLaws([], [], ParseAll(registry.schema, registry.View(), source.Content(), source.broken));
    while true
      invariant ParseAll(registry.schema, registry.View(), old(source.Content()), source.broken)
             == Prepend(packets, ParseAll(registry.schema, registry.View(), source.Content(), source.broken))
      decreases |source.Content()|
    {
      ghost var before := source.Content();
      var r := ReadMessage(source, registry);
      match r {
        case Err(e) =>
          ParseAllStop(registry.schema, registry.View(), before, source.broken, e);
          assert packets + [] == packets;
          return packets, e;
        case Ok(p) =>
          ParseAllStep(registry.schema, registry.View(), before, source.broken, p, source.Content());
          PrependLaws(packets, [p], ParseAll(registry.schema, registry.View(), source.Content(), source.broken));
          packets := packets + [p];
      }
    }
  }

  ghost predicate AllFit(schema: Schema, maps: Maps, ps: seq<Packet>) {
    forall i :: 0 <= i < |ps| ==>
      Sendable(schema, ps[i]) && Fits(schema, ps[i]) && ps[i].msg.typ in maps.type2id
  }

  /** The concatenated frames of ps; one that does not marshal contributes nothing. */
  function Wire(schema: Schema, ps: seq<Packet>): Bytes {
    if ps == [] then []
    else (if Sendable(schema, ps[0]) then FrameOf(schema, ps[0]) else []) + Wire(schema, ps[1..])
  }

  lemma WireStep(schema: Schema, maps: Maps, ps: seq<Packet>)
    requires AllFit(schema, maps, ps) && ps != []
    ensures Sendable(schema, ps[0]) && Fits(schema, ps[0]) && ps[0].msg.typ in maps.type2id
    ensures AllFit(schema, maps, ps[1..])
    ensures Wire(schema, ps) == FrameOf(schema, ps[0]) + Wire(schema, ps[1..])
  {
    forall i | 0 <= i < |ps[1..]|
      ensures Sendable(schema, ps[1..][i]) && Fits(schema, ps[1..][i]) && ps[1..][i].msg.typ in maps.type2id
    {
      assert ps[1..][i] == ps[i + 1];
    }
  }

  lemma {:induction false} StreamDecodes(schema: Schema, maps: Maps, ps: seq<Packet>, broken: bool)
    requires Lawful(schema) && Consistent(schema, maps) && AllFit(schema, maps, ps)
    ensures ParseAll(schema, maps, Wire(schema, ps), broken) == (ps, EndOf(broken))
  {
    hide ParseFrame, Sendable, FrameOf;
    if ps == [] {
      EmptyStream(schema, maps, broken);
    } else {
      WireStep(schema, maps, ps);
      var p, rest := ps[0], Wire(schema, ps[1..]);
      FrameParses(schema, maps, p, rest, broken);
      StreamDecodes(schema, maps, ps[1..], broken);
      ParseAllStep(schema, maps, FrameOf(schema, p) + rest, broken, p, rest);
      assert [p] + ps[1..] == ps;
    }
  }

  // ---- Streams that are cut ----

  lemma CutBodies(schema: Schema, maps: Maps, common: MsgCommon, rawMsg: Bytes, kept: nat, broken: bool)
    requires MarshalCommon(common).Some? && kept < |MarshalCommon(common).value| + |rawMsg|
    ensures var raw := MarshalCommon(common).value;
      CutOutcome(maps, common, ParseBodies(schema, maps, (raw + rawMsg)[..kept], broken, |raw|, |rawMsg|), broken)
  {
    hide UnmarshalCommon, MarshalCommon;
    var raw := MarshalCommon(common).value;
    var s := (raw + rawMsg)[..kept];
    CommonRoundTrip(common);
    if kept >= |raw| {
      assert s == raw + rawMsg[..kept - |raw|];
      TakeDrop(raw, rawMsg[..kept - |raw|]);
    } else {
      assert s == raw[..kept];
      CutHeader(common, kept);
    }
  }

  /** A cut frame is never taken for a whole one on a failing connection. On one that ended cleanly
      whatever is made of it uses up all that is left, and has the header of the frame, or has lost its
      route and is taken for a message of a type whose checksum is 0. */
  ghost predicate CutOutcome(maps: Maps, common: MsgCommon, r: Parsed, broken: bool) {
    && (r.result == Err(ReadFailed) <==> broken)
    && (r.result.Ok? ==> r.rest == [] && CutHeaderIs(maps, common, r.result.value.common))
  }

  predicate CutHeaderIs(maps: Maps, common: MsgCommon, got: MsgCommon) {
    got == common || (0 in maps.id2type && got.route == 0)
  }

  lemma CutFrame(schema: Schema, maps: Maps, p: Packet, kept: nat, broken: bool)
    requires Sendable(schema, p) && Fits(schema, p) && 0 < kept < |FrameOf(schema, p)|
    ensures CutOutcome(maps, p.common, ParseFrame(schema, maps, FrameOf(schema, p)[..kept], broken), broken)
  {
    hide ParseFrame, ParseBodies, UnmarshalCommon, MarshalCommon, CutHeaderIs;
    var rawCommon, rawMsg := MarshalCommon(p.common).value, schema.marshal(p.msg).value;
    if kept < HEAD_LENGTH {
      ShortStream(schema, maps, FrameOf(schema, p)[..kept], broken);
    } else {
      var bodies := (rawCommon + rawMsg)[..kept - HEAD_LENGTH];
      assert FrameOf(schema, p)[..kept] == LittleEndian16(|rawCommon|) + LittleEndian16(|rawMsg|) + bodies;
      HeadParses(schema, maps, |rawCommon|, |rawMsg|, bodies, broken, |rawCommon|, |rawMsg|);
      CutBodies(schema, maps, p.common, rawMsg, kept - HEAD_LENGTH, broken);
    }
  }

  lemma CutFrameAlone(schema: Schema, maps: Maps, p: Packet, kept: nat, broken: bool)
    requires Sendable(schema, p) && Fits(schema, p) && kept < |FrameOf(schema, p)|
    ensures var cut := if kept == 0 then [] else [p];
      AfterWhole(maps, ParseAll(schema, maps, FrameOf(schema, p)[..kept], broken), [], cut, broken)
  {
    hide ParseFrame, Sendable, FrameOf, Fits, CutHeaderIs;
    var s := FrameOf(schema, p)[..kept];
    EmptyStream(schema, maps, broken);
    if kept == 0 {
      assert s == [];
    } else {
      CutFrame(schema, maps, p, kept, broken);
      var parsed := ParseFrame(schema, maps, s, broken);
      match parsed.result {
        case Err(e) => ParseAllStop(schema, maps, s, broken, e);
        case Ok(q) => ParseAllStep(schema, maps, s, broken, q, []);
      }
    }
  }

  /** r is what reading gives after the whole frames of ps, when the frame of cut, if it is a packet, is
      cut: on a failing connection exactly ps; on one that ended cleanly at most one more packet, made of
      the cut frame. */
  ghost predicate AfterWhole(maps: Maps, r: (seq<Packet>, Error), ps: seq<Packet>, cut: seq<Packet>, broken: bool) {
    && (broken ==> r == (ps, ReadFailed))
    && (!broken ==> ps <= r.0 && r.1 != ReadFailed)
    && (r.0 == ps ||
        (&& |r.0| == |ps| + 1 && r.1 == ConnectClosed
         && cut != [] && CutHeaderIs(maps, cut[0].common, r.0[|ps|].common)))
    && (cut == [] ==> r == (ps, EndOf(broken)))
  }

  lemma NothingAfterWhole(schema: Schema, maps: Maps, broken: bool)
    ensures AfterWhole(maps, ParseAll(schema, maps, [], broken), [], [], broken)
  {
    EmptyStream(schema, maps, broken);
  }

  lemma PrependAfterWhole(maps: Maps, p: Packet, r: (seq<Packet>, Error), ps: seq<Packet>, cut: seq<Packet>,
                          broken: bool)
    requires AfterWhole(maps, r, ps, cut, broken)
    ensures AfterWhole(maps, Prepend([p], r), [p] + ps, cut, broken)
  {
    hide CutHeaderIs;
    assert r.0 == ps || ([p] + r.0)[|[p] + ps|] == r.0[|ps|];
  }

  lemma AllFitPrefix(schema: Schema, maps: Maps, ps: seq<Packet>, j: nat)
    requires AllFit(schema, maps, ps) && j <= |ps|
    ensures AllFit(schema, maps, ps[..j])
  {
    hide Sendable, Fits;
  }

  lemma WirePrefixStep(schema: Schema, maps: Maps, ps: seq<Packet>, j: nat)
    requires AllFit(schema, maps, ps) && 0 < j <= |ps|
    ensures Sendable(schema, ps[0])
    ensures Wire(schema, ps[..j]) == FrameOf(schema, ps[0]) + Wire(schema, ps[1..][..j - 1])
  {
    hide Sendable, FrameOf, Fits, Wire;
    AllFitPrefix(schema, maps, ps, j);
    WireStep(schema, maps, ps[..j]);
    assert ps[..j][1..] == ps[1..][..j - 1];
  }

  /** The packet whose frame the n-th byte falls inside of, if j whole frames come before it. */
  function CutAt(schema: Schema, ps: seq<Packet>, j: nat, n: nat): seq<Packet>
    requires j <= |ps|
  {
    if j == |ps| || n == |Wire(schema, ps[..j])| then [] else [ps[j]]
  }

  /** Any first n bytes of a stream of frames hold j whole ones and maybe part of another. They decode to
      those j packets, and then to a read failure if the connection failed; if it ended cleanly, to at
      most one more packet, which the cut frame was taken for. */
  lemma {:induction false} PrefixDecodes(schema: Schema, maps: Maps, ps: seq<Packet>, n: nat, broken: bool)
    returns (j: nat)
    requires Lawful(schema) && Consistent(schema, maps) && AllFit(schema, maps, ps) && n <= |Wire(schema, ps)|
    ensures j <= |ps| && |Wire(schema, ps[..j])| <= n && (j < |ps| ==> n < |Wire(schema, ps[..j + 1])|)
    ensures j == |ps| <==> n == |Wire(schema, ps)|
    ensures AfterWhole(maps, ParseAll(schema, maps, Wire(schema, ps)[..n], broken),
                       ps[..j], CutAt(schema, ps, j, n), broken)
    decreases |ps|
  {
    hide ParseAll, ParseFrame, Sendable, FrameOf, Fits, AfterWhole, AllFit, Lawful, Consistent;
    if ps == [] {
      j := 0;
      assert Wire(schema, ps)[..n] == [] && ps[..0] == [];
      NothingAfterWhole(schema, maps, broken);
    } else {
      WireStep(schema, maps, ps);
      var frame, rest := FrameOf(schema, ps[0]), Wire(schema, ps[1..]);
      if n < |frame| {
        j := 0;
        assert (frame + rest)[..n] == frame[..n] && ps[..0] == [];
        WirePrefixStep(schema, maps, ps, 1);
        CutFrameAlone(schema, maps, ps[0], n, broken);
      } else {
        var m := n - |frame|;
        var i := PrefixDecodes(schema, maps, ps[1..], m, broken);
        j := i + 1;
        assert (frame + rest)[..n] == frame + rest[..m];
        FrameParses(schema, maps, ps[0], rest[..m], broken);
        ParseAllStep(schema, maps, frame + rest[..m], broken, ps[0], rest[..m]);
        WirePrefixStep(schema, maps, ps, j);
        if j < |ps| { WirePrefixStep(schema, maps, ps, j + 1); }
        PrependAfterWhole(maps, ps[0], ParseAll(schema, maps, rest[..m], broken),
                          ps[1..][..i], CutAt(schema, ps[1..], i, m), broken);
        assert ps[..j] == [ps[0]] + ps[1..][..i];
      }
    }
  }

  /** Any list of packets, packed, concatenated and delivered in any chunks, is read back as exactly
      that list and then the end of the connection. */
  method StreamRoundTrip(registry: Registry, ps: seq<Packet>, chunks: seq<Bytes>, broken: bool)
    returns (received: seq<Packet>, error: Error)
    requires Lawful(registry.schema) && Consistent(registry.schema, registry.View())
    requires AllFit(registry.schema, registry.View(), ps) && Flatten(chunks) == Wire(registry.schema, ps)
    ensures received == ps && error == EndOf(broken)
  {
    hide ParseAll, Wire;
    var source := new ByteSource(chunks, broken);
    StreamDecodes(registry.schema, registry.View(), ps, broken);
    assert source.Content() == Wire(registry.schema, ps);
    received, error := ReadLoop(source, registry);
  }

  // ---- The gate ----

  /** Decoding a frame, overwriting its four gate fields and packing it again succeeds exactly when the
      stamped strings are valid, and the new frame decodes elsewhere to the same message, Mid and Route
      with exactly the stamped fields if and only if both bodies still fit. */
  lemma GateRepack(schema: Schema, gate: Maps, node: Maps, s: Bytes, broken: bool, p: Packet,
                   source: Bytes, target: Bytes, uid: uint64, sid: Bytes, rest: Bytes)
    requires Lawful(schema) && Consistent(schema, gate) && Consistent(schema, node)
    requires ParseFrame(schema, gate, s, broken).result == Ok(p) && p.msg.typ in node.type2id
    ensures var stamped := p.common.(sourceId := source, targetId := target, uid := uid, sid := sid);
      var packed := PackSpec(schema, gate, stamped, p.msg);
      && (packed.result.Ok? <==> ValidString(source) && ValidString(target) && ValidString(sid))
      && packed.common == stamped && packed.maps == gate
      && (packed.result.Ok? ==>
            && Sendable(schema, Packet(stamped, p.msg))
            && (ParseFrame(schema, node, packed.result.value + rest, false) == Parsed(Ok(Packet(stamped, p.msg)), rest)
                <==> Fits(schema, Packet(stamped, p.msg))))
  {
    hide ParseFrame, Fits;
    var stamped := p.common.(sourceId := source, targetId := target, uid := uid, sid := sid);
    DecodedIsRegistered(schema, gate, s, broken, p);
    PackYieldsFrame(schema, gate, stamped, p.msg);
    if PackSpec(schema, gate, stamped, p.msg).result.Ok? {
      FrameRoundTripIff(schema, node, Packet(stamped, p.msg), rest, false);
    }
  }

  /** What a reader decodes carries the id its registry holds for the message's type, and marshals again. */
  lemma DecodedIsRegistered(schema: Schema, maps: Maps, s: Bytes, broken: bool, p: Packet)
    requires Lawful(schema) && Consistent(schema, maps) && ParseFrame(schema, maps, s, broken).result == Ok(p)
    ensures p.msg.typ in maps.type2id && maps.type2id[p.msg.typ] == p.common.route && schema.marshal(p.msg).Some?
  {
    hide UnmarshalCommon;
    var route := p.common.route;
    assert route in maps.id2type && schema.unmarshal(maps.id2type[route], PayloadBytes(s)) == Some(p.msg);
  }

  /** The payload bytes the header of s points at. */
  function PayloadBytes(s: Bytes): Bytes
    requires |s| >= HEAD_LENGTH
  {
    Take(Drop(Drop(s, HEAD_LENGTH), Uint16At(s, 0)), Uint16At(s, 2))
  }
}

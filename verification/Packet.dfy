/** packet.go: frames on a byte stream. A frame is two little-endian 16-bit lengths, the encoded
    MsgCommon and the encoded message. */
module Packet {
  import opened Base
  import opened Messages
  import opened HashRegistry
  import opened Protobuf

  const HEAD_LENGTH: nat := 4

  /** A decoded frame: the header, its Route included, and the message. */
  datatype Packet = Packet(common: MsgCommon, msg: Message)

  // ---- The byte source ----

  /** A connection that delivers its bytes in arbitrary pieces, empty ones included, and then either
      ends cleanly or fails. */
  class ByteSource {
    var chunks: seq<Bytes>
    const broken: bool

    constructor (chunks: seq<Bytes>, broken: bool)
      ensures this.chunks == chunks && this.broken == broken
    {
      this.chunks, this.broken := chunks, broken;
    }

    function Content(): Bytes
      reads this
    {
      Flatten(chunks)
    }

    /** One Read call with room for `limit` bytes. */
    method Read(limit: nat) returns (data: Bytes, eof: bool)
      modifies this
      ensures |data| <= limit
      ensures old(Content()) == data + Content()
      ensures eof <==> old(chunks) == []
      ensures eof ==> chunks == []
      ensures limit > 0 && !eof ==> |chunks| + |Content()| < |old(chunks)| + |old(Content())|
    {
      if chunks == [] { return [], true; }
      var first := chunks[0];
      if |first| <= limit {
        data, chunks := first, chunks[1..];
      } else {
        data := first[..limit];
        assert first == data + first[limit..];
        var rest := chunks[1..];
        chunks := [first[limit..]] + rest;
        assert chunks[1..] == rest;
        assert Flatten(chunks) == first[limit..] + Flatten(rest);
      }
      eof := false;
    }

    /** io.ReadAll over a reader limited to n bytes: reads, with whatever room its buffer has, until
        the limit, the end of the stream or a failure. */
    method ReadLimited(n: nat) returns (data: Bytes, failed: bool)
      modifies this
      ensures (data, failed, Content()) == ReadSpec(old(Content()), broken, n)
    {
      data := [];
      var eof := false;
      ghost var all := Content();
      while |data| < n && !eof
        invariant |data| <= n && all == data + Content()
        invariant eof ==> chunks == [] && |data| < n
        decreases |chunks| + |Content()|, if eof then 0 else 1
      {
        var room :| 1 <= room <= n - |data|;
        var piece;
        ghost var had := data;
        piece, eof := Read(room);
        data := data + piece;
        assert all == had + (piece + Content());
      }
      failed := eof && |data| < n && broken;
      if eof {
        assert Content() == [] && all == data;
      } else {
        assert all[..n] == data && all[n..] == Content();
        assert |all| == n ==> all == data;
      }
    }
  }

  /** The bytes read, whether the read failed, and the bytes left. */
  function ReadSpec(s: Bytes, broken: bool, n: nat): (Bytes, bool, Bytes) {
    (Take(s, n), |s| < n && broken, Drop(s, n))
  }

  // ---- Reading one message ----

  /** The result of one ReadMessage call and the bytes left on the stream. */
  datatype Parsed = Parsed(result: Result<Packet, Error>, rest: Bytes)

  function Uint16At(s: Bytes, i: nat): nat
    requires i + 1 < |s|
  {
    var low: nat, high: nat := s[i], s[i + 1];
    low + 256 * high
  }

  /** The two lengths; their 16 bits can never exceed the declared maxima. */
  function ParseHead(header: Bytes): Option<(nat, nat)> {
    if |header| != HEAD_LENGTH then None else Some((Uint16At(header, 0), Uint16At(header, 2)))
  }

  function ParsePayload(schema: Schema, maps: Maps, s: Bytes, broken: bool, common: MsgCommon, msgLen: nat): Parsed {
    if |s| < msgLen && broken then Parsed(Err(ReadFailed), [])
    else
      match UnmarshalById(schema, maps, common.route, Take(s, msgLen))
      case Err(e) => Parsed(Err(e), Drop(s, msgLen))
      case Ok(msg) => Parsed(Ok(Packet(common, msg)), Drop(s, msgLen))
  }

  function ParseBodies(schema: Schema, maps: Maps, s: Bytes, broken: bool, commonLen: nat, msgLen: nat): Parsed {
    if |s| < commonLen && broken then Parsed(Err(ReadFailed), [])
    else
      match UnmarshalCommon(Take(s, commonLen))
      case None => Parsed(Err(CommonMalformed), Drop(s, commonLen))
      case Some(common) => ParsePayload(schema, maps, Drop(s, commonLen), broken, common, msgLen)
  }

  function ParseFrame(schema: Schema, maps: Maps, s: Bytes, broken: bool): (r: Parsed)
    ensures r.result.Ok? ==> |r.rest| < |s|
  {
    if |s| < HEAD_LENGTH && broken then Parsed(Err(ReadFailed), [])
    else if s == [] then Parsed(Err(ConnectClosed), [])
    else
      match ParseHead(Take(s, HEAD_LENGTH))
      case None => Parsed(Err(InvalidHeader), Drop(s, HEAD_LENGTH))
      case Some((commonLen, msgLen)) => ParseBodies(schema, maps, Drop(s, HEAD_LENGTH), broken, commonLen, msgLen)
  }

  /** The outcome depends on the bytes of the stream alone, not on how they were cut into chunks. */
  method ReadMessage(source: ByteSource, registry: Registry) returns (r: Result<Packet, Error>)
    modifies source
    ensures Parsed(r, source.Content())
         == ParseFrame(registry.schema, registry.View(), old(source.Content()), source.broken)
  {
    var header, failed := source.ReadLimited(HEAD_LENGTH);
    if failed { return Err(ReadFailed); }
    if |header| == 0 { return Err(ConnectClosed); }
    match ParseHead(header) {
      case None => return Err(InvalidHeader);
      case Some((commonLen, msgLen)) =>
        var rawCommon;
        rawCommon, failed := source.ReadLimited(commonLen);
        if failed { return Err(ReadFailed); }
        match UnmarshalCommon(rawCommon) {
          case None => return Err(CommonMalformed);
          case Some(common) =>
            var rawMsg;
            rawMsg, failed := source.ReadLimited(msgLen);
            if failed { return Err(ReadFailed); }
            var msg := registry.OnUnmarshal(common.route, rawMsg);
            if msg.Err? { return Err(msg.error); }
            return Ok(Packet(common, msg.value));
        }
    }
  }

  // ---- Packing ----

  /** The low 16 bits of a length, as the header stores them. */
  function LittleEndian16(n: nat): Bytes {
    [n % 256, n / 256 % 256]
  }

  function Frame(rawCommon: Bytes, rawMsg: Bytes): Bytes {
    LittleEndian16(|rawCommon|) + LittleEndian16(|rawMsg|) + rawCommon + rawMsg
  }

  /** The layout of a frame: both lengths in 16 bits, low byte first, then the bodies. */
  lemma FrameLayout(rawCommon: Bytes, rawMsg: Bytes)
    ensures var f := Frame(rawCommon, rawMsg);
      && |f| == 4 + |rawCommon| + |rawMsg| && f[4..] == rawCommon + rawMsg
      && f[0] == |rawCommon| % 256 && f[1] == |rawCommon| / 256 % 256
      && f[2] == |rawMsg| % 256 && f[3] == |rawMsg| / 256 % 256
  {
  }

  /** The frame, the header with the Route that packing wrote into it, and the maps afterwards. */
  datatype Packed = Packed(result: Result<Bytes, Error>, common: MsgCommon, maps: Maps)

  function PackSpec(schema: Schema, maps: Maps, common: MsgCommon, msg: Message): Packed {
    var (maps', marshalled) := MarshalStep(schema, maps, msg);
    match marshalled
    case Err(MarshalFailed) =>
      // the id is assigned before the payload fails to marshal
      var id := if msg.typ in maps'.type2id then maps'.type2id[msg.typ] else 0;
      Packed(Err(MarshalFailed), common.(route := id), maps')
    case Err(e) => Packed(Err(e), common, maps')
    case Ok((id, rawMsg)) =>
      var stamped := common.(route := id);
      match MarshalCommon(stamped)
      case None => Packed(Err(MarshalFailed), stamped, maps')
      case Some(rawCommon) => Packed(Ok(Frame(rawCommon, rawMsg)), stamped, maps')
  }

  method PackMessage(registry: Registry, common: MsgCommon, msg: Message)
    returns (r: Result<Bytes, Error>, common': MsgCommon)
    requires Consistent(registry.schema, registry.View())
    modifies registry
    ensures Packed(r, common', registry.View()) == PackSpec(registry.schema, old(registry.View()), common, msg)
    ensures Consistent(registry.schema, registry.View())
  {
    common' := common;
    ghost var before := registry.View();
    var marshalled := registry.OnMarshal(msg);
    if marshalled.Err? {
      if marshalled.error.MarshalFailed? {
        MarshalIsRegister(registry.schema, before, msg);
        common' := common.(route := if msg.typ in registry.type2id then registry.type2id[msg.typ] else 0);
      }
      return Err(marshalled.error), common';
    }
    var (id, rawMsg) := marshalled.value;
    common' := common.(route := id);
    match MarshalCommon(common')
    case None => r := Err(MarshalFailed);
    case Some(rawCommon) =>
      var pkg := [];
      pkg := pkg + LittleEndian16(|rawCommon|);
      pkg := pkg + LittleEndian16(|rawMsg|);
      pkg := pkg + rawCommon;
      pkg := pkg + rawMsg;
      assert pkg == Frame(rawCommon, rawMsg);
      r := Ok(pkg);
  }
}

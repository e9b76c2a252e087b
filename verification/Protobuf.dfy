/** The Protocol Buffers wire encoding of MsgCommon (sections "Base 128 Varints", "Message Structure"
    and "Length-Delimited Records" of the Protocol Buffers Encoding specification). proto3 leaves
    default values out, and a decoder accepts the known fields in any order, the last one winning. */
module Protobuf {
  import opened Base

  /** The header that every framed message carries. Strings are held as the bytes of a Go string. */
  datatype MsgCommon = MsgCommon(
    sourceId: Bytes, targetId: Bytes, mid: uint32, sid: Bytes, uid: uint64, route: uint32)

  const EMPTY_COMMON := MsgCommon([], [], 0, [], 0, 0)

  // ---- Strings ----

  predicate Continuation(b: byte) { 0x80 <= b < 0xC0 }

  /** The length of the well-formed UTF-8 character s starts with (Table 3-7 of the Unicode Standard:
      no overlong form, no surrogate, nothing above U+10FFFF), or 0. */
  function RuneLength(s: Bytes): (k: nat)
    ensures k <= |s|
  {
    if s == [] then 0
    else if s[0] < 0x80 then 1
    else if 0xC2 <= s[0] < 0xE0 && |s| >= 2 && Continuation(s[1]) then 2
    else if 0xE0 <= s[0] < 0xF0 && |s| >= 3 && Continuation(s[1]) && Continuation(s[2])
            && (s[0] == 0xE0 ==> 0xA0 <= s[1]) && (s[0] == 0xED ==> s[1] < 0xA0) then 3
    else if 0xF0 <= s[0] < 0xF5 && |s| >= 4 && Continuation(s[1]) && Continuation(s[2]) && Continuation(s[3])
            && (s[0] == 0xF0 ==> 0x90 <= s[1]) && (s[0] == 0xF4 ==> s[1] < 0x90) then 4
    else 0
  }

  predicate ValidUtf8(s: Bytes) {
    s == [] || (var k := RuneLength(s); k > 0 && ValidUtf8(s[k..]))
  }

  /** A string the marshaller accepts: valid UTF-8, and no longer than a Go string can be. */
  predicate ValidString(s: Bytes) {
    |s| < 0x8000_0000_0000_0000 && ValidUtf8(s)
  }

  /** A Unicode scalar value, and its UTF-8 encoding (section 3 of RFC 3629). */
  predicate Scalar(cp: nat) { cp < 0xD800 || 0xE000 <= cp < 0x11_0000 }

  /** A byte for the low six bits of n. */
  function SixBits(n: nat): byte {
    var low: nat := n % 0x40;
    0x80 + low
  }

  function EncodeRune(cp: nat): Bytes
    requires Scalar(cp)
  {
    if cp < 0x80 then [cp]
    else if cp < 0x800 then var high: nat := cp / 64; [0xC0 + high, SixBits(cp)]
    else if cp < 0x1_0000 then var high: nat := cp / 64 / 64; [0xE0 + high, SixBits(cp / 64), SixBits(cp)]
    else
      var high: nat := cp / 64 / 64 / 64;
      [0xF0 + high, SixBits(cp / 64 / 64), SixBits(cp / 64), SixBits(cp)]
  }

  /** One more continuation byte. */
  function Extend(n: nat, b: byte): nat
    requires Continuation(b)
  {
    var low: nat := b;
    n * 64 + (low - 0x80)
  }

  lemma ExtendDigits(n: nat, b: byte)
    requires Continuation(b)
    ensures Extend(n, b) / 64 == n && SixBits(Extend(n, b)) == b
  {
  }

  lemma RuneOf(s: Bytes) returns (cp: nat)
    requires RuneLength(s) > 0
    ensures Scalar(cp) && EncodeRune(cp) == s[..RuneLength(s)]
  {
    hide SixBits, Extend;
    var k, first: nat := RuneLength(s), s[0];
    if k == 1 {
      cp := first;
    } else {
      var start: nat := first - (if k == 2 then 0xC0 else if k == 3 then 0xE0 else 0xF0);
      cp := Extend(start, s[1]);
      ExtendDigits(start, s[1]);
      ExtendRange(start, s[1]);
      if k > 2 {
        ExtendDigits(cp, s[2]);
        ExtendRange(cp, s[2]);
        cp := Extend(cp, s[2]);
      }
      if k > 3 {
        ExtendDigits(cp, s[3]);
        ExtendRange(cp, s[3]);
        cp := Extend(cp, s[3]);
      }
    }
  }

  lemma ExtendRange(n: nat, b: byte)
    requires Continuation(b)
    ensures Extend(n, b) == 64 * n + b - 0x80
  {
  }

  lemma RuneLengthOf(cp: nat, rest: Bytes)
    requires Scalar(cp)
    ensures RuneLength(EncodeRune(cp) + rest) == |EncodeRune(cp)| >= 1
  {
  }

  function EncodeRunes(cps: seq<nat>): Bytes
    requires forall i :: 0 <= i < |cps| ==> Scalar(cps[i])
  {
    if cps == [] then [] else EncodeRune(cps[0]) + EncodeRunes(cps[1..])
  }

  ghost predicate Encodes(cps: seq<nat>, s: Bytes) {
    (forall i :: 0 <= i < |cps| ==> Scalar(cps[i])) && EncodeRunes(cps) == s
  }

  lemma {:induction false} RunesOf(s: Bytes) returns (cps: seq<nat>)
    requires ValidUtf8(s)
    ensures Encodes(cps, s)
    decreases |s|
  {
    if s == [] {
      cps := [];
    } else {
      hide EncodeRune, RuneLength;
      var k := RuneLength(s);
      var cp := RuneOf(s);
      var rest := RunesOf(s[k..]);
      cps := [cp] + rest;
      assert cps[1..] == rest && s == s[..k] + s[k..];
    }
  }

  lemma {:induction false} RunesAreValid(cps: seq<nat>)
    requires forall i :: 0 <= i < |cps| ==> Scalar(cps[i])
    ensures ValidUtf8(EncodeRunes(cps))
  {
    if cps == [] {
    } else {
      RunesAreValid(cps[1..]);
      RuneLengthOf(cps[0], EncodeRunes(cps[1..]));
      assert EncodeRunes(cps)[|EncodeRune(cps[0])|..] == EncodeRunes(cps[1..]);
    }
  }

  /** The strings accepted are exactly the encodings of lists of scalar values. */
  lemma ValidUtf8Iff(s: Bytes)
    ensures ValidUtf8(s) <==> exists cps :: Encodes(cps, s)
  {
    if ValidUtf8(s) { var cps := RunesOf(s); }
    if cps :| Encodes(cps, s) { RunesAreValid(cps); }
  }

  // ---- Varints ----

  function EncodeVarint(n: nat): (r: Bytes)
    ensures |r| >= 1
  {
    if n < 128 then [n] else [128 + n % 128] + EncodeVarint(n / 128)
  }

  /** Consumes the varint whose first k bytes are already read; the tenth byte must be 0 or 1. */
  function ConsumeVarint(s: Bytes, k: nat): (r: Option<(nat, Bytes)>)
    requires k <= 9
    ensures r.Some? ==> |r.value.1| < |s|
    decreases |s|
  {
    if s == [] then None
    else if k == 9 then (if s[0] < 2 then Some((s[0], s[1..])) else None)
    else if s[0] < 128 then Some((s[0], s[1..]))
    else
      match ConsumeVarint(s[1..], k + 1)
      case None => None
      case Some((high, rest)) => Some((s[0] - 128 + 128 * high, rest))
  }

  /** One more than the largest number that fits in the bytes left once k of the ten are read. */
  function VarintCap(k: nat): nat
    requires k <= 9
    decreases 9 - k
  {
    if k == 9 then 2 else 128 * VarintCap(k + 1)
  }

  lemma {:induction false} VarintRoundTrip(n: nat, rest: Bytes, k: nat)
    requires k <= 9 && n < VarintCap(k)
    ensures ConsumeVarint(EncodeVarint(n) + rest, k) == Some((n, rest))
    decreases 9 - k
  {
    var s := EncodeVarint(n) + rest;
    if n < 128 {
      assert s[1..] == rest;
    } else {
      assert s[1..] == EncodeVarint(n / 128) + rest;
      VarintRoundTrip(n / 128, rest, k + 1);
    }
  }

  /** The number a varint stands for: seven bits a byte, the lowest first. */
  function Base128(s: Bytes): nat { if s == [] then 0 else s[0] % 128 + 128 * Base128(s[1..]) }

  /** Every byte but the last has its high bit set. */
  predicate Continues(s: Bytes) {
    s != [] && if |s| == 1 then s[0] < 128 else s[0] >= 128 && Continues(s[1..])
  }

  lemma {:induction false} VarintBytes(n: nat)
    ensures Base128(EncodeVarint(n)) == n && Continues(EncodeVarint(n))
    decreases n
  {
    if n < 128 {
      assert Base128([]) == 0;
    } else {
      VarintBytes(n / 128);
      assert EncodeVarint(n)[1..] == EncodeVarint(n / 128);
      assert (128 + n % 128) % 128 == n % 128;
    }
  }

  lemma VarintCapIs64Bits()
    ensures VarintCap(0) == TWO_64
  {
    assert VarintCap(8) == 256 && VarintCap(7) == 0x8000 && VarintCap(6) == 0x40_0000;
    assert VarintCap(5) == 0x2000_0000 && VarintCap(4) == 0x10_0000_0000 && VarintCap(3) == 0x800_0000_0000;
    assert VarintCap(2) == 0x4_0000_0000_0000 && VarintCap(1) == 0x200_0000_0000_0000;
  }

  /** A number below 128^k takes at most k bytes. */
  lemma {:induction false} VarintLength(n: nat, k: nat)
    requires 1 <= k && n < Power128(k)
    ensures |EncodeVarint(n)| <= k
    decreases k
  {
    if n >= 128 {
      assert k > 1;
      VarintLength(n / 128, k - 1);
    }
  }

  function Power128(k: nat): nat { if k == 0 then 1 else 128 * Power128(k - 1) }

  lemma PowersOf128()
    ensures Power128(3) == 0x20_0000 && Power128(5) == 0x8_0000_0000
    ensures Power128(10) > TWO_64
  {
    assert Power128(2) == 0x4000;
    assert Power128(4) == 0x1000_0000;
    assert Power128(7) == 0x2_0000_0000_0000 by { assert Power128(6) == 0x400_0000_0000; }
    assert Power128(10) == 128 * 128 * 128 * Power128(7) by {
      assert Power128(9) == 128 * Power128(8);
    }
  }

  /** k bytes that say "more follows" and add nothing. */
  function Continued(k: nat, s: Bytes): Bytes { if k == 0 then s else [128] + Continued(k - 1, s) }

  function Shifted(n: nat, k: nat): nat { if k == 0 then n else 128 * Shifted(n, k - 1) }

  lemma {:induction false} ContinuedParses(k: nat, s: Bytes, at: nat)
    requires at + k <= 9
    ensures ConsumeVarint(s, at + k).None? ==> ConsumeVarint(Continued(k, s), at).None?
    ensures ConsumeVarint(s, at + k).Some? ==>
      ConsumeVarint(Continued(k, s), at)
      == Some((Shifted(ConsumeVarint(s, at + k).value.0, k), ConsumeVarint(s, at + k).value.1))
    decreases k
  {
    if k == 0 {
    } else {
      ContinuedParses(k - 1, s, at + 1);
      assert Continued(k, s)[1..] == Continued(k - 1, s);
    }
  }

  /** A tenth byte may only add the 64th bit. */
  lemma VarintOverflows(b: byte, rest: Bytes)
    ensures ConsumeVarint(Continued(9, [b] + rest), 0).Some? <==> b < 2
    ensures ConsumeVarint(Continued(9, [1] + rest), 0) == Some((0x8000_0000_0000_0000, rest))
  {
    ContinuedParses(9, [b] + rest, 0);
    ContinuedParses(9, [1] + rest, 0);
    assert Shifted(1, 3) == 0x20_0000;
    assert Shifted(1, 6) == 0x400_0000_0000 by { assert Shifted(1, 5) == 0x8_0000_0000; }
    assert Shifted(1, 8) == 0x100_0000_0000_0000;
    assert ([1] + rest)[1..] == rest;
  }

  function ConsumeBytes(s: Bytes): (r: Option<(Bytes, Bytes)>)
    ensures r.Some? ==> |r.value.1| < |s|
  {
    match ConsumeVarint(s, 0)
    case None => None
    case Some((n, rest)) => if n <= |rest| then Some((rest[..n], rest[n..])) else None
  }

  // ---- Fields ----

  // A tag is the field number times eight plus the wire type: 2 for a string, 0 for a varint.
  const SOURCE_ID: nat := 10
  const TARGET_ID: nat := 18
  const MID: nat := 24
  const SID: nat := 34
  const UID: nat := 40
  const ROUTE: nat := 48

  predicate StringField(tag: nat) { tag == SOURCE_ID || tag == TARGET_ID || tag == SID }

  predicate UintField(tag: nat) { tag == MID || tag == UID || tag == ROUTE }

  function GetString(c: MsgCommon, tag: nat): Bytes
    requires StringField(tag)
  {
    if tag == SOURCE_ID then c.sourceId else if tag == TARGET_ID then c.targetId else c.sid
  }

  function SetString(c: MsgCommon, tag: nat, v: Bytes): MsgCommon
    requires StringField(tag)
  {
    if tag == SOURCE_ID then c.(sourceId := v) else if tag == TARGET_ID then c.(targetId := v) else c.(sid := v)
  }

  function GetUint(c: MsgCommon, tag: nat): uint64
    requires UintField(tag)
  {
    if tag == MID then c.mid else if tag == UID then c.uid else c.route
  }

  /** A 32-bit field keeps the low 32 bits of the varint. */
  function SetUint(c: MsgCommon, tag: nat, v: nat): MsgCommon
    requires UintField(tag)
  {
    if tag == MID then c.(mid := v % TWO_32)
    else if tag == UID then c.(uid := v % TWO_64)
    else c.(route := v % TWO_32)
  }

  function EncodeString(tag: nat, s: Bytes): Bytes {
    if s == [] then [] else EncodeVarint(tag) + EncodeVarint(|s|) + s
  }

  function EncodeUint(tag: nat, v: nat): Bytes {
    if v == 0 then [] else EncodeVarint(tag) + EncodeVarint(v)
  }

  /** The last three fields, in field-number order. */
  function EncodeTail(c: MsgCommon): Bytes {
    EncodeString(SID, c.sid) + (EncodeUint(UID, c.uid) + EncodeUint(ROUTE, c.route))
  }

  function EncodeFields(c: MsgCommon): Bytes {
    EncodeString(SOURCE_ID, c.sourceId)
    + (EncodeString(TARGET_ID, c.targetId) + (EncodeUint(MID, c.mid) + EncodeTail(c)))
  }

  /** A string that is not valid UTF-8 makes the marshaller fail. */
  function MarshalCommon(c: MsgCommon): Option<Bytes> {
    if ValidString(c.sourceId) && ValidString(c.targetId) && ValidString(c.sid) then Some(EncodeFields(c)) else None
  }

  /** Reads the remaining fields into c. A tag outside the schema ends the decoding here. */
  function MergeCommon(s: Bytes, c: MsgCommon): Option<MsgCommon>
    decreases |s|
  {
    if s == [] then Some(c) else
    match ConsumeVarint(s, 0)
    case None => None
    case Some((tag, rest)) =>
      if StringField(tag) then
        match ConsumeBytes(rest)
        case None => None
        case Some((v, rest')) =>
          if ValidUtf8(v) then MergeCommon(rest', SetString(c, tag, v)) else None
      else if UintField(tag) then
        match ConsumeVarint(rest, 0)
        case None => None
        case Some((v, rest')) => MergeCommon(rest', SetUint(c, tag, v))
      else None
  }

  function UnmarshalCommon(s: Bytes): Option<MsgCommon> {
    MergeCommon(s, EMPTY_COMMON)
  }

  // ---- Round trip ----

  lemma TagRoundTrip(tag: nat, rest: Bytes)
    requires tag < 128
    ensures ConsumeVarint(EncodeVarint(tag) + rest, 0) == Some((tag, rest))
  {
    VarintCapIs64Bits();
    VarintRoundTrip(tag, rest, 0);
  }

  lemma ConsumeBytesRoundTrip(s: Bytes, rest: Bytes)
    requires |s| < TWO_64
    ensures ConsumeBytes(EncodeVarint(|s|) + (s + rest)) == Some((s, rest))
  {
    VarintCapIs64Bits();
    VarintRoundTrip(|s|, s + rest, 0);
    assert (s + rest)[..|s|] == s && (s + rest)[|s|..] == rest;
  }

  /** One string field at the head of the input is merged and consumed. */
  lemma MergeStep(whole: Bytes, tag: nat, body: Bytes, v: Bytes, rest: Bytes, c: MsgCommon)
    requires StringField(tag) && ValidUtf8(v)
    requires ConsumeVarint(whole, 0) == Some((tag, body)) && ConsumeBytes(body) == Some((v, rest))
    ensures MergeCommon(whole, c) == MergeCommon(rest, SetString(c, tag, v))
  {
  }

  lemma MergeStringField(tag: nat, s: Bytes, rest: Bytes, c: MsgCommon)
    requires StringField(tag) && ValidString(s) && (s == [] ==> GetString(c, tag) == [])
    ensures MergeCommon(EncodeString(tag, s) + rest, c) == MergeCommon(rest, SetString(c, tag, s))
  {
    if s == [] {
      assert EncodeString(tag, s) + rest == rest;
      assert SetString(c, tag, s) == c;
    } else {
      var body := EncodeVarint(|s|) + (s + rest);
      assert EncodeString(tag, s) + rest == EncodeVarint(tag) + body;
      TagRoundTrip(tag, body);
      ConsumeBytesRoundTrip(s, rest);
      MergeStep(EncodeString(tag, s) + rest, tag, body, s, rest, c);
    }
  }

  lemma MergeUintField(tag: nat, v: uint64, rest: Bytes, c: MsgCommon)
    requires UintField(tag) && (v == 0 ==> GetUint(c, tag) == 0)
    ensures MergeCommon(EncodeUint(tag, v) + rest, c) == MergeCommon(rest, SetUint(c, tag, v))
  {
    if v == 0 {
      assert EncodeUint(tag, v) + rest == rest;
      assert SetUint(c, tag, v) == c;
    } else {
      var body := EncodeVarint(v) + rest;
      assert EncodeUint(tag, v) + rest == EncodeVarint(tag) + body;
      TagRoundTrip(tag, body);
      VarintCapIs64Bits();
      VarintRoundTrip(v, rest, 0);
    }
  }

  lemma RouteRoundTrip(c: MsgCommon, base: MsgCommon)
    requires base.route == 0
    ensures MergeCommon(EncodeUint(ROUTE, c.route), base) == Some(base.(route := c.route))
  {
    assert EncodeUint(ROUTE, c.route) + [] == EncodeUint(ROUTE, c.route);
    MergeUintField(ROUTE, c.route, [], base);
  }

  lemma UidRoundTrip(c: MsgCommon, base: MsgCommon)
    requires base.uid == 0 && base.route == 0
    ensures MergeCommon(EncodeUint(UID, c.uid) + EncodeUint(ROUTE, c.route), base)
         == Some(base.(uid := c.uid, route := c.route))
  {
    var next := SetUint(base, UID, c.uid);
    assert next == base.(uid := c.uid);
    RouteRoundTrip(c, next);
    MergeUintField(UID, c.uid, EncodeUint(ROUTE, c.route), base);
  }

  lemma TailRoundTrip(c: MsgCommon, base: MsgCommon)
    requires ValidString(c.sid) && base.sid == [] && base.uid == 0 && base.route == 0
    ensures MergeCommon(EncodeTail(c), base) == Some(base.(sid := c.sid, uid := c.uid, route := c.route))
  {
    MergeStringField(SID, c.sid, EncodeUint(UID, c.uid) + EncodeUint(ROUTE, c.route), base);
    UidRoundTrip(c, base.(sid := c.sid));
  }

  lemma MidRoundTrip(c: MsgCommon, base: MsgCommon)
    requires ValidString(c.sid) && base.mid == 0 && base.sid == [] && base.uid == 0 && base.route == 0
    ensures MergeCommon(EncodeUint(MID, c.mid) + EncodeTail(c), base)
         == Some(base.(mid := c.mid, sid := c.sid, uid := c.uid, route := c.route))
  {
    var tail := EncodeTail(c);
    var next := SetUint(base, MID, c.mid);
    assert next == base.(mid := c.mid);
    TailRoundTrip(c, next);
    MergeUintField(MID, c.mid, tail, base);
  }

  lemma TargetRoundTrip(c: MsgCommon, base: MsgCommon)
    requires ValidString(c.targetId) && ValidString(c.sid)
    requires base.targetId == [] && base.mid == 0 && base.sid == [] && base.uid == 0 && base.route == 0
    ensures MergeCommon(EncodeString(TARGET_ID, c.targetId) + (EncodeUint(MID, c.mid) + EncodeTail(c)), base)
         == Some(c.(sourceId := base.sourceId))
  {
    MergeStringField(TARGET_ID, c.targetId, EncodeUint(MID, c.mid) + EncodeTail(c), base);
    MidRoundTrip(c, base.(targetId := c.targetId));
  }

  /** Decoding the encoding of any header gives that header back. */
  lemma CommonRoundTrip(c: MsgCommon)
    requires MarshalCommon(c).Some?
    ensures UnmarshalCommon(MarshalCommon(c).value) == Some(c)
  {
    var rest := EncodeString(TARGET_ID, c.targetId) + (EncodeUint(MID, c.mid) + EncodeTail(c));
    MergeStringField(SOURCE_ID, c.sourceId, rest, EMPTY_COMMON);
    TargetRoundTrip(c, EMPTY_COMMON.(sourceId := c.sourceId));
  }

  /** A repeated field: the last one wins. */
  lemma LastWins(tag: nat, s: Bytes, t: Bytes, rest: Bytes, c: MsgCommon)
    requires StringField(tag) && ValidString(s) && ValidString(t) && s != [] && t != []
    ensures MergeCommon(EncodeString(tag, s) + (EncodeString(tag, t) + rest), c)
         == MergeCommon(rest, SetString(c, tag, t))
  {
    hide EncodeString, ValidString, MergeCommon;
    MergeStringField(tag, s, EncodeString(tag, t) + rest, c);
    MergeStringField(tag, t, rest, SetString(c, tag, s));
  }

  /** Mid and Route keep the low 32 bits of what is sent for them. */
  lemma WideUints(v: uint64)
    ensures UnmarshalCommon(EncodeUint(MID, v)) == Some(MsgCommon([], [], v % 0x1_0000_0000, [], 0, 0))
    ensures UnmarshalCommon(EncodeUint(ROUTE, v)) == Some(MsgCommon([], [], 0, [], 0, v % 0x1_0000_0000))
  {
    assert EncodeUint(MID, v) + [] == EncodeUint(MID, v) && EncodeUint(ROUTE, v) + [] == EncodeUint(ROUTE, v);
    MergeUintField(MID, v, [], EMPTY_COMMON);
    MergeUintField(ROUTE, v, [], EMPTY_COMMON);
  }

  /** A string that is not UTF-8 makes the decoder fail. */
  lemma BadString(tag: nat, s: Bytes, rest: Bytes, c: MsgCommon)
    requires StringField(tag) && |s| < TWO_64 && !ValidUtf8(s)
    ensures MergeCommon(EncodeString(tag, s) + rest, c).None?
  {
    hide ValidUtf8;
    assert s != [] by { EmptyIsUtf8(); }
    var body := EncodeVarint(|s|) + (s + rest);
    assert EncodeString(tag, s) + rest == EncodeVarint(tag) + body;
    TagRoundTrip(tag, body);
    ConsumeBytesRoundTrip(s, rest);
  }

  lemma EmptyIsUtf8()
    ensures ValidUtf8([])
  {
  }

  // ---- The bytes on the wire ----

  /** A string field and an integer field as the encoding has them: the field number with the wire type, and
      nothing at all for a default value. */
  function LengthDelimited(number: nat, s: Bytes): Bytes
    requires 1 <= number <= 6
  {
    if s == [] then [] else [8 * number + 2] + EncodeVarint(|s|) + s
  }

  function VarintField(number: nat, v: nat): Bytes
    requires 1 <= number <= 6
  {
    if v == 0 then [] else [8 * number] + EncodeVarint(v)
  }

  lemma FieldNumber(tag: nat, s: Bytes, v: nat)
    requires StringField(tag) || UintField(tag)
    ensures StringField(tag) ==> EncodeString(tag, s) == LengthDelimited(tag / 8, s)
    ensures UintField(tag) ==> EncodeUint(tag, v) == VarintField(tag / 8, v)
  {
    assert EncodeVarint(tag) == [tag];
  }

  lemma InOneRow(a: Bytes, b: Bytes, c: Bytes, d: Bytes, e: Bytes, f: Bytes)
    ensures a + (b + (c + (d + (e + f)))) == a + b + c + d + e + f
  {
  }

  /** The six fields under the numbers they are declared with. */
  lemma FieldNumbers(c: MsgCommon)
    requires MarshalCommon(c).Some?
    ensures MarshalCommon(c).value ==
      LengthDelimited(1, c.sourceId) + LengthDelimited(2, c.targetId) + VarintField(3, c.mid)
      + LengthDelimited(4, c.sid) + VarintField(5, c.uid) + VarintField(6, c.route)
  {
    hide ValidString, EncodeString, EncodeUint, LengthDelimited, VarintField;
    FieldNumber(SOURCE_ID, c.sourceId, 0);
    FieldNumber(TARGET_ID, c.targetId, 0);
    FieldNumber(MID, [], c.mid);
    FieldNumber(SID, c.sid, 0);
    FieldNumber(UID, [], c.uid);
    FieldNumber(ROUTE, [], c.route);
    InOneRow(LengthDelimited(1, c.sourceId), LengthDelimited(2, c.targetId), VarintField(3, c.mid),
             LengthDelimited(4, c.sid), VarintField(5, c.uid), VarintField(6, c.route));
  }

  lemma SampleHeader()
    ensures MarshalCommon(MsgCommon([97], [98], 1, [99], 2, 300))
         == Some([10, 1, 97, 18, 1, 98, 24, 1, 34, 1, 99, 40, 2, 48, 172, 2])
  {
    hide EncodeFields;
    var c := MsgCommon([97], [98], 1, [99], 2, 300);
    assert [97][1..] == [] && [98][1..] == [] && [99][1..] == [];
    assert ValidString([97]) && ValidString([98]) && ValidString([99]);
    FieldNumbers(c);
    assert EncodeVarint(300) == [172] + EncodeVarint(2) && EncodeVarint(2) == [2] && EncodeVarint(1) == [1];
    assert LengthDelimited(1, c.sourceId) == [10, 1, 97] && LengthDelimited(2, c.targetId) == [18, 1, 98];
    assert VarintField(3, c.mid) == [24, 1] && LengthDelimited(4, c.sid) == [34, 1, 99];
    assert VarintField(5, c.uid) == [40, 2] && VarintField(6, c.route) == [48, 172, 2];
    assert MarshalCommon(c).value == [10, 1, 97] + [18, 1, 98] + [24, 1] + [34, 1, 99] + [40, 2] + [48, 172, 2];
    assert MarshalCommon(c).value == [10, 1, 97, 18, 1, 98, 24, 1, 34, 1, 99, 40, 2, 48, 172, 2];
  }

  /** Two headers with the same encoding are the same header. */
  lemma MarshalCommonInjective(c: MsgCommon, d: MsgCommon)
    requires MarshalCommon(c).Some? && MarshalCommon(c) == MarshalCommon(d)
    ensures c == d
  {
    CommonRoundTrip(c);
    CommonRoundTrip(d);
  }

  // ---- Encodings that are cut ----

  lemma {:induction false} CutVarint(n: nat, m: nat, k: nat)
    requires k <= 9 && n < VarintCap(k) && m < |EncodeVarint(n)|
    ensures ConsumeVarint(EncodeVarint(n)[..m], k).None?
    decreases n
  {
    if n >= 128 && m > 0 {
      assert EncodeVarint(n)[..m][1..] == EncodeVarint(n / 128)[..m - 1];
      CutVarint(n / 128, m - 1, k + 1);
    }
  }

  /** No part of the encoding but the whole decodes to a header with a route. */
  ghost predicate RoutelessWhenCut(s: Bytes, c: MsgCommon) {
    forall m :: 0 <= m < |s| && MergeCommon(s[..m], c).Some? ==> MergeCommon(s[..m], c).value.route == 0
  }

  lemma CutBytes(s: Bytes, m: nat)
    requires |s| < TWO_64 && m < |EncodeVarint(|s|)| + |s|
    ensures ConsumeBytes((EncodeVarint(|s|) + s)[..m]).None?
  {
    var len := EncodeVarint(|s|);
    VarintCapIs64Bits();
    if m < |len| {
      assert (len + s)[..m] == len[..m];
      CutVarint(|s|, m, 0);
    } else {
      assert (len + s)[..m] == len + s[..m - |len|];
      VarintRoundTrip(|s|, s[..m - |len|], 0);
    }
  }

  lemma MergeStops(whole: Bytes, tag: nat, body: Bytes, c: MsgCommon)
    requires StringField(tag) && ConsumeVarint(whole, 0) == Some((tag, body)) && ConsumeBytes(body).None?
    ensures MergeCommon(whole, c).None?
  {
  }

  lemma CutString(tag: nat, s: Bytes, m: nat, c: MsgCommon)
    requires StringField(tag) && ValidString(s) && 0 < m < |EncodeString(tag, s)|
    ensures MergeCommon(EncodeString(tag, s)[..m], c).None?
  {
    hide ConsumeVarint, ConsumeBytes, MergeCommon, ValidUtf8;
    var body := (EncodeVarint(|s|) + s)[..m - 1];
    assert EncodeString(tag, s)[..m] == EncodeVarint(tag) + body;
    TagRoundTrip(tag, body);
    CutBytes(s, m - 1);
    MergeStops(EncodeString(tag, s)[..m], tag, body, c);
  }

  lemma CutUint(tag: nat, v: uint64, m: nat, c: MsgCommon)
    requires UintField(tag) && 0 < m < |EncodeUint(tag, v)|
    ensures MergeCommon(EncodeUint(tag, v)[..m], c).None?
  {
    var body := EncodeVarint(v)[..m - 1];
    assert EncodeUint(tag, v)[..m] == EncodeVarint(tag) + body;
    TagRoundTrip(tag, body);
    VarintCapIs64Bits();
    CutVarint(v, m - 1, 0);
  }

  lemma StringThenCut(tag: nat, s: Bytes, rest: Bytes, c: MsgCommon)
    requires StringField(tag) && ValidString(s) && GetString(c, tag) == [] && c.route == 0
    requires RoutelessWhenCut(rest, SetString(c, tag, s))
    ensures RoutelessWhenCut(EncodeString(tag, s) + rest, c)
  {
    hide EncodeString, ValidString;
    var field := EncodeString(tag, s);
    forall m | 0 <= m < |field + rest| && MergeCommon((field + rest)[..m], c).Some?
      ensures MergeCommon((field + rest)[..m], c).value.route == 0
    {
      if m == 0 {
        assert (field + rest)[..m] == [];
      } else if m < |field| {
        assert (field + rest)[..m] == field[..m];
        CutString(tag, s, m, c);
      } else {
        assert (field + rest)[..m] == field + rest[..m - |field|];
        MergeStringField(tag, s, rest[..m - |field|], c);
      }
    }
  }

  lemma UintThenCut(tag: nat, v: uint64, rest: Bytes, c: MsgCommon)
    requires UintField(tag) && GetUint(c, tag) == 0 && (tag != UID ==> v < TWO_32) && c.route == 0
    requires RoutelessWhenCut(rest, SetUint(c, tag, v))
    ensures RoutelessWhenCut(EncodeUint(tag, v) + rest, c)
  {
    hide EncodeUint;
    var field := EncodeUint(tag, v);
    forall m | 0 <= m < |field + rest| && MergeCommon((field + rest)[..m], c).Some?
      ensures MergeCommon((field + rest)[..m], c).value.route == 0
    {
      if m == 0 {
        assert (field + rest)[..m] == [];
      } else if m < |field| {
        assert (field + rest)[..m] == field[..m];
        CutUint(tag, v, m, c);
      } else {
        assert (field + rest)[..m] == field + rest[..m - |field|];
        MergeUintField(tag, v, rest[..m - |field|], c);
      }
    }
  }

  lemma CutTail(c: MsgCommon, base: MsgCommon)
    requires ValidString(c.sid) && base.sid == [] && base.uid == 0 && base.route == 0
    ensures RoutelessWhenCut(EncodeTail(c), base)
  {
    hide ValidString, EncodeString, EncodeUint, MergeCommon;
    var withSid := SetString(base, SID, c.sid);
    var withUid := SetUint(withSid, UID, c.uid);
    assert EncodeUint(ROUTE, c.route) + [] == EncodeUint(ROUTE, c.route);
    UintThenCut(ROUTE, c.route, [], withUid);
    UintThenCut(UID, c.uid, EncodeUint(ROUTE, c.route), withSid);
    StringThenCut(SID, c.sid, EncodeUint(UID, c.uid) + EncodeUint(ROUTE, c.route), base);
  }

  /** Route is encoded last, so a header that is cut either does not decode or decodes without one. */
  lemma CutHeader(c: MsgCommon, m: nat)
    requires MarshalCommon(c).Some? && m < |MarshalCommon(c).value|
    ensures var r := UnmarshalCommon(MarshalCommon(c).value[..m]); r.Some? ==> r.value.route == 0
  {
    hide ValidString, EncodeString, EncodeUint, EncodeTail, MergeCommon;
    var withSource := SetString(EMPTY_COMMON, SOURCE_ID, c.sourceId);
    var withTarget := SetString(withSource, TARGET_ID, c.targetId);
    CutTail(c, SetUint(withTarget, MID, c.mid));
    UintThenCut(MID, c.mid, EncodeTail(c), withTarget);
    var afterTarget := EncodeUint(MID, c.mid) + EncodeTail(c);
    StringThenCut(TARGET_ID, c.targetId, afterTarget, withSource);
    StringThenCut(SOURCE_ID, c.sourceId, EncodeString(TARGET_ID, c.targetId) + afterTarget, EMPTY_COMMON);
  }

  // ---- Size ----

  lemma StringFieldLength(tag: nat, s: Bytes)
    requires StringField(tag) && |s| <= 65500
    ensures |EncodeString(tag, s)| <= 4 + |s|
  {
    PowersOf128();
    VarintLength(|s|, 3);
  }

  lemma UintFieldLength(tag: nat, v: uint64)
    requires UintField(tag)
    ensures |EncodeUint(tag, v)| <= 11
    ensures v < TWO_32 ==> |EncodeUint(tag, v)| <= 6
  {
    PowersOf128();
    VarintLength(v, 10);
    if v < TWO_32 { VarintLength(v, 5); }
  }

  /** Tags, lengths and integers cost at most 35 bytes, so strings of 65500 bytes in all still fit the
      16-bit length of the frame. */
  lemma CommonFitsFrame(c: MsgCommon)
    requires MarshalCommon(c).Some?
    requires |c.sourceId| + |c.targetId| + |c.sid| <= 65500
    ensures |MarshalCommon(c).value| <= |c.sourceId| + |c.targetId| + |c.sid| + 35
    ensures |MarshalCommon(c).value| < TWO_16
  {
    StringFieldLength(SOURCE_ID, c.sourceId);
    StringFieldLength(TARGET_ID, c.targetId);
    StringFieldLength(SID, c.sid);
    UintFieldLength(MID, c.mid);
    UintFieldLength(UID, c.uid);
    UintFieldLength(ROUTE, c.route);
  }
}

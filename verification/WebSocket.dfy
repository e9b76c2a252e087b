/** ws_connector.go: WSConn.Read presents the messages of a websocket as one byte stream. */
module WebSocket {
  import opened Base

  datatype WsMessage = WsMessage(typ: nat, payload: Bytes)

  /** The reader of the current message (what it still holds), the type noted for it, and the messages
      the peer will still send before the connection ends. */
  datatype WsState = WsState(reader: Option<Bytes>, typ: nat, incoming: seq<WsMessage>)

  /** How the message reader behaves in one call: it may give less than there is room for, and it may
      report the end of the message together with its last bytes (`eager`) or on a call of its own; or the
      call returns an error other than the end of the message with its bytes (`fault`). */
  datatype ReadCall = ReadCall(room: nat, give: nat, eager: bool, fault: bool)

  datatype ReadOutcome = ReadOutcome(state: WsState, data: Bytes, failed: bool)

  function Min(a: nat, b: nat): nat { if a <= b then a else b }

  /** The current message, taken from the connection if none was opened yet. */
  function Open(st: WsState): WsState {
    if st.reader.None? && st.incoming != [] then
      WsState(Some(st.incoming[0].payload), st.incoming[0].typ, st.incoming[1..])
    else st
  }

  function Given(left: Bytes, call: ReadCall): Bytes {
    left[..Min(|left|, Min(call.room, call.give))]
  }

  predicate ReportsEnd(left: Bytes, call: ReadCall) {
    left == [] || (call.eager && Given(left, call) == left)
  }

  function ReadStep(st: WsState, call: ReadCall): ReadOutcome {
    var cur := Open(st);
    if cur.reader.None? then ReadOutcome(cur, [], true) else
    var left := cur.reader.value;
    var data := Given(left, call);
    if call.fault then ReadOutcome(cur.(reader := Some(left[|data|..])), data, true)
    else if !ReportsEnd(left, call) then ReadOutcome(cur.(reader := Some(left[|data|..])), data, false)
    else if cur.incoming == [] then ReadOutcome(cur.(reader := Some(left[|data|..])), [], true)
    else ReadOutcome(cur.(reader := Some(cur.incoming[0].payload), incoming := cur.incoming[1..]), data, false)
  }

  class WSConn {
    var reader: Option<Bytes>
    var typ: nat
    var incoming: seq<WsMessage>

    function View(): WsState
      reads this
    {
      WsState(reader, typ, incoming)
    }

    constructor (messages: seq<WsMessage>)
      ensures View() == WsState(None, 0, messages)
    {
      reader, typ, incoming := None, 0, messages;
    }

    method NextReader() returns (r: Option<WsMessage>)
      modifies this`incoming
      ensures old(incoming) == [] ==> r == None && incoming == []
      ensures old(incoming) != [] ==> r == Some(old(incoming)[0]) && incoming == old(incoming)[1..]
    {
      if incoming == [] { return None; }
      r, incoming := Some(incoming[0]), incoming[1..];
    }

    /** Fills b and returns how many bytes count, with a failure or without. */
    method Read(b: array<byte>, give: nat, eager: bool, fault: bool) returns (n: nat, failed: bool)
      modifies this, b
      ensures n <= b.Length
      ensures ReadOutcome(View(), b[..n], failed) == ReadStep(old(View()), ReadCall(b.Length, give, eager, fault))
    {
      var call := ReadCall(b.Length, give, eager, fault);
      if reader.None? {
        var next := NextReader();
        if next.None? { return 0, true; }
        typ := next.value.typ;
        reader := Some(next.value.payload);
      }
      var left := reader.value;
      var data := Given(left, call);
      forall i | 0 <= i < |data| { b[i] := data[i]; }
      reader := Some(left[|data|..]);
      assert b[..|data|] == data;
      if fault { return |data|, true; }
      if ReportsEnd(left, call) {
        var next := NextReader();
        if next.None? { return 0, true; }
        reader := Some(next.value.payload);
      }
      return |data|, false;
    }
  }

  function Payloads(ms: seq<WsMessage>): Bytes {
    if ms == [] then [] else ms[0].payload + Payloads(ms[1..])
  }

  /** The bytes not handed out yet. */
  function Pending(st: WsState): Bytes {
    (if st.reader.Some? then st.reader.value else []) + Payloads(st.incoming)
  }

  /** The bytes one call swallows: those that came with the end of the last message, when opening the
      next message fails and the call returns 0. */
  function Swallowed(st: WsState, call: ReadCall): Bytes {
    var cur := Open(st);
    if cur.reader.Some? && cur.incoming == [] && !call.fault && ReportsEnd(cur.reader.value, call)
    then cur.reader.value else []
  }

  lemma OpenKeepsPending(st: WsState)
    ensures Pending(Open(st)) == Pending(st)
  {
  }

  lemma SplitPending(left: Bytes, data: Bytes, more: Bytes)
    requires |data| <= |left| && data == left[..|data|]
    ensures left + more == data + (left[|data|..] + more)
  {
    assert left == data + left[|data|..];
  }

  /** One call hands out the next bytes of the stream; nothing is lost, repeated or reordered but what
      it swallows. Without a fault of the reader it fails only when nothing is left. */
  lemma ReadStepConserves(st: WsState, call: ReadCall)
    ensures var r := ReadStep(st, call);
      && Pending(st) == r.data + Swallowed(st, call) + Pending(r.state)
      && (r.failed && !call.fault ==> r.data == [] && Pending(r.state) == [])
      && (!r.failed ==> Swallowed(st, call) == [])
  {
    var r, cur := ReadStep(st, call), Open(st);
    OpenKeepsPending(st);
    if cur.reader.Some? {
      var left := cur.reader.value;
      var data := Given(left, call);
      SplitPending(left, data, Payloads(cur.incoming));
      if call.fault || !ReportsEnd(left, call) {
        assert Swallowed(st, call) == [];
        assert r.data + [] == r.data;
      } else if cur.incoming == [] {
        assert Pending(cur) == left + [] == left;
        assert Swallowed(st, call) == left && left[|data|..] == [];
        assert [] + left + [] == left;
      } else {
        assert data == left && Pending(r.state) == Payloads(cur.incoming);
        assert data + [] == data;
      }
    }
  }

  /** A call without a failure hands out as much of the current message as fits the buffer and the reader
      gives, and passes on to the next message at its end. */
  lemma CallCounts(st: WsState, call: ReadCall)
    requires Open(st).reader.Some? && !ReadStep(st, call).failed
    ensures var left, r := Open(st).reader.value, ReadStep(st, call);
      && r.data <= left && (|r.data| == |left| || |r.data| == call.room || |r.data| == call.give)
      && |r.data| <= call.room && |r.data| <= call.give
  {
  }

  /** The pieces handed out, and the bytes that came with the failure; io.ReadAll's callers drop those. */
  datatype RunOutcome = RunOutcome(state: WsState, pieces: seq<Bytes>, tail: Bytes, failed: bool)

  /** Calls made one after the other, up to the first failure. */
  function ReadRun(st: WsState, calls: seq<ReadCall>): RunOutcome
    decreases |calls|
  {
    if calls == [] then RunOutcome(st, [], [], false) else
    var first := ReadStep(st, calls[0]);
    if first.failed then RunOutcome(first.state, [], first.data, true) else
    var more := ReadRun(first.state, calls[1..]);
    RunOutcome(more.state, [first.data] + more.pieces, more.tail, more.failed)
  }

  /** A connection before the first call. */
  function Fresh(ms: seq<WsMessage>): WsState { WsState(None, 0, ms) }

  /** The bytes that calls on a fresh connection hand out before one fails. */
  function HandedOut(ms: seq<WsMessage>, calls: seq<ReadCall>): Bytes { Flatten(ReadRun(Fresh(ms), calls).pieces) }

  /** Some call of the run fails, and p holds of it and the state it was made in. */
  predicate AtFailure(st: WsState, calls: seq<ReadCall>, p: (WsState, ReadCall) -> bool)
    decreases |calls|
  {
    && calls != []
    && if ReadStep(st, calls[0]).failed then p(st, calls[0]) else AtFailure(ReadStep(st, calls[0]).state, calls[1..], p)
  }

  /** The bytes the failing call of a run swallows. */
  function RunSwallowed(st: WsState, calls: seq<ReadCall>): Bytes
    decreases |calls|
  {
    if calls == [] then []
    else if ReadStep(st, calls[0]).failed then Swallowed(st, calls[0])
    else RunSwallowed(ReadStep(st, calls[0]).state, calls[1..])
  }

  /** Over any run of calls with any buffer sizes, empty messages and faults included: the bytes handed
      out, those that came with the failure, what the failing call swallowed and what is left make up the
      payloads, in this order. */
  lemma {:induction false} ReadRunConserves(st: WsState, calls: seq<ReadCall>)
    ensures var r := ReadRun(st, calls);
      && Pending(st) == Flatten(r.pieces) + r.tail + RunSwallowed(st, calls) + Pending(r.state)
      && (!r.failed ==> r.tail == [] && RunSwallowed(st, calls) == [])
    decreases |calls|
  {
    hide ReadStep, Swallowed, Pending, Flatten;
    if calls == [] {
      FlattenNil();
    } else {
      var first := ReadStep(st, calls[0]);
      ReadStepConserves(st, calls[0]);
      if first.failed {
        FlattenNil();
        assert [] + first.data == first.data;
      } else {
        var more, lost := ReadRun(first.state, calls[1..]), RunSwallowed(first.state, calls[1..]);
        ReadRunConserves(first.state, calls[1..]);
        FlattenCons(first.data, more.pieces);
        Regroup(first.data, Flatten(more.pieces), more.tail, lost, Pending(more.state));
      }
    }
  }

  lemma FlattenNil()
    ensures Flatten<byte>([]) == []
  {
  }

  lemma FlattenCons(first: Bytes, rest: seq<Bytes>)
    ensures Flatten([first] + rest) == first + Flatten(rest)
  {
    assert ([first] + rest)[1..] == rest;
  }

  lemma Regroup(a: Bytes, b: Bytes, c: Bytes, d: Bytes, e: Bytes)
    ensures a + [] + (b + c + d + e) == (a + b) + c + d + e
  {
  }

  /** The reader gives all the rest of the last message in one call, and its end with it. */
  predicate CutsOff(st: WsState, call: ReadCall) {
    var cur := Open(st);
    && !call.fault && call.eager && cur.reader.Some? && cur.incoming == []
    && 0 < |cur.reader.value| <= Min(call.room, call.give)
  }

  /** The reader fails in mid-stream. */
  predicate BreaksOff(st: WsState, call: ReadCall) {
    call.fault && Pending(st) != []
  }

  lemma SwallowsIff(st: WsState, call: ReadCall)
    requires ReadStep(st, call).failed
    ensures Swallowed(st, call) != [] <==> CutsOff(st, call)
    ensures BreaksOff(st, call) <==> call.fault && ReadStep(st, call).data + Pending(ReadStep(st, call).state) != []
  {
    ReadStepConserves(st, call);
    var cur := Open(st);
    if call.fault {
      assert Pending(st) == ReadStep(st, call).data + Pending(ReadStep(st, call).state);
    } else if cur.reader.Some? && cur.incoming == [] {
      var left := cur.reader.value;
      assert Given(left, call) == left <==> |left| <= Min(call.room, call.give);
    }
  }

  /** Which runs lose bytes: a failing call swallows some exactly when the reader returned the last bytes
      of the last message together with their end; and a run that ended has handed out all payloads
      exactly when neither that nor a fault in mid-stream is how it ended. */
  lemma {:induction false} LosslessIff(st: WsState, calls: seq<ReadCall>)
    ensures RunSwallowed(st, calls) != [] <==> AtFailure(st, calls, CutsOff)
    ensures ReadRun(st, calls).failed ==>
      (Flatten(ReadRun(st, calls).pieces) == Pending(st) <==>
         !AtFailure(st, calls, CutsOff) && !AtFailure(st, calls, BreaksOff))
    decreases |calls|
  {
    hide ReadStep, Swallowed, Pending, Flatten, CutsOff, BreaksOff;
    if calls == [] {
    } else {
      var first := ReadStep(st, calls[0]);
      ReadStepConserves(st, calls[0]);
      if first.failed {
        SwallowsIff(st, calls[0]);
        FlattenNil();
        NothingLost(st, calls[0]);
      } else {
        LosslessIff(first.state, calls[1..]);
        FlattenCons(first.data, ReadRun(first.state, calls[1..]).pieces);
        SameRest(first.data, Flatten(ReadRun(first.state, calls[1..]).pieces), Pending(first.state));
      }
    }
  }

  lemma NothingLost(st: WsState, call: ReadCall)
    requires ReadStep(st, call).failed
    ensures Pending(st) == [] <==> !CutsOff(st, call) && !BreaksOff(st, call)
  {
    ReadStepConserves(st, call);
    SwallowsIff(st, call);
  }

  lemma SameRest(a: Bytes, b: Bytes, c: Bytes)
    ensures a + b == a + [] + c <==> b == c
  {
    assert (a + b)[|a|..] == b && (a + [] + c)[|a|..] == c;
    assert b == c ==> a + b == a + [] + c;
  }

  /** The type noted is that of the first message, whatever is read. */
  lemma {:induction false} TypeIsFirst(ms: seq<WsMessage>, calls: seq<ReadCall>)
    requires ms != [] && calls != []
    ensures ReadRun(Fresh(ms), calls).state.typ == ms[0].typ
  {
    var first := ReadStep(Fresh(ms), calls[0]);
    assert first.state.reader.Some? && first.state.typ == ms[0].typ;
    if !first.failed { TypeStays(first.state, calls[1..]); }
  }

  lemma {:induction false} TypeStays(st: WsState, calls: seq<ReadCall>)
    requires st.reader.Some?
    ensures ReadRun(st, calls).state.typ == st.typ
    decreases |calls|
  {
    if calls == [] {
    } else {
      var first := ReadStep(st, calls[0]);
      assert first.state.reader.Some? && first.state.typ == st.typ;
      if !first.failed { TypeStays(first.state, calls[1..]); }
    }
  }

  /** How much there is left to do: the bytes, and the ends of the messages. */
  function Left(st: WsState): nat { |Pending(st)| + |st.incoming| + if st.reader.Some? then 1 else 0 }

  /** Calls with some room, and a reader that gives what it can and its ends on their own, reach the end of
      the connection, and have then handed out all payloads. */
  lemma {:induction false} EverythingArrives(st: WsState, room: nat) returns (calls: seq<ReadCall>)
    requires room > 0
    ensures forall i :: 0 <= i < |calls| ==> calls[i] == ReadCall(room, room, false, false)
    ensures ReadRun(st, calls).failed && Flatten(ReadRun(st, calls).pieces) == Pending(st)
    decreases Left(st)
  {
    var call := ReadCall(room, room, false, false);
    var first := ReadStep(st, call);
    ReadStepConserves(st, call);
    if first.failed {
      calls := [call];
      assert Open(st).reader.Some? ==> Open(st).reader.value == [];
      assert Flatten<byte>([]) == [];
    } else {
      StepGetsOn(st, call);
      calls := EverythingArrives(first.state, room);
      var rest := ReadRun(first.state, calls);
      FlattenCons(first.data, rest.pieces);
      assert ([call] + calls)[1..] == calls;
      calls := [call] + calls;
      assert first.data + [] == first.data;
    }
  }

  lemma StepGetsOn(st: WsState, call: ReadCall)
    requires call.room > 0 && call.give > 0 && !call.eager && !ReadStep(st, call).failed
    ensures Left(ReadStep(st, call).state) < Left(st)
  {
    var r := ReadStep(st, call);
    OpenKeepsPending(st);
    ReadStepConserves(st, call);
    assert |Pending(st)| == |r.data| + |Pending(r.state)|;
    assert Open(st).reader.value != [] ==> |r.data| >= 1;
  }

  /** Two messages and an eager reader: the second message's bytes never arrive. */
  lemma EagerReaderLosesBytes()
    ensures var st := WsState(None, 0, [WsMessage(2, [1]), WsMessage(2, [7])]);
      var calls := [ReadCall(8, 8, true, false), ReadCall(8, 8, true, false)];
      ReadRun(st, calls).pieces == [[1]] && ReadRun(st, calls).failed && Pending(st) == [1, 7]
  {
    var st := WsState(None, 0, [WsMessage(2, [1]), WsMessage(2, [7])]);
    var call := ReadCall(8, 8, true, false);
    var st1 := WsState(Some([7]), 2, []);
    assert Given([1], call) == [1] && Given([7], call) == [7];
    assert st.incoming[1..] == [WsMessage(2, [7])] && Open(st).incoming[1..] == [];
    assert ReadStep(st, call) == ReadOutcome(st1, [1], false);
    assert ReadStep(st1, call).failed;
    assert ReadRun(st1, [call]) == RunOutcome(ReadStep(st1, call).state, [], [], true);
    assert [call, call][1..] == [call];
    assert Payloads(st.incoming) == [1] + Payloads([WsMessage(2, [7])]);
    assert Payloads([WsMessage(2, [7])]) == [7] + Payloads([]);
  }
}

/** The response encoder of a stream: whatever its handler does, the events it emits
    are one header block, body chunks, and one end. */
module H2Encoder {
  import opened Common
  import opened H2State
  import opened H2Machine

  // ---- The order of events that the connection relies on ----

  /** The phase after an event, if it may come now. */
  function PhaseAfterOne(phase: Phase, e: EventPayload): Option<Phase> {
    match e
    case HeadersEvent(_) => if phase == ExpectResponseHeaders then Some(ExpectResponseBody) else None
    case BodyChunk(_) => if phase == ExpectResponseBody then Some(ExpectResponseBody) else None
    case BodyEnd => if phase == ExpectResponseBody then Some(ResponseDone) else None
  }

  function PhaseAfter(phase: Phase, events: seq<EventPayload>): Option<Phase>
    decreases |events|
  {
    if events == [] then Some(phase)
    else match PhaseAfterOne(phase, events[0])
      case None => None
      case Some(next) => PhaseAfter(next, events[1..])
  }

  lemma {:induction false} PhaseAfterAppend(phase: Phase, a: seq<EventPayload>, b: seq<EventPayload>)
    ensures PhaseAfter(phase, a + b) ==
            if PhaseAfter(phase, a).None? then None else PhaseAfter(PhaseAfter(phase, a).value, b)
    decreases |a|
  {
    if a == [] {
      assert a + b == b;
    } else {
      assert (a + b)[0] == a[0] && (a + b)[1..] == a[1..] + b;
      if PhaseAfterOne(phase, a[0]).Some? {
        PhaseAfterAppend(PhaseAfterOne(phase, a[0]).value, a[1..], b);
      }
    }
  }

  ghost predicate AllChunks(events: seq<EventPayload>) {
    forall i :: 0 <= i < |events| ==> events[i].BodyChunk?
  }

  /** Headers BodyChunk* BodyEnd. */
  ghost predicate WholeResponse(events: seq<EventPayload>) {
    && |events| >= 2 && events[0].HeadersEvent? && events[|events| - 1].BodyEnd?
    && AllChunks(events[1..|events| - 1])
  }

  lemma {:induction false} BodyIsOver(events: seq<EventPayload>)
    ensures PhaseAfter(ExpectResponseBody, events) == Some(ResponseDone) <==>
            events != [] && events[|events| - 1].BodyEnd? && AllChunks(events[..|events| - 1])
    decreases |events|
  {
    if |events| == 1 {
      assert events[1..] == [];
    } else if |events| > 1 {
      var rest := events[1..];
      BodyIsOver(rest);
      assert events[..|events| - 1] == [events[0]] + rest[..|rest| - 1];
      if events[0].BodyEnd? {
        assert PhaseAfterOne(ResponseDone, events[1]).None?;
      }
    }
  }

  /** A stream of events is over exactly when it is a whole response. */
  lemma OverIffWhole(events: seq<EventPayload>)
    ensures PhaseAfter(ExpectResponseHeaders, events) == Some(ResponseDone) <==> WholeResponse(events)
  {
    if events != [] {
      BodyIsOver(events[1..]);
      if |events| >= 2 {
        assert events[1..][..|events[1..]| - 1] == events[1..|events| - 1];
      }
    }
  }

  // ---- The encoder ----

  datatype EncoderError = WrongState(expected: Phase, actual: Phase) | StreamReset

  /** The encoder, and what it has put into the channel. */
  datatype Encoded = Encoded(state: Phase, sent: seq<EventPayload>)

  datatype Call = WriteResponse(block: Bytes) | WriteBodyChunk(piece: Bytes) | WriteBodyEnd {
    function Payload(): EventPayload {
      match this
      case WriteResponse(block) => HeadersEvent(block)
      case WriteBodyChunk(piece) => BodyChunk(piece)
      case WriteBodyEnd => BodyEnd
    }

    function Expects(): Phase {
      if WriteResponse? then ExpectResponseHeaders else ExpectResponseBody
    }
  }

  function AfterCall(e: Encoded, call: Call, listening: bool): Encoded {
    if e.state != call.Expects() || !listening then e
    else Encoded(NextPhase(call.Payload()), e.sent + [call.Payload()])
  }

  /** What is left to send when the encoder is dropped: an error response if there was
      none, and the end of the body. */
  function Farewell(state: Phase, errorBlock: Bytes): seq<EventPayload> {
    match state
    case ExpectResponseHeaders => [HeadersEvent(errorBlock), BodyEnd]
    case ExpectResponseBody => [BodyEnd]
    case ResponseDone => []
  }

  class H2Encoder {
    var state: Phase
    var sent: seq<EventPayload>

    ghost function View(): Encoded
      reads this
    {
      Encoded(state, sent)
    }

    constructor ()
      ensures View() == Encoded(ExpectResponseHeaders, [])
    {
      state, sent := ExpectResponseHeaders, [];
    }

    /** `send`: fails once the connection no longer listens. */
    method Send(payload: EventPayload, listening: bool) returns (r: Result<(), EncoderError>)
      modifies this`sent
      ensures r == if listening then Ok(()) else Err(StreamReset)
      ensures sent == if listening then old(sent) + [payload] else old(sent)
    {
      if !listening {
        return Err(StreamReset);
      }
      sent := sent + [payload];
      return Ok(());
    }

    method Write(call: Call, listening: bool) returns (r: Result<(), EncoderError>)
      modifies this
      ensures View() == AfterCall(old(View()), call, listening)
      ensures r == if old(state) != call.Expects() then Err(WrongState(call.Expects(), old(state)))
                   else if listening then Ok(()) else Err(StreamReset)
    {
      if state != call.Expects() {
        return Err(WrongState(call.Expects(), state));
      }
      r := Send(call.Payload(), listening);
      if r.Ok? {
        state := NextPhase(call.Payload());
      }
    }

    /** `Drop`: a task sends what is left, until the connection stops listening after
        `heard` events. */
    method Drop(errorBlock: Bytes, heard: nat)
      modifies this`sent
      ensures var left := Farewell(state, errorBlock); sent == old(sent) + left[..Min(heard, |left|)]
    {
      var evs := [];
      match state {
        case ExpectResponseHeaders => evs := [HeadersEvent(errorBlock), BodyEnd];
        case ExpectResponseBody => evs := [BodyEnd];
        case ResponseDone =>
      }
      var i := 0;
      while i < |evs| && i < heard
        invariant i <= |evs| && i <= heard
        invariant sent == old(sent) + evs[..i]
      {
        var r := Send(evs[i], true);
        i := i + 1;
      }
    }
  }

  // ---- Every sequence of calls ----

  function AfterCalls(e: Encoded, calls: seq<(Call, bool)>): Encoded
    decreases |calls|
  {
    if calls == [] then e else AfterCalls(AfterCall(e, calls[0].0, calls[0].1), calls[1..])
  }

  predicate InOrder(e: Encoded) {
    PhaseAfter(ExpectResponseHeaders, e.sent) == Some(e.state)
  }

  lemma {:induction false} CallsKeepOrder(e: Encoded, calls: seq<(Call, bool)>)
    requires InOrder(e)
    ensures InOrder(AfterCalls(e, calls))
    decreases |calls|
  {
    if calls != [] {
      var call := calls[0].0;
      PhaseAfterAppend(ExpectResponseHeaders, e.sent, [call.Payload()]);
      assert [call.Payload()][1..] == [];
      CallsKeepOrder(AfterCall(e, call, calls[0].1), calls[1..]);
    }
  }

  // ---- What the calls say is what is sent ----

  /** The calls that were answered with success. */
  function Accepted(e: Encoded, calls: seq<(Call, bool)>): seq<Call>
    decreases |calls|
  {
    if calls == [] then []
    else
      (if e.state == calls[0].0.Expects() && calls[0].1 then [calls[0].0] else [])
      + Accepted(AfterCall(e, calls[0].0, calls[0].1), calls[1..])
  }

  /** The header blocks and the body that calls give. */
  function BlocksGiven(calls: seq<Call>): seq<Bytes>
    decreases |calls|
  {
    if calls == [] then [] else (if calls[0].WriteResponse? then [calls[0].block] else []) + BlocksGiven(calls[1..])
  }

  function BodyGiven(calls: seq<Call>): Bytes
    decreases |calls|
  {
    if calls == [] then [] else (if calls[0].WriteBodyChunk? then calls[0].piece else []) + BodyGiven(calls[1..])
  }

  /** The header blocks and the body in events. */
  function BlocksIn(events: seq<EventPayload>): seq<Bytes>
    decreases |events|
  {
    if events == [] then [] else (if events[0].HeadersEvent? then [events[0].block] else []) + BlocksIn(events[1..])
  }

  function BodyIn(events: seq<EventPayload>): Bytes
    decreases |events|
  {
    if events == [] then [] else (if events[0].BodyChunk? then events[0].piece else []) + BodyIn(events[1..])
  }

  lemma {:induction false} EventsAppend(a: seq<EventPayload>, b: seq<EventPayload>)
    ensures BlocksIn(a + b) == BlocksIn(a) + BlocksIn(b) && BodyIn(a + b) == BodyIn(a) + BodyIn(b)
    decreases |a|
  {
    if a == [] {
      assert a + b == b;
    } else {
      assert (a + b)[0] == a[0] && (a + b)[1..] == a[1..] + b;
      EventsAppend(a[1..], b);
      Reassociate(if a[0].HeadersEvent? then [a[0].block] else [], BlocksIn(a[1..]), BlocksIn(b));
      Reassociate(if a[0].BodyChunk? then a[0].piece else [], BodyIn(a[1..]), BodyIn(b));
    }
  }

  lemma CallIsSent(e: Encoded, call: Call, listening: bool)
    ensures var sent, given := AfterCall(e, call, listening).sent, Accepted(e, [(call, listening)]);
            BlocksIn(sent) == BlocksIn(e.sent) + BlocksGiven(given) && BodyIn(sent) == BodyIn(e.sent) + BodyGiven(given)
  {
    assert [(call, listening)][1..] == [] && [call][1..] == [] && [call.Payload()][1..] == [];
    EventsAppend(e.sent, [call.Payload()]);
    assert BlocksGiven([]) == [] && BodyGiven([]) == [] && BlocksIn([]) == [] && BodyIn([]) == [];
    assert Accepted(AfterCall(e, call, listening), []) == [];
  }

  lemma {:induction false} GivenAppend(a: seq<Call>, b: seq<Call>)
    ensures BlocksGiven(a + b) == BlocksGiven(a) + BlocksGiven(b) && BodyGiven(a + b) == BodyGiven(a) + BodyGiven(b)
    decreases |a|
  {
    if a == [] {
      assert a + b == b;
    } else {
      assert (a + b)[0] == a[0] && (a + b)[1..] == a[1..] + b;
      GivenAppend(a[1..], b);
      Reassociate(if a[0].WriteResponse? then [a[0].block] else [], BlocksGiven(a[1..]), BlocksGiven(b));
      Reassociate(if a[0].WriteBodyChunk? then a[0].piece else [], BodyGiven(a[1..]), BodyGiven(b));
    }
  }

  /** For every sequence of calls: the blocks and the body that were sent are those that the
      accepted calls gave, in order. */
  lemma {:induction false} CallsAreSent(e: Encoded, calls: seq<(Call, bool)>)
    ensures var sent, given := AfterCalls(e, calls).sent, Accepted(e, calls);
            BlocksIn(sent) == BlocksIn(e.sent) + BlocksGiven(given) && BodyIn(sent) == BodyIn(e.sent) + BodyGiven(given)
    decreases |calls|
  {
    if calls != [] {
      var (call, listening) := calls[0];
      var next, one := AfterCall(e, call, listening), Accepted(e, [(call, listening)]);
      assert [(call, listening)][1..] == [];
      assert Accepted(next, []) == [];
      CallIsSent(e, call, listening);
      CallsAreSent(next, calls[1..]);
      GivenAppend(one, Accepted(next, calls[1..]));
      Reassociate(BlocksIn(e.sent), BlocksGiven(one), BlocksGiven(Accepted(next, calls[1..])));
      Reassociate(BodyIn(e.sent), BodyGiven(one), BodyGiven(Accepted(next, calls[1..])));
    }
  }

  lemma FarewellFinishes(state: Phase, errorBlock: Bytes)
    ensures PhaseAfter(state, Farewell(state, errorBlock)) == Some(ResponseDone)
  {
    var left := Farewell(state, errorBlock);
    BodyIsOver([BodyEnd]);
    if state == ExpectResponseHeaders {
      assert left[1..] == [BodyEnd];
    }
  }

  /** For every sequence of handler calls, ended by a drop at any point: if the
      connection listens to the end, the events are Headers BodyChunk* BodyEnd; if it
      stops listening, what was sent before is in order too. */
  lemma EveryResponseIsWhole(calls: seq<(Call, bool)>, errorBlock: Bytes, heard: nat)
    ensures var e := AfterCalls(Encoded(ExpectResponseHeaders, []), calls);
            var left := Farewell(e.state, errorBlock);
            && WholeResponse(e.sent + left)
            && PhaseAfter(ExpectResponseHeaders, e.sent + left[..Min(heard, |left|)]).Some?
  {
    var start := Encoded(ExpectResponseHeaders, []);
    CallsKeepOrder(start, calls);
    var e := AfterCalls(start, calls);
    var left := Farewell(e.state, errorBlock);
    PhaseAfterAppend(ExpectResponseHeaders, e.sent, left);
    FarewellFinishes(e.state, errorBlock);
    OverIffWhole(e.sent + left);
    var n := Min(heard, |left|);
    PhaseAfterAppend(ExpectResponseHeaders, e.sent + left[..n], left[n..]);
    assert e.sent + left[..n] + left[n..] == e.sent + left;
  }

  /** Such events are always enabled: the next one of a stream may be handled, and
      handling it keeps the connection's view of the encoder up to date. */
  lemma EventsAreEnabled(w: World, id: StreamId, events: seq<EventPayload>, k: nat)
    requires k < |events| && id in w.logs && PhaseAfter(ExpectResponseHeaders, events).Some?
    requires PhaseAfter(ExpectResponseHeaders, events[..k]) == Some(w.logs[id].phase)
    ensures Enabled(w, Event(id, events[k]))
    ensures var next := HandleEvent(w, id, events[k]);
            id in next.logs && PhaseAfter(ExpectResponseHeaders, events[..k + 1]) == Some(next.logs[id].phase)
  {
    PhaseAfterAppend(ExpectResponseHeaders, events[..k], events[k..]);
    assert events[..k] + events[k..] == events && events[k..][0] == events[k];
    PhaseAfterAppend(ExpectResponseHeaders, events[..k], [events[k]]);
    assert events[..k] + [events[k]] == events[..k + 1];
    assert [events[k]][1..] == [];
  }
}

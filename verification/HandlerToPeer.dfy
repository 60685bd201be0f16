/** From the calls of a handler to the bytes that the peer reads. */
module HandlerToPeer {
  import opened Common
  import opened Deframer
  import opened H2State
  import opened H2Machine
  import opened H2Delivery
  import opened H2Safety
  import opened H2History
  import opened EndToEnd
  import Enc = H2Encoder

  /** The events of a stream among the inputs. */
  function EventsOf(inputs: seq<Input>, id: StreamId): seq<EventPayload>
    decreases |inputs|
  {
    if inputs == [] then []
    else
      var earlier, input := EventsOf(inputs[..|inputs| - 1], id), inputs[|inputs| - 1];
      if input.Event? && input.id == id then earlier + [input.payload] else earlier
  }

  /** The header block of the last headers event, if any. */
  function LastBlock(events: seq<EventPayload>): Option<Bytes> {
    var blocks := Enc.BlocksIn(events);
    if blocks == [] then None else Some(blocks[|blocks| - 1])
  }

  predicate HasEnd(events: seq<EventPayload>) {
    BodyEnd in events
  }

  lemma OneEvent(payload: EventPayload)
    ensures Enc.BlocksIn([payload]) == if payload.HeadersEvent? then [payload.block] else []
    ensures Enc.BodyIn([payload]) == if payload.BodyChunk? then payload.piece else []
  {
    assert [payload][1..] == [];
    assert Enc.BlocksIn([]) == [] && Enc.BodyIn([]) == [];
  }

  predicate Agree(s: Story, events: seq<EventPayload>) {
    s.body == Enc.BodyIn(events) && s.block == LastBlock(events) && s.ended == HasEnd(events)
  }

  lemma EventAgrees(s: Story, events: seq<EventPayload>, payload: EventPayload, id: StreamId)
    requires Agree(s, events)
    ensures Agree(Tell(s, Event(id, payload), id), events + [payload])
  {
    Enc.EventsAppend(events, [payload]);
    OneEvent(payload);
  }

  lemma OthersAgree(s: Story, events: seq<EventPayload>, input: Input, id: StreamId)
    requires Agree(s, events) && !(input.Event? && input.id == id)
    ensures Agree(Tell(s, input, id), events)
  {
  }

  lemma {:induction false} StoryIsEvents(inputs: seq<Input>, id: StreamId)
    ensures Agree(StoryOf(inputs, id), EventsOf(inputs, id))
    decreases |inputs|
  {
    if inputs != [] {
      var earlier, input := inputs[..|inputs| - 1], inputs[|inputs| - 1];
      StoryIsEvents(earlier, id);
      if input.Event? && input.id == id {
        EventAgrees(StoryOf(earlier, id), EventsOf(earlier, id), input.payload, id);
      } else {
        OthersAgree(StoryOf(earlier, id), EventsOf(earlier, id), input, id);
      }
    }
  }

  /** All that an encoder sends: for the calls, and when it is dropped. */
  function AllSent(calls: seq<(Enc.Call, bool)>, errorBlock: Bytes): seq<EventPayload> {
    var e := Enc.AfterCalls(Enc.Encoded(ExpectResponseHeaders, []), calls);
    e.sent + Enc.Farewell(e.state, errorBlock)
  }

  lemma {:induction false} EndIsLast(phase: Phase, events: seq<EventPayload>, k: nat)
    requires Enc.PhaseAfter(phase, events).Some? && k < |events| && events[k].BodyEnd?
    ensures k == |events| - 1
    decreases |events|
  {
    if k > 0 {
      EndIsLast(Enc.PhaseAfterOne(phase, events[0]).value, events[1..], k - 1);
    }
  }

  /** The body that is sent is that of the accepted calls; the block is that of the call that
      gave one, or the error response's. */
  lemma SentForCalls(calls: seq<(Enc.Call, bool)>, errorBlock: Bytes)
    ensures var given := Enc.Accepted(Enc.Encoded(ExpectResponseHeaders, []), calls);
            && Enc.BodyIn(AllSent(calls, errorBlock)) == Enc.BodyGiven(given)
            && Enc.BlocksIn(AllSent(calls, errorBlock)) ==
               (if Enc.BlocksGiven(given) == [] then [errorBlock] else Enc.BlocksGiven(given))
  {
    var start := Enc.Encoded(ExpectResponseHeaders, []);
    var e := Enc.AfterCalls(start, calls);
    var left := Enc.Farewell(e.state, errorBlock);
    Enc.CallsAreSent(start, calls);
    Enc.CallsKeepOrder(start, calls);
    Enc.EventsAppend(e.sent, left);
    FarewellSays(e.state, errorBlock);
    BlocksTellPhase(ExpectResponseHeaders, e.sent);
  }

  lemma FarewellSays(state: Phase, errorBlock: Bytes)
    ensures Enc.BodyIn(Enc.Farewell(state, errorBlock)) == []
    ensures Enc.BlocksIn(Enc.Farewell(state, errorBlock)) == if state == ExpectResponseHeaders then [errorBlock] else []
  {
    OneEvent(BodyEnd);
    OneEvent(HeadersEvent(errorBlock));
    Enc.EventsAppend([HeadersEvent(errorBlock)], [BodyEnd]);
    assert [HeadersEvent(errorBlock), BodyEnd] == [HeadersEvent(errorBlock)] + [BodyEnd];
    assert Enc.BlocksIn([]) == [] && Enc.BodyIn([]) == [];
  }

  lemma {:induction false} BlocksTellPhase(phase: Phase, events: seq<EventPayload>)
    requires Enc.PhaseAfter(phase, events).Some?
    ensures phase == ExpectResponseHeaders ==>
              (Enc.BlocksIn(events) == [] <==> Enc.PhaseAfter(phase, events) == Some(ExpectResponseHeaders))
    ensures phase != ExpectResponseHeaders ==>
              Enc.BlocksIn(events) == [] && Enc.PhaseAfter(phase, events) != Some(ExpectResponseHeaders)
    decreases |events|
  {
    if events != [] {
      BlocksTellPhase(Enc.PhaseAfterOne(phase, events[0]).value, events[1..]);
    }
  }
  lemma PrefixSays(all: seq<EventPayload>, events: seq<EventPayload>)
    requires events <= all
    ensures Enc.BodyIn(events) <= Enc.BodyIn(all) && Enc.BlocksIn(events) <= Enc.BlocksIn(all)
  {
    Enc.EventsAppend(events, all[|events|..]);
    assert all == events + all[|events|..];
  }

  /** Once the end is among the events, they are all there are. */
  lemma EndMeansAll(calls: seq<(Enc.Call, bool)>, errorBlock: Bytes, events: seq<EventPayload>)
    requires events <= AllSent(calls, errorBlock) && HasEnd(events)
    ensures events == AllSent(calls, errorBlock)
  {
    var all := AllSent(calls, errorBlock);
    Enc.EveryResponseIsWhole(calls, errorBlock, 0);
    Enc.OverIffWhole(all);
    var k :| 0 <= k < |events| && events[k].BodyEnd?;
    assert all[k] == events[k];
    EndIsLast(ExpectResponseHeaders, all, k);
  }

  /** Exactly one block is sent. */
  lemma OneBlock(calls: seq<(Enc.Call, bool)>, errorBlock: Bytes)
    ensures |Enc.BlocksIn(AllSent(calls, errorBlock))| == 1
  {
    Enc.EveryResponseIsWhole(calls, errorBlock, 0);
    var all := AllSent(calls, errorBlock);
    Enc.OverIffWhole(all);
    BlocksTellPhase(ExpectResponseBody, all[1..]);
  }

  lemma StoryForCalls(inputs: seq<Input>, id: StreamId, calls: seq<(Enc.Call, bool)>, errorBlock: Bytes)
    requires EventsOf(inputs, id) <= AllSent(calls, errorBlock)
    ensures var s, given := StoryOf(inputs, id), Enc.Accepted(Enc.Encoded(ExpectResponseHeaders, []), calls);
            && (s.block.Some? ==>
                  s.block.value == if Enc.BlocksGiven(given) == [] then errorBlock else Enc.BlocksGiven(given)[0])
            && s.body <= Enc.BodyGiven(given) && (s.ended ==> s.body == Enc.BodyGiven(given))
  {
    var events := EventsOf(inputs, id);
    StoryIsEvents(inputs, id);
    SentForCalls(calls, errorBlock);
    PrefixSays(AllSent(calls, errorBlock), events);
    OneBlock(calls, errorBlock);
    if HasEnd(events) {
      EndMeansAll(calls, errorBlock, events);
    }
  }

  /** For every handler and every run: if the events of a stream in the run are the first of
      those that its encoder sent for the handler's calls, then the peer, from the bytes
      alone, reads the block that the handler gave, or the error response's if it gave none,
      and a prefix of the chunks that it wrote with success; all of them once the end is
      seen. */
  lemma HandlerReachesPeer(maxStreams: nat, inputs: seq<Input>, last: World, id: StreamId,
                           calls: seq<(Enc.Call, bool)>, errorBlock: Bytes)
    requires Reaches(maxStreams, inputs, last) && forall i :: 0 <= i < |inputs| ==> IdFits(inputs[i])
    requires EventsOf(inputs, id) <= AllSent(calls, errorBlock)
    ensures AllSendable(last.wire, MAX_FRAME_SIZE)
    ensures var t := TraceOf(Deframe(Wire(last.wire), MAX_FRAME_SIZE).packets, id);
            var given := Enc.Accepted(Enc.Encoded(ExpectResponseHeaders, []), calls);
            && (t.NoFrames? || t.BodyPart? || t.Ended?)
            && (!t.NoFrames? ==>
                  && t.block == (if Enc.BlocksGiven(given) == [] then errorBlock else Enc.BlocksGiven(given)[0])
                  && t.body <= Enc.BodyGiven(given))
            && (t.Ended? ==> t.body == Enc.BodyGiven(given))
  {
    PeerReadsResponses(maxStreams, inputs, last, id);
    StoryForCalls(inputs, id, calls, errorBlock);
  }
}

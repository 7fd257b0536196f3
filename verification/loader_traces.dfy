/**
 * Runs of the loader: every interleaving of public calls, pipeline
 * deliveries and message firings the single handler thread can see, and the
 * properties that hold over all of them.
 */
module LoaderTraces {
  import opened Wrappers
  import opened FrameSignatures
  import opened GifFrameLoader
  import opened LoaderInvariants
  import opened LoaderSafety

  /** One thing that can happen to the loader. Events that read the clock
      carry the uptime at which they happen; those that advance the decoder
      carry what the decoder reports. */
  datatype Event =
    | StartCall(now: int, report: DecoderReport)
    | StopCall
    | ClearCall
    | SetTransformationCall(t: Option<Transformation>)
    | ResourceArrives(i: nat, bitmap: Bitmap)
    | MessageFires(i: nat, now: int, report: DecoderReport)

  /** What the world lets happen: the clock never goes back, a null
      transformation is never passed, the pipeline delivers only outstanding
      requests, and the looper fires only queued messages that are due. */
  predicate Enabled(s: Loader, e: Event)
  {
    match e
    case StartCall(now, _) => s.clock <= now
    case StopCall => true
    case ClearCall => true
    case SetTransformationCall(t) => t.Some?
    case ResourceArrives(i, _) => i < |s.inFlight|
    case MessageFires(i, now, _) => s.clock <= now && i < |s.queue| && s.queue[i].when <= now
  }

  /** The effect of one event. The three logs only ever grow and the clock
      never goes back. */
  function Step(s: Loader, e: Event): (r: Loader)
    requires Enabled(s, e)
    ensures s.clock <= r.clock
    ensures s.submitted <= r.submitted && s.released <= r.released && s.notified <= r.notified
  {
    match e
    case StartCall(now, report) => Start(s.(clock := now), now, report)
    case StopCall => Stop(s)
    case ClearCall => Clear(s)
    case SetTransformationCall(t) => SetFrameTransformation(s, t)
    case ResourceArrives(i, bitmap) => OnResourceReady(s, i, bitmap)
    case MessageFires(i, now, report) => Dispatch(s.(clock := now), i, now, report)
  }

  /** The state after a sequence of events, or None if one was not enabled. */
  function Run(s: Loader, es: seq<Event>): Option<Loader>
    decreases |es|
  {
    if es == [] then Some(s)
    else if Enabled(s, es[0]) then Run(Step(s, es[0]), es[1..])
    else None
  }

  /** Every event keeps every invariant. */
  lemma StepPreservesValid(s: Loader, e: Event)
    requires Valid(s) && Enabled(s, e)
    ensures Valid(Step(s, e))
  {
    match e
    case StartCall(now, report) =>
      ClockAdvancePreservesValid(s, now);
      StartPreservesValid(s.(clock := now), now, report);
    case StopCall =>
      StopPreservesValid(s);
    case ClearCall =>
      ClearPreservesValid(s);
    case SetTransformationCall(t) =>
      SetFrameTransformationPreservesValid(s, t.value);
    case ResourceArrives(i, bitmap) =>
      ResourceReadyPreservesValid(s, i, bitmap);
    case MessageFires(i, now, report) =>
      DispatchPreservesValid(s, i, now, report);
  }

  lemma {:induction false} RunPreservesValid(s: Loader, es: seq<Event>)
    requires Valid(s)
    ensures Run(s, es).Some? ==> Valid(Run(s, es).value)
    decreases |es|
  {
    if es != [] && Enabled(s, es[0]) {
      StepPreservesValid(s, es[0]);
      RunPreservesValid(Step(s, es[0]), es[1..]);
    }
  }

  /** Every state a run from a freshly constructed loader reaches is valid. */
  lemma ReachableIsValid(template: Template, decoder: Decoder, clock: int, es: seq<Event>)
    ensures Run(Init(template, decoder, clock), es).Some? ==>
              Valid(Run(Init(template, decoder, clock), es).value)
  {
    InitValid(template, decoder, clock);
    RunPreservesValid(Init(template, decoder, clock), es);
  }

  /** Running two sequences of events one after the other is running their
      concatenation. */
  lemma {:induction false} RunConcat(s: Loader, a: seq<Event>, b: seq<Event>)
    ensures Run(s, a + b) == (if Run(s, a).Some? then Run(Run(s, a).value, b) else None)
    decreases |a|
  {
    if a == [] {
      assert a + b == b;
    } else {
      assert (a + b)[0] == a[0];
      assert (a + b)[1..] == a[1..] + b;
      if Enabled(s, a[0]) {
        RunConcat(Step(s, a[0]), a[1..], b);
      }
    }
  }

  /** No presentation after `clear()` until the next `start()`: whatever was
      in flight or queued when the loader was cleared is only released. */
  lemma {:induction false} ClearedStaysSilent(s: Loader, es: seq<Event>)
    requires s.isCleared
    requires forall k :: 0 <= k < |es| ==> !es[k].StartCall?
    ensures Run(s, es).Some? ==> Run(s, es).value.notified == s.notified
    ensures Run(s, es).Some? ==> Run(s, es).value.isCleared
    decreases |es|
  {
    if es != [] && Enabled(s, es[0]) {
      var e := es[0];
      var r := Step(s, e);
      if e.MessageFires? {
        var m := s.queue[e.i];
        assert m.what == MSG_DELAY ==> r == s.(clock := e.now, queue := Remove(s.queue, e.i) + [Message(MSG_CLEAR, m.obj, e.now)]);
      }
      assert r.notified == s.notified && r.isCleared;
      ClearedStaysSilent(r, es[1..]);
    }
  }

  /** Clearing right after starting, before the first frame arrives: the frame
      is released when its message fires and the observer never hears of it.
      Because the pending flag stays set, starting again loads nothing. */
  lemma ClearBeforeFirstFrame(template: Template, decoder: Decoder)
    ensures var s0 := Init(template, decoder, 0);
            var es := [StartCall(0, DecoderReport(0, 10)), ClearCall,
                       ResourceArrives(0, Bitmap(7)),
                       MessageFires(0, 10, DecoderReport(1, 20)),
                       MessageFires(0, 10, DecoderReport(1, 20))];
            && Run(s0, es).Some?
            && Run(s0, es).value.notified == []
            && Run(s0, es).value.released == [0]
            && Run(s0, es).value.queue == []
            && Run(s0, es + [StartCall(20, DecoderReport(1, 20))]).Some?
            && |Run(s0, es + [StartCall(20, DecoderReport(1, 20))]).value.submitted| == 1
  {
    var s0 := Init(template, decoder, 0);
    var s1 := Step(s0, StartCall(0, DecoderReport(0, 10)));
    var s2 := Step(s1, ClearCall);
    var s3 := Step(s2, ResourceArrives(0, Bitmap(7)));
    var s4 := Step(s3, MessageFires(0, 10, DecoderReport(1, 20)));
    var s5 := Step(s4, MessageFires(0, 10, DecoderReport(1, 20)));
    var s6 := Step(s5, StartCall(20, DecoderReport(1, 20)));
    var es := [StartCall(0, DecoderReport(0, 10)), ClearCall,
               ResourceArrives(0, Bitmap(7)),
               MessageFires(0, 10, DecoderReport(1, 20)),
               MessageFires(0, 10, DecoderReport(1, 20))];
    assert Run(s5, []) == Some(s5);
    assert Run(s4, es[4..]) == Some(s5);
    assert Run(s3, es[3..]) == Some(s5);
    assert Run(s2, es[2..]) == Some(s5);
    assert Run(s1, es[1..]) == Some(s5);
    assert Run(s0, es) == Some(s5);
    RunConcat(s0, es, [StartCall(20, DecoderReport(1, 20))]);
    assert Run(s5, [StartCall(20, DecoderReport(1, 20))]) == Some(s6);
  }
}

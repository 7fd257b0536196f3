/**
 * Every event of the loader preserves `Valid`: the public calls, the
 * pipeline's delivery, and the looper firing a due message.
 */
module LoaderSafety {
  import opened Wrappers
  import opened FrameSignatures
  import opened GifFrameLoader
  import opened LoaderInvariants

  /** A freshly constructed loader satisfies every invariant. */
  lemma InitValid(template: Template, decoder: Decoder, clock: int)
    ensures Valid(Init(template, decoder, clock))
  {
    var s := Init(template, decoder, clock);
    assert QueuedIds(s.queue) == [];
    assert InFlightIds(s.inFlight) == [];
  }

  /** Time moving forward breaks nothing. */
  lemma ClockAdvancePreservesValid(s: Loader, now: int)
    requires Valid(s) && s.clock <= now
    ensures Valid(s.(clock := now))
  {
    var r := s.(clock := now);
    SubmittedOkLater(s.submitted, s.clock, now);
    QueueOkLater(s.submitted, s.clock, now, s.queue);
    assert Accounted(r) == Accounted(s);
    assert Outstanding(r) == Outstanding(s);
  }

  lemma WellFormedAfterLoad(s: Loader, now: int, report: DecoderReport)
    requires WellFormed(s) && s.clock == now && s.isRunning && !s.isLoadPending
    ensures WellFormed(LoadNextFrame(s, now, report))
  {
    var req := NextRequest(s, now, report);
    SubmittedOkExtends(s.submitted, s.clock, req);
    InFlightOkExtends(s.submitted, s.inFlight, req);
    QueueOkExtends(s.submitted, s.clock, s.queue, req);
    if s.current.Some? {
      DeliveredExtends(s.submitted, req, s.current.value);
    }
  }

  lemma PacedAfterLoad(s: Loader, now: int, report: DecoderReport)
    requires Paced(s) && s.clock == now && s.isRunning && !s.isLoadPending
    ensures Paced(LoadNextFrame(s, now, report))
  {
    var req := NextRequest(s, now, report);
    LogPacedExtends(s.notified, s.submitted, req);
    InFlightAfterShownAppend(s.notified, s.inFlight, req);
    QueueAfterShownExtends(s.notified, s.submitted, s.queue, req);
  }

  lemma AccountedAfterLoad(s: Loader, now: int, report: DecoderReport)
    requires Accounted(s) == Upto(|s.submitted|) && s.isRunning && !s.isLoadPending
    ensures var r := LoadNextFrame(s, now, report);
            Accounted(r) == Upto(|r.submitted|)
  {
    var req := NextRequest(s, now, report);
    InFlightIdsAppend(s.inFlight, req);
  }

  /** Attempting a load keeps every invariant: the guard lets a load through
      only when none is outstanding, and the new target gets the next id. */
  lemma LoadPreservesValid(s: Loader, now: int, report: DecoderReport)
    requires Valid(s) && s.clock == now
    ensures Valid(LoadNextFrame(s, now, report))
  {
    if s.isRunning && !s.isLoadPending {
      WellFormedAfterLoad(s, now, report);
      PacedAfterLoad(s, now, report);
      AccountedAfterLoad(s, now, report);
    }
  }

  lemma StartPreservesValid(s: Loader, now: int, report: DecoderReport)
    requires Valid(s) && s.clock == now
    ensures Valid(Start(s, now, report))
  {
    if !s.isRunning {
      var s1 := s.(isRunning := true, isCleared := false);
      assert Accounted(s1) == Accounted(s);
      assert Outstanding(s1) == Outstanding(s);
      LoadPreservesValid(s1, now, report);
    }
  }

  lemma StopPreservesValid(s: Loader)
    requires Valid(s)
    ensures Valid(Stop(s))
  {
    assert Accounted(Stop(s)) == Accounted(s);
    assert Outstanding(Stop(s)) == Outstanding(s);
  }

  lemma SetFrameTransformationPreservesValid(s: Loader, t: Transformation)
    requires Valid(s)
    ensures Valid(SetFrameTransformation(s, Some(t)))
  {
    var r := SetFrameTransformation(s, Some(t));
    assert Accounted(r) == Accounted(s);
    assert Outstanding(r) == Outstanding(s);
  }

  lemma ClearPreservesValid(s: Loader)
    requires Valid(s)
    ensures Valid(Clear(s))
  {
    var r := Clear(s);
    assert Accounted(r) == Accounted(s);
    assert Outstanding(r) == Outstanding(s);
  }

  lemma WellFormedAfterDelivery(s: Loader, i: nat, bitmap: Bitmap)
    requires WellFormed(s) && i < |s.inFlight|
    ensures WellFormed(OnResourceReady(s, i, bitmap))
  {
    var t := s.inFlight[i].target.(resource := Some(bitmap));
    InFlightOkRemove(s.submitted, s.inFlight, i);
    QueueOkAppend(s.submitted, s.clock, s.queue, Message(MSG_DELAY, t, t.targetTime));
  }

  lemma PacedAfterDelivery(s: Loader, i: nat, bitmap: Bitmap)
    requires Paced(s) && InFlightOk(s.submitted, s.inFlight) && i < |s.inFlight|
    ensures Paced(OnResourceReady(s, i, bitmap))
  {
    var t := s.inFlight[i].target.(resource := Some(bitmap));
    InFlightOkRemove(s.submitted, s.inFlight, i);
    InFlightAfterShownRemove(s.notified, s.inFlight, i);
    QueueAfterShownAppend(s.notified, s.submitted, s.queue, Message(MSG_DELAY, t, t.targetTime));
  }

  lemma CountsAfterDelivery(s: Loader, i: nat, bitmap: Bitmap)
    requires i < |s.inFlight|
    ensures Accounted(OnResourceReady(s, i, bitmap)) == Accounted(s)
    ensures Outstanding(OnResourceReady(s, i, bitmap)) == Outstanding(s)
  {
    var t := s.inFlight[i].target.(resource := Some(bitmap));
    var m := Message(MSG_DELAY, t, t.targetTime);
    InFlightIdsRemove(s.inFlight, i);
    QueuedIdsAppend(s.queue, m);
    DelayCountAppend(s.queue, m);
  }

  /** The pipeline delivering an outstanding request keeps every invariant. */
  lemma ResourceReadyPreservesValid(s: Loader, i: nat, bitmap: Bitmap)
    requires Valid(s) && i < |s.inFlight|
    ensures Valid(OnResourceReady(s, i, bitmap))
  {
    WellFormedAfterDelivery(s, i, bitmap);
    PacedAfterDelivery(s, i, bitmap);
    CountsAfterDelivery(s, i, bitmap);
  }

  /** The loader with its i-th message taken off the queue by the looper. */
  function Take(s: Loader, i: nat): Loader
    requires i < |s.queue|
  {
    s.(queue := Remove(s.queue, i))
  }

  // A release message fires: the carried target moves to the release log.

  lemma WellFormedAfterFireClear(s: Loader, i: nat)
    requires WellFormed(s) && Paced(s) && i < |s.queue|
    ensures WellFormed(Release(Take(s, i), s.queue[i].obj))
    ensures Paced(Release(Take(s, i), s.queue[i].obj))
  {
    QueueOkRemove(s.submitted, s.clock, s.queue, i);
    QueueAfterShownRemove(s.notified, s.submitted, s.queue, i);
  }

  lemma CountsAfterFireClear(s: Loader, i: nat)
    requires i < |s.queue| && s.queue[i].what == MSG_CLEAR
    ensures Accounted(Release(Take(s, i), s.queue[i].obj)) == Accounted(s)
    ensures Outstanding(Release(Take(s, i), s.queue[i].obj)) == Outstanding(s)
  {
    QueuedIdsRemove(s.queue, i);
    DelayCountRemove(s.queue, i);
  }

  lemma FireClearValid(s: Loader, i: nat)
    requires Valid(s) && i < |s.queue| && s.queue[i].what == MSG_CLEAR
    ensures Valid(Release(Take(s, i), s.queue[i].obj))
  {
    WellFormedAfterFireClear(s, i);
    CountsAfterFireClear(s, i);
  }

  // A delay message fires while cleared: its target is posted for release.

  /** The state after a delay message fired while cleared. */
  function PostRelease(s: Loader, i: nat): Loader
    requires i < |s.queue|
  {
    var s2 := Take(s, i);
    s2.(queue := s2.queue + [Message(MSG_CLEAR, s.queue[i].obj, s.clock)])
  }

  lemma WellFormedAfterPostRelease(s: Loader, i: nat)
    requires WellFormed(s) && Paced(s) && i < |s.queue|
    ensures WellFormed(PostRelease(s, i)) && Paced(PostRelease(s, i))
  {
    var c := Message(MSG_CLEAR, s.queue[i].obj, s.clock);
    QueueOkRemove(s.submitted, s.clock, s.queue, i);
    QueueOkAppend(s.submitted, s.clock, Remove(s.queue, i), c);
    QueueAfterShownRemove(s.notified, s.submitted, s.queue, i);
    QueueAfterShownAppend(s.notified, s.submitted, Remove(s.queue, i), c);
  }

  lemma CountsAfterPostRelease(s: Loader, i: nat)
    requires i < |s.queue| && s.queue[i].what == MSG_DELAY
    ensures Accounted(PostRelease(s, i)) == Accounted(s)
    ensures Outstanding(PostRelease(s, i)) + 1 == Outstanding(s)
  {
    var c := Message(MSG_CLEAR, s.queue[i].obj, s.clock);
    QueuedIdsRemove(s.queue, i);
    QueuedIdsAppend(Remove(s.queue, i), c);
    DelayCountRemove(s.queue, i);
    DelayCountAppend(Remove(s.queue, i), c);
  }

  lemma FireDelayClearedValid(s: Loader, i: nat)
    requires Valid(s) && i < |s.queue| && s.queue[i].what == MSG_DELAY
    ensures Valid(PostRelease(s, i))
  {
    WellFormedAfterPostRelease(s, i);
    CountsAfterPostRelease(s, i);
  }

  // A delay message fires while not cleared: its target is presented.

  /** The state after presenting the target of the i-th (delay) message. */
  function Presented(s: Loader, i: nat): Loader
    requires i < |s.queue|
  {
    Present(Take(s, i), s.queue[i].obj, s.clock)
  }

  lemma WellFormedAfterPresent(s: Loader, i: nat)
    requires WellFormed(s) && i < |s.queue|
    ensures WellFormed(Presented(s, i))
  {
    var rel := ReleaseOf(s.current, s.clock);
    QueueOkRemove(s.submitted, s.clock, s.queue, i);
    if s.current.Some? {
      QueueOkAppend(s.submitted, s.clock, Remove(s.queue, i), rel[0]);
    } else {
      assert Remove(s.queue, i) + rel == Remove(s.queue, i);
    }
  }

  lemma AccountedAfterPresent(s: Loader, i: nat)
    requires i < |s.queue|
    ensures Accounted(Presented(s, i)) == Accounted(s)
  {
    var t := s.queue[i].obj;
    var q := Remove(s.queue, i);
    var rel := ReleaseOf(s.current, s.clock);
    var r := Presented(s, i);
    QueuedIdsRemove(s.queue, i);
    assert multiset(QueuedIds(q)) + multiset{t.id} == multiset(QueuedIds(s.queue));
    if s.current.Some? {
      QueuedIdsAppend(q, rel[0]);
      assert multiset(QueuedIds(r.queue)) == multiset(QueuedIds(q)) + CurrentIds(s.current);
    } else {
      assert r.queue == q;
    }
    assert CurrentIds(r.current) == multiset{t.id};
  }

  lemma OutstandingAfterPresent(s: Loader, i: nat)
    requires i < |s.queue| && s.queue[i].what == MSG_DELAY
    ensures Outstanding(Presented(s, i)) + 1 == Outstanding(s)
  {
    var rel := ReleaseOf(s.current, s.clock);
    DelayCountRemove(s.queue, i);
    if s.current.Some? {
      DelayCountAppend(Remove(s.queue, i), rel[0]);
    } else {
      assert Remove(s.queue, i) + rel == Remove(s.queue, i);
    }
  }

  lemma PacedAfterPresent(s: Loader, i: nat)
    requires WellFormed(s) && Paced(s) && SingleFlight(s)
    requires i < |s.queue| && s.queue[i].what == MSG_DELAY && s.queue[i].when <= s.clock
    ensures Paced(Presented(s, i))
  {
    var t := s.queue[i].obj;
    var r := Presented(s, i);
    var n := Notification(t.id, t.index, s.clock);
    QueueOkRemove(s.submitted, s.clock, s.queue, i);
    QueueAfterShownRemove(s.notified, s.submitted, s.queue, i);
    assert s.submitted[t.id].target.targetTime == t.targetTime;
    LogPacedAppend(s.notified, s.submitted, n);
    DelayCountRemove(s.queue, i);
    assert s.inFlight == [];
    QueueAfterShownNoDelay(r.notified, r.submitted, r.queue) by {
      var rel := ReleaseOf(s.current, s.clock);
      if s.current.Some? {
        DelayCountAppend(Remove(s.queue, i), rel[0]);
      } else {
        assert Remove(s.queue, i) + rel == Remove(s.queue, i);
      }
    }
  }

  lemma PresentValid(s: Loader, i: nat)
    requires Valid(s) && i < |s.queue| && s.queue[i].what == MSG_DELAY && !s.isCleared
    requires s.queue[i].when <= s.clock
    ensures Valid(Presented(s, i))
  {
    WellFormedAfterPresent(s, i);
    AccountedAfterPresent(s, i);
    OutstandingAfterPresent(s, i);
    PacedAfterPresent(s, i);
  }

  /** The looper firing any due message keeps every invariant. */
  lemma DispatchPreservesValid(s: Loader, i: nat, now: int, report: DecoderReport)
    requires Valid(s) && s.clock <= now && i < |s.queue| && s.queue[i].when <= now
    ensures Valid(Dispatch(s.(clock := now), i, now, report))
  {
    var s1 := s.(clock := now);
    var m := s1.queue[i];
    ClockAdvancePreservesValid(s, now);
    QueueOkRemove(s1.submitted, s1.clock, s1.queue, i);
    var r := Dispatch(s1, i, now, report);
    if m.what == MSG_CLEAR {
      assert r == Release(Take(s1, i), m.obj);
      FireClearValid(s1, i);
    } else if s1.isCleared {
      assert r == PostRelease(s1, i);
      FireDelayClearedValid(s1, i);
    } else {
      assert r == LoadNextFrame(Presented(s1, i), now, report);
      PresentValid(s1, i);
      LoadPreservesValid(Presented(s1, i), now, report);
    }
  }
}

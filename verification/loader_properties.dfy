/**
 * What the invariants mean for a user of the loader: releases happen at most
 * once, at most one frame is being loaded, signatures never repeat, the
 * current frame is the last one shown, frames are paced by their delays — and
 * the consequences of the source's exact flag handling around stop, clear and
 * start.
 */
module LoaderProperties {
  import opened Wrappers
  import opened FrameSignatures
  import opened GifFrameLoader
  import opened LoaderInvariants
  import opened LoaderSafety

  /** Every target ever created is in exactly one place: current, in flight,
      queued, or released. */
  lemma EveryTargetAccountedOnce(s: Loader, x: nat)
    requires Valid(s)
    ensures Accounted(s)[x] == (if x < |s.submitted| then 1 else 0)
  {
    UptoCount(|s.submitted|, x);
  }

  /** No target is released twice, across all three release paths. */
  lemma NoDoubleRelease(s: Loader)
    requires Valid(s)
    ensures forall i, j :: 0 <= i < j < |s.released| ==> s.released[i] != s.released[j]
  {
    forall i, j | 0 <= i < j < |s.released|
      ensures s.released[i] != s.released[j]
    {
      var x := s.released[j];
      if s.released[i] == x {
        var pre, post := s.released[..j], s.released[j..];
        assert s.released == pre + post;
        assert x in pre && x in post;
        assert multiset(s.released)[x] >= 2;
        EveryTargetAccountedOnce(s, x);
        assert false;
      }
    }
  }

  /** A released target is gone: it is not current, not in flight, and no
      queued message carries it. */
  lemma ReleasedIsGone(s: Loader, x: nat)
    requires Valid(s) && x in s.released
    ensures s.current.Some? ==> s.current.value.id != x
    ensures x !in InFlightIds(s.inFlight)
    ensures x !in QueuedIds(s.queue)
  {
    EveryTargetAccountedOnce(s, x);
    assert multiset(s.released)[x] >= 1;
  }

  /** Single flight: at most one request is outstanding, as a pipeline request
      or as a delivered frame waiting for its time, and when one is, the
      loader knows a load is pending. */
  lemma AtMostOneOutstanding(s: Loader)
    requires Valid(s)
    ensures |s.inFlight| <= 1
    ensures forall i, j :: 0 <= i < j < |s.queue| ==>
              !(s.queue[i].what == MSG_DELAY && s.queue[j].what == MSG_DELAY)
    ensures |s.inFlight| == 1 ==> s.isLoadPending
    ensures forall i :: 0 <= i < |s.queue| && s.queue[i].what == MSG_DELAY ==>
              s.isLoadPending && |s.inFlight| == 0
  {
    forall i | 0 <= i < |s.queue| && s.queue[i].what == MSG_DELAY
      ensures DelayCount(s.queue) >= 1
    {
      DelayCountRemove(s.queue, i);
    }
    forall i, j | 0 <= i < j < |s.queue|
      ensures !(s.queue[i].what == MSG_DELAY && s.queue[j].what == MSG_DELAY)
    {
      if s.queue[i].what == MSG_DELAY && s.queue[j].what == MSG_DELAY {
        DelayCountRemove(s.queue, i);
        var q := Remove(s.queue, i);
        assert q[j - 1] == s.queue[j];
        DelayCountRemove(q, j - 1);
        assert false;
      }
    }
  }

  /** A load attempt that goes through attaches a signature equal to no
      signature of any earlier request. */
  lemma LoadIssuesFreshSignature(s: Loader, now: int, report: DecoderReport)
    requires Valid(s) && s.isRunning && !s.isLoadPending
    ensures var r := LoadNextFrame(s, now, report);
            var sig := r.submitted[|s.submitted|].signature;
            forall k :: 0 <= k < |s.submitted| ==> !Equals(sig, SignatureKey(s.submitted[k].signature))
  {
    var r := LoadNextFrame(s, now, report);
    assert r.submitted[|s.submitted|].signature == FrameSignature(|s.submitted|);
    forall k | 0 <= k < |s.submitted|
      ensures s.submitted[k].signature.uuid < |s.submitted|
    {
    }
  }

  /** `getCurrentFrame` returns the bitmap of the frame presented last, and
      nothing once that frame is gone. */
  lemma CurrentFrameIsLastPresented(s: Loader)
    requires Valid(s)
    ensures GetCurrentFrame(s).Some? <==> s.current.Some?
    ensures s.current.Some? ==>
              s.notified[|s.notified| - 1].id == s.current.value.id
              && GetCurrentFrame(s) == s.current.value.resource
  {
  }

  /** Pacing: the gap between two consecutive presentations is at least the
      delay the decoder reported when the later frame was requested, and no
      frame is shown before its target time. */
  lemma PresentationsArePaced(s: Loader)
    requires Valid(s)
    ensures forall k :: 0 < k < |s.notified| ==>
              s.notified[k].at - s.notified[k - 1].at >= s.submitted[s.notified[k].id].delay
    ensures forall k :: 0 <= k < |s.notified| ==>
              s.notified[k].at >= s.submitted[s.notified[k].id].target.targetTime
  {
  }

  /** `clear()` releases the current target, and that release is its only one. */
  lemma ClearReleasesCurrentOnce(s: Loader)
    requires Valid(s) && s.current.Some?
    ensures multiset(Clear(s).released)[s.current.value.id] == 1
    ensures GetCurrentFrame(Clear(s)) == None
  {
    var x := s.current.value.id;
    EveryTargetAccountedOnce(s, x);
  }

  /** Starting twice is starting once. */
  lemma StartIsIdempotent(s: Loader, now: int, report: DecoderReport, now': int, report': DecoderReport)
    ensures Start(Start(s, now, report), now', report') == Start(s, now, report)
  {
  }

  /** Stopping twice is stopping once. */
  lemma StopIsIdempotent(s: Loader)
    ensures Stop(Stop(s)) == Stop(s)
  {
  }

  /** A new transformation reaches only later submissions: outstanding
      requests keep the template they were built with, and the next load
      carries the new one. */
  lemma TransformationAppliesToLaterLoads(s: Loader, t: Transformation, now: int, report: DecoderReport)
    requires s.isRunning && !s.isLoadPending
    ensures SetFrameTransformation(s, Some(t)).inFlight == s.inFlight
    ensures var r := LoadNextFrame(SetFrameTransformation(s, Some(t)), now, report);
            r.inFlight[|s.inFlight|].template == Template(Some(t))
  {
  }

  /** A frame loaded before `stop()` is still presented when its message
      fires, but no further load is issued. */
  lemma StoppedLoaderStillPresents(s: Loader, i: nat, now: int, report: DecoderReport)
    requires Valid(s) && !s.isRunning && !s.isCleared
    requires i < |s.queue| && s.queue[i].what == MSG_DELAY && s.clock <= now && s.queue[i].when <= now
    ensures var r := Dispatch(s.(clock := now), i, now, report);
            && r.current == Some(s.queue[i].obj)
            && r.notified == s.notified + [Notification(s.queue[i].obj.id, s.queue[i].obj.index, now)]
            && r.submitted == s.submitted && r.inFlight == s.inFlight
            && !r.isLoadPending
  {
  }

  /** A frame delivered while cleared is only posted for release, and the
      pending flag stays set: a later `start()` issues no load at all. */
  lemma ClearedDeliveryBlocksRestart(s: Loader, i: nat, now: int, report: DecoderReport,
                                     later: int, report': DecoderReport)
    requires Valid(s) && s.isCleared && !s.isRunning
    requires i < |s.queue| && s.queue[i].what == MSG_DELAY && s.clock <= now && s.queue[i].when <= now
    ensures var r := Dispatch(s.(clock := now), i, now, report);
            && r.notified == s.notified
            && r.isLoadPending
            && r.queue == Remove(s.queue, i) + [Message(MSG_CLEAR, s.queue[i].obj, now)]
            && Start(r, later, report').submitted == s.submitted
            && Start(r, later, report').isRunning
  {
    AtMostOneOutstanding(s);
  }
}

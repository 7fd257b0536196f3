/**
 * The frame loader of an animated GIF: a small state machine that asks the
 * decoder for one frame at a time, submits one load per frame, and presents
 * each loaded frame once its target time has come.
 *
 * Everything here runs on one handler thread, so each operation is a pure
 * function from the loader's state to its next state. The decoder, the clock
 * and the load pipeline are outside: what the decoder reports after an advance
 * and the current uptime are parameters, the pipeline is the `inFlight`
 * sequence of submitted requests, and the handler is the `queue` of messages.
 */
module GifFrameLoader {
  import opened Wrappers
  import opened FrameSignatures

  /** `FrameLoaderCallback.MSG_DELAY`: present the target it carries. */
  const MSG_DELAY: int := 1
  /** `FrameLoaderCallback.MSG_CLEAR`: release the target it carries. */
  const MSG_CLEAR: int := 2

  /** A decoded frame, known only by identity. */
  datatype Bitmap = Bitmap(id: nat)

  /** A frame transformation, known only by identity. */
  datatype Transformation = Transformation(id: nat)

  /** The part of the request builder the loader changes: its transformation.
      Each submission copies the template current at that moment. */
  datatype Template = Template(transformation: Option<Transformation>)

  /** What the decoder reports right after `advance()`: the index of the frame
      it now points at, and `getNextDelay()` for it. */
  datatype DecoderReport = DecoderReport(index: int, delay: int)

  /** The decoder as far as the loader sees it. */
  datatype Decoder = Decoder(advances: nat, frameIndex: int, nextDelay: int)

  /** A `DelayTarget`: the frame index it was created for, the uptime at which
      it should be shown, and the bitmap once the pipeline delivered it.
      `id` stands for the object's identity. */
  datatype DelayTarget = DelayTarget(id: nat, index: int, targetTime: int, resource: Option<Bitmap>)

  /** One submission to the pipeline: the target it loads into, the signature
      and template it was built with, and (for the pacing argument) the uptime
      of submission and the delay the decoder reported. */
  datatype Request = Request(target: DelayTarget, signature: FrameSignature, template: Template,
                             issuedAt: int, delay: int)

  /** A handler message: its `what`, the target it carries, and the uptime at
      which it becomes due. */
  datatype Message = Message(what: int, obj: DelayTarget, when: int)

  /** One call of the observer's `onFrameReady(index)`, with the target that was
      presented and the uptime of the call. */
  datatype Notification = Notification(id: nat, index: int, at: int)

  /**
   * The loader's state: the three flags and `current` of the source, the
   * request template, the decoder, and the world around it — the uptime of the
   * latest event, the requests the pipeline still owes, the handler's queue,
   * and three logs: every request ever submitted (in order, so a target's id is
   * its position), every release (`Glide.clear`) by target id, and every
   * observer notification.
   */
  datatype Loader = Loader(
    isRunning: bool,
    isLoadPending: bool,
    isCleared: bool,
    current: Option<DelayTarget>,
    template: Template,
    decoder: Decoder,
    clock: int,
    inFlight: seq<Request>,
    queue: seq<Message>,
    submitted: seq<Request>,
    released: seq<nat>,
    notified: seq<Notification>)

  /** The constructor: not running, nothing pending, nothing shown. */
  function Init(template: Template, decoder: Decoder, clock: int): (s: Loader)
    ensures !s.isRunning && !s.isLoadPending && !s.isCleared && s.current == None
    ensures s.inFlight == [] && s.queue == [] && s.submitted == []
    ensures s.released == [] && s.notified == []
  {
    Loader(false, false, false, None, template, decoder, clock, [], [], [], [], [])
  }

  /** `setFrameTransformation`: a null transformation is a caller error; any
      other replaces the template that later submissions copy. */
  function SetFrameTransformation(s: Loader, t: Option<Transformation>): (r: Loader)
    requires t.Some?
    ensures r.template == Template(t)
    ensures r.(template := s.template) == s
  {
    s.(template := Template(t))
  }

  /** The request a load issued in `s` submits: a new target (its id is the
      number of earlier submissions) for the reported frame, due `delay` after
      `now`, with a signature of the same number and the current template. */
  function NextRequest(s: Loader, now: int, report: DecoderReport): (req: Request)
    ensures req.target.id == |s.submitted| && req.signature.uuid == |s.submitted|
    ensures req.target.index == report.index && req.target.resource == None
    ensures req.target.targetTime == now + report.delay && req.delay == report.delay
    ensures req.template == s.template && req.issuedAt == now
  {
    var n := |s.submitted|;
    Request(DelayTarget(n, report.index, now + report.delay, None),
            FrameSignature(n), s.template, now, report.delay)
  }

  /** True when `r` is `s` after exactly one load was issued for the frame the
      decoder reported: the decoder advanced once, and one new request was both
      submitted and left in flight, for a fresh target with the reported index,
      due `delay` after `now`, with a fresh signature and the current template. */
  predicate IssuedOneLoad(s: Loader, r: Loader, now: int, report: DecoderReport)
  {
    var req := NextRequest(s, now, report);
    && r.isLoadPending
    && r.decoder == Decoder(s.decoder.advances + 1, report.index, report.delay)
    && r.inFlight == s.inFlight + [req]
    && r.submitted == s.submitted + [req]
    && r.(isLoadPending := s.isLoadPending, decoder := s.decoder,
          inFlight := s.inFlight, submitted := s.submitted) == s
  }

  /** `loadNextFrame`: does nothing unless running with no load pending;
      otherwise marks a load pending and issues exactly one. */
  function LoadNextFrame(s: Loader, now: int, report: DecoderReport): (r: Loader)
    ensures !s.isRunning || s.isLoadPending ==> r == s
    ensures s.isRunning && !s.isLoadPending ==> IssuedOneLoad(s, r, now, report)
  {
    if !s.isRunning || s.isLoadPending then s
    else
      var decoder := Decoder(s.decoder.advances + 1, report.index, report.delay);
      var req := NextRequest(s, now, report);
      s.(isLoadPending := true, decoder := decoder,
         inFlight := s.inFlight + [req], submitted := s.submitted + [req])
  }

  /** `start`: a no-op while running; otherwise running again, no longer
      cleared, and exactly one attempt to load. */
  function Start(s: Loader, now: int, report: DecoderReport): (r: Loader)
    ensures s.isRunning ==> r == s
    ensures !s.isRunning ==> r.isRunning && !r.isCleared && r.isLoadPending
    ensures !s.isRunning && s.isLoadPending ==>
              r == s.(isRunning := true, isCleared := false)
    ensures !s.isRunning && !s.isLoadPending ==>
              IssuedOneLoad(s.(isRunning := true, isCleared := false), r, now, report)
  {
    if s.isRunning then s
    else LoadNextFrame(s.(isRunning := true, isCleared := false), now, report)
  }

  /** `stop`: halts further loads and nothing else; whatever is in flight or
      queued stays, and so does the current frame. */
  function Stop(s: Loader): (r: Loader)
    ensures !r.isRunning
    ensures r.(isRunning := s.isRunning) == s
  {
    s.(isRunning := false)
  }

  /** The release log after `Glide.clear(t)`. */
  function Release(s: Loader, t: DelayTarget): (r: Loader)
    ensures r.released == s.released + [t.id]
    ensures r.(released := s.released) == s
  {
    s.(released := s.released + [t.id])
  }

  /** `clear`: stops, releases the current target at once if there is one,
      forgets it, and marks the loader cleared. */
  function Clear(s: Loader): (r: Loader)
    ensures !r.isRunning && r.isCleared && r.current == None
    ensures s.current.Some? ==> r.released == s.released + [s.current.value.id]
    ensures s.current == None ==> r.released == s.released
    ensures r.(isRunning := s.isRunning, isCleared := s.isCleared, current := s.current,
               released := s.released) == s
  {
    var stopped := Stop(s);
    var released := if stopped.current.Some? then Release(stopped, stopped.current.value) else stopped;
    released.(current := None, isCleared := true)
  }

  /** `getCurrentFrame`: the bitmap of the current target, or none. */
  function GetCurrentFrame(s: Loader): (b: Option<Bitmap>)
    ensures s.current == None ==> b == None
    ensures b.Some? ==> s.current.Some? && s.current.value.resource == b
    ensures s.current.Some? ==> b == s.current.value.resource
  {
    if s.current.Some? then s.current.value.resource else None
  }

  /** `DelayTarget.onResourceReady` for the i-th outstanding request: the
      target keeps the bitmap and posts itself for its target time. Nothing is
      decided here about being cleared; that waits for the message to fire. */
  function OnResourceReady(s: Loader, i: nat, bitmap: Bitmap): (r: Loader)
    requires i < |s.inFlight|
    ensures var t := s.inFlight[i].target;
            r.queue == s.queue + [Message(MSG_DELAY, t.(resource := Some(bitmap)), t.targetTime)]
    ensures r.inFlight == Remove(s.inFlight, i)
    ensures r.(inFlight := s.inFlight, queue := s.queue) == s
  {
    var t := s.inFlight[i].target.(resource := Some(bitmap));
    s.(inFlight := Remove(s.inFlight, i),
       queue := s.queue + [Message(MSG_DELAY, t, t.targetTime)])
  }

  /** The release messages a presentation posts for the target it replaces. */
  function ReleaseOf(previous: Option<DelayTarget>, now: int): (ms: seq<Message>)
    ensures previous == None ==> ms == []
    ensures previous.Some? ==> ms == [Message(MSG_CLEAR, previous.value, now)]
  {
    if previous.Some? then [Message(MSG_CLEAR, previous.value, now)] else []
  }

  /** The non-cleared part of `onFrameReady` before the next load: the target
      becomes current, the observer hears its index once, the previous target
      is posted for release, and no load is pending any more. */
  function Present(s: Loader, t: DelayTarget, now: int): (r: Loader)
    ensures r.current == Some(t)
    ensures r.notified == s.notified + [Notification(t.id, t.index, now)]
    ensures r.queue == s.queue + ReleaseOf(s.current, now)
    ensures !r.isLoadPending
    ensures r.(current := s.current, notified := s.notified, queue := s.queue,
               isLoadPending := s.isLoadPending) == s
  {
    var previous := s.current;
    s.(current := Some(t),
       notified := s.notified + [Notification(t.id, t.index, now)],
       queue := s.queue + ReleaseOf(previous, now),
       isLoadPending := false)
  }

  /** `onFrameReady`: when cleared, the target is only posted for release and
      nothing else changes (not even the pending flag); otherwise it is
      presented and the next load is attempted, which issues nothing when
      stopped. */
  function OnFrameReady(s: Loader, t: DelayTarget, now: int, report: DecoderReport): (r: Loader)
    ensures s.isCleared ==> r == s.(queue := s.queue + [Message(MSG_CLEAR, t, now)])
    ensures !s.isCleared ==> r.current == Some(t)
    ensures !s.isCleared ==> r.notified == s.notified + [Notification(t.id, t.index, now)]
    ensures !s.isCleared ==> r.queue == s.queue + ReleaseOf(s.current, now)
    ensures !s.isCleared ==> r.isLoadPending == s.isRunning
    ensures !s.isCleared && !s.isRunning ==> r == Present(s, t, now)
    ensures !s.isCleared && s.isRunning ==> IssuedOneLoad(Present(s, t, now), r, now, report)
  {
    if s.isCleared then
      s.(queue := s.queue + [Message(MSG_CLEAR, t, now)])
    else
      LoadNextFrame(Present(s, t, now), now, report)
  }

  /** `FrameLoaderCallback.handleMessage` for a message already taken off the
      queue. The boolean is the callback's return value: true exactly for a
      delay message. */
  function HandleMessage(s: Loader, m: Message, now: int, report: DecoderReport): (r: (Loader, bool))
    ensures r.1 <==> m.what == MSG_DELAY
    ensures m.what == MSG_DELAY ==> r.0 == OnFrameReady(s, m.obj, now, report)
    ensures m.what == MSG_CLEAR ==> r.0 == s.(released := s.released + [m.obj.id])
    ensures m.what != MSG_DELAY && m.what != MSG_CLEAR ==> r.0 == s
  {
    if m.what == MSG_DELAY then (OnFrameReady(s, m.obj, now, report), true)
    else if m.what == MSG_CLEAR then (Release(s, m.obj), false)
    else (s, false)
  }

  /** The handler's looper firing the i-th queued message, which must be due:
      the message leaves the queue; a release message releases exactly the
      target it carries; a delay message is checked against the cleared flag
      only now, at firing time. */
  function Dispatch(s: Loader, i: nat, now: int, report: DecoderReport): (r: Loader)
    requires i < |s.queue| && s.queue[i].when <= now
    ensures var m := s.queue[i];
            m.what == MSG_CLEAR ==>
              r == s.(queue := Remove(s.queue, i), released := s.released + [m.obj.id])
    ensures var m := s.queue[i];
            m.what == MSG_DELAY && s.isCleared ==>
              r == s.(queue := Remove(s.queue, i) + [Message(MSG_CLEAR, m.obj, now)])
    ensures var m := s.queue[i];
            m.what == MSG_DELAY && !s.isCleared ==>
              && r.current == Some(m.obj)
              && r.notified == s.notified + [Notification(m.obj.id, m.obj.index, now)]
              && r.released == s.released
              && r == OnFrameReady(s.(queue := Remove(s.queue, i)), m.obj, now, report)
  {
    HandleMessage(s.(queue := Remove(s.queue, i)), s.queue[i], now, report).0
  }
}

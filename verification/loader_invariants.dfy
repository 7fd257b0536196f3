/**
 * The invariants every reachable loader state keeps, and a proof that each
 * event preserves them:
 *   - single flight: at most one load is outstanding (in the pipeline or as a
 *     queued delay message), and if one is, the loader knows a load is pending;
 *   - accounting: every target ever created is, exactly once, either current,
 *     in flight, carried by a queued message, or released — so nothing is
 *     released twice and nothing is lost;
 *   - a cleared loader holds no current target;
 *   - the current target is the one most recently presented;
 *   - pacing: each presentation comes at least its frame's delay after the
 *     previous one.
 */
module LoaderInvariants {
  import opened Wrappers
  import opened FrameSignatures
  import opened GifFrameLoader

  // ---------------------------------------------------------------- counting

  /** The target ids of a sequence of requests. */
  function InFlightIds(rs: seq<Request>): (ids: seq<nat>)
    ensures |ids| == |rs|
    ensures forall k :: 0 <= k < |rs| ==> ids[k] == rs[k].target.id
  {
    seq(|rs|, k requires 0 <= k < |rs| => rs[k].target.id)
  }

  /** The target ids carried by a sequence of messages. */
  function QueuedIds(q: seq<Message>): (ids: seq<nat>)
    ensures |ids| == |q|
    ensures forall k :: 0 <= k < |q| ==> ids[k] == q[k].obj.id
  {
    seq(|q|, k requires 0 <= k < |q| => q[k].obj.id)
  }

  /** The number of delay messages in a queue. */
  function DelayCount(q: seq<Message>): nat
  {
    if q == [] then 0
    else DelayCount(q[..|q| - 1]) + (if q[|q| - 1].what == MSG_DELAY then 1 else 0)
  }

  lemma {:induction false} DelayCountConcat(a: seq<Message>, b: seq<Message>)
    ensures DelayCount(a + b) == DelayCount(a) + DelayCount(b)
    decreases |b|
  {
    if b == [] {
      assert a + b == a;
    } else {
      var b' := b[..|b| - 1];
      assert (a + b)[..|a + b| - 1] == a + b';
      DelayCountConcat(a, b');
    }
  }

  lemma DelayCountAppend(q: seq<Message>, m: Message)
    ensures DelayCount(q + [m]) == DelayCount(q) + (if m.what == MSG_DELAY then 1 else 0)
  {
    assert (q + [m])[..|q + [m]| - 1] == q;
  }

  lemma DelayCountSplit(pre: seq<Message>, m: Message, post: seq<Message>)
    ensures DelayCount(pre + [m] + post) == DelayCount(pre + post) + (if m.what == MSG_DELAY then 1 else 0)
  {
    DelayCountConcat(pre + [m], post);
    DelayCountAppend(pre, m);
    DelayCountConcat(pre, post);
  }

  lemma DelayCountRemove(q: seq<Message>, i: nat)
    requires i < |q|
    ensures DelayCount(q) == DelayCount(Remove(q, i)) + (if q[i].what == MSG_DELAY then 1 else 0)
  {
    var pre, post := q[..i], q[i + 1..];
    DelayCountSplit(pre, q[i], post);
    assert q == pre + [q[i]] + post;
  }

  /** A queue without delay messages holds none. */
  lemma NoDelayIn(q: seq<Message>, m: Message)
    requires DelayCount(q) == 0 && m in q
    ensures m.what != MSG_DELAY
  {
    var j :| 0 <= j < |q| && q[j] == m;
    DelayCountRemove(q, j);
  }

  lemma MultisetRemove(xs: seq<nat>, i: nat)
    requires i < |xs|
    ensures multiset(Remove(xs, i)) == multiset(xs) - multiset{xs[i]}
  {
    assert xs == xs[..i] + [xs[i]] + xs[i + 1..];
  }

  lemma InFlightIdsRemove(rs: seq<Request>, i: nat)
    requires i < |rs|
    ensures multiset(InFlightIds(Remove(rs, i))) == multiset(InFlightIds(rs)) - multiset{rs[i].target.id}
  {
    assert InFlightIds(Remove(rs, i)) == Remove(InFlightIds(rs), i);
    MultisetRemove(InFlightIds(rs), i);
  }

  lemma InFlightIdsAppend(rs: seq<Request>, r: Request)
    ensures multiset(InFlightIds(rs + [r])) == multiset(InFlightIds(rs)) + multiset{r.target.id}
  {
    assert InFlightIds(rs + [r]) == InFlightIds(rs) + [r.target.id];
  }

  lemma QueuedIdsRemove(q: seq<Message>, i: nat)
    requires i < |q|
    ensures multiset(QueuedIds(Remove(q, i))) + multiset{q[i].obj.id} == multiset(QueuedIds(q))
  {
    assert QueuedIds(Remove(q, i)) == Remove(QueuedIds(q), i);
    MultisetRemove(QueuedIds(q), i);
    assert QueuedIds(q)[i] == q[i].obj.id;
  }

  lemma QueuedIdsAppend(q: seq<Message>, m: Message)
    ensures multiset(QueuedIds(q + [m])) == multiset(QueuedIds(q)) + multiset{m.obj.id}
  {
    assert QueuedIds(q + [m]) == QueuedIds(q) + [m.obj.id];
  }

  /** The ids 0 .. n-1, each once. */
  function Upto(n: nat): multiset<nat>
  {
    if n == 0 then multiset{} else Upto(n - 1) + multiset{n - 1}
  }

  lemma {:induction false} UptoCount(n: nat, x: nat)
    ensures Upto(n)[x] == (if x < n then 1 else 0)
  {
    if n > 0 {
      UptoCount(n - 1, x);
    }
  }

  // -------------------------------------------------------------- invariants

  function CurrentIds(c: Option<DelayTarget>): multiset<nat>
  {
    if c.Some? then multiset{c.value.id} else multiset{}
  }

  /** Where every target is: current, in flight, queued, or released. */
  function Accounted(s: Loader): multiset<nat>
  {
    CurrentIds(s.current) + multiset(InFlightIds(s.inFlight))
      + multiset(QueuedIds(s.queue)) + multiset(s.released)
  }

  /** The number of loads outstanding: in the pipeline, or delivered and
      waiting for their target time. */
  function Outstanding(s: Loader): nat
  {
    |s.inFlight| + DelayCount(s.queue)
  }

  /** A delivered target: it has its bitmap and is otherwise the target it
      was submitted with. */
  predicate Delivered(sub: seq<Request>, t: DelayTarget)
  {
    t.id < |sub| && t.resource.Some? && t.(resource := None) == sub[t.id].target
  }

  /** A queued message is one the loader posts: a delay message due at its
      target's time, or a release message posted no later than `clock`. */
  predicate MessageOk(sub: seq<Request>, clock: int, m: Message)
  {
    && Delivered(sub, m.obj)
    && ((m.what == MSG_DELAY && m.when == m.obj.targetTime) || (m.what == MSG_CLEAR && m.when <= clock))
  }

  /** No presentation happened after uptime `t`. */
  predicate ShownNoLaterThan(ns: seq<Notification>, t: int)
  {
    |ns| == 0 || ns[|ns| - 1].at <= t
  }

  /** The k-th submission carries target id and signature uuid k, a target
      due its delay after submission, and was made no later than `clock`. */
  predicate SubmittedOk(sub: seq<Request>, clock: int)
  {
    forall k :: 0 <= k < |sub| ==>
      && sub[k].target.id == k && sub[k].signature.uuid == k && sub[k].target.resource == None
      && sub[k].target.targetTime == sub[k].issuedAt + sub[k].delay && sub[k].issuedAt <= clock
  }

  /** Every outstanding request is one that was submitted. */
  predicate InFlightOk(sub: seq<Request>, rs: seq<Request>)
  {
    forall r | r in rs :: r.target.id < |sub| && sub[r.target.id] == r
  }

  predicate QueueOk(sub: seq<Request>, clock: int, q: seq<Message>)
  {
    forall m | m in q :: MessageOk(sub, clock, m)
  }

  predicate CurrentOk(sub: seq<Request>, c: Option<DelayTarget>)
  {
    c.Some? ==> Delivered(sub, c.value)
  }

  /** The logs and the world are consistent with the loader's own history. */
  predicate WellFormed(s: Loader)
  {
    && SubmittedOk(s.submitted, s.clock)
    && InFlightOk(s.submitted, s.inFlight)
    && QueueOk(s.submitted, s.clock, s.queue)
    && CurrentOk(s.submitted, s.current)
  }

  predicate SingleFlight(s: Loader)
  {
    && Outstanding(s) <= 1
    && (Outstanding(s) == 1 ==> s.isLoadPending)
  }

  predicate ClearedHoldsNothing(s: Loader)
  {
    s.isCleared ==> s.current == None
  }

  predicate CurrentWasPresentedLast(s: Loader)
  {
    s.current.Some? ==>
      && |s.notified| > 0
      && s.notified[|s.notified| - 1].id == s.current.value.id
      && s.notified[|s.notified| - 1].index == s.current.value.index
  }

  /** Each presentation came no earlier than its target's time, and at least
      its frame's delay after the presentation before it. */
  predicate LogPaced(ns: seq<Notification>, sub: seq<Request>)
  {
    && (forall k :: 0 <= k < |ns| ==>
          ns[k].id < |sub| && ns[k].at >= sub[ns[k].id].target.targetTime)
    && (forall k :: 0 < k < |ns| ==>
          ns[k].id < |sub| && ns[k].at >= ns[k - 1].at + sub[ns[k].id].delay)
  }

  /** Every outstanding request was submitted no earlier than the last
      presentation. */
  predicate InFlightAfterShown(ns: seq<Notification>, rs: seq<Request>)
  {
    forall r | r in rs :: ShownNoLaterThan(ns, r.issuedAt)
  }

  predicate QueueAfterShown(ns: seq<Notification>, sub: seq<Request>, q: seq<Message>)
  {
    forall m | m in q && m.what == MSG_DELAY ::
      m.obj.id < |sub| && ShownNoLaterThan(ns, sub[m.obj.id].issuedAt)
  }

  /** Presentations come in order, each no earlier than its target's time and
      at least its frame's delay after the previous one; whatever is still
      outstanding was submitted after the last presentation. */
  predicate Paced(s: Loader)
  {
    && ShownNoLaterThan(s.notified, s.clock)
    && LogPaced(s.notified, s.submitted)
    && InFlightAfterShown(s.notified, s.inFlight)
    && QueueAfterShown(s.notified, s.submitted, s.queue)
  }

  predicate Valid(s: Loader)
  {
    && WellFormed(s)
    && Accounted(s) == Upto(|s.submitted|)
    && SingleFlight(s)
    && ClearedHoldsNothing(s)
    && CurrentWasPresentedLast(s)
    && Paced(s)
  }

  // ------------------------------------------------ the parts, piece by piece

  lemma DeliveredExtends(sub: seq<Request>, req: Request, t: DelayTarget)
    requires Delivered(sub, t)
    ensures Delivered(sub + [req], t)
  {
  }

  lemma QueueOkExtends(sub: seq<Request>, clock: int, q: seq<Message>, req: Request)
    requires QueueOk(sub, clock, q)
    ensures QueueOk(sub + [req], clock, q)
  {
    forall m | m in q
      ensures MessageOk(sub + [req], clock, m)
    {
      DeliveredExtends(sub, req, m.obj);
    }
  }

  lemma QueueOkLater(sub: seq<Request>, clock: int, later: int, q: seq<Message>)
    requires QueueOk(sub, clock, q) && clock <= later
    ensures QueueOk(sub, later, q)
  {
    forall m | m in q
      ensures MessageOk(sub, later, m)
    {
      assert MessageOk(sub, clock, m);
    }
  }

  lemma QueueOkRemove(sub: seq<Request>, clock: int, q: seq<Message>, i: nat)
    requires QueueOk(sub, clock, q) && i < |q|
    ensures QueueOk(sub, clock, Remove(q, i)) && MessageOk(sub, clock, q[i])
  {
    assert q[i] in q;
    forall m | m in Remove(q, i)
      ensures MessageOk(sub, clock, m)
    {
      RemoveKeeps(q, i, m);
    }
  }

  lemma QueueOkAppend(sub: seq<Request>, clock: int, q: seq<Message>, m: Message)
    requires QueueOk(sub, clock, q) && MessageOk(sub, clock, m)
    ensures QueueOk(sub, clock, q + [m])
  {
  }

  lemma InFlightOkExtends(sub: seq<Request>, rs: seq<Request>, req: Request)
    requires InFlightOk(sub, rs) && req.target.id == |sub|
    ensures InFlightOk(sub + [req], rs + [req])
  {
  }

  lemma InFlightOkRemove(sub: seq<Request>, rs: seq<Request>, i: nat)
    requires InFlightOk(sub, rs) && i < |rs|
    ensures InFlightOk(sub, Remove(rs, i))
    ensures rs[i].target.id < |sub| && sub[rs[i].target.id] == rs[i]
  {
    assert rs[i] in rs;
    forall r | r in Remove(rs, i)
      ensures r.target.id < |sub| && sub[r.target.id] == r
    {
      RemoveKeeps(rs, i, r);
    }
  }

  lemma LogPacedExtends(ns: seq<Notification>, sub: seq<Request>, req: Request)
    requires LogPaced(ns, sub)
    ensures LogPaced(ns, sub + [req])
  {
  }

  lemma InFlightAfterShownRemove(ns: seq<Notification>, rs: seq<Request>, i: nat)
    requires InFlightAfterShown(ns, rs) && i < |rs|
    ensures InFlightAfterShown(ns, Remove(rs, i))
    ensures ShownNoLaterThan(ns, rs[i].issuedAt)
  {
    assert rs[i] in rs;
    forall r | r in Remove(rs, i)
      ensures ShownNoLaterThan(ns, r.issuedAt)
    {
      RemoveKeeps(rs, i, r);
    }
  }

  lemma QueueAfterShownExtends(ns: seq<Notification>, sub: seq<Request>, q: seq<Message>, req: Request)
    requires QueueAfterShown(ns, sub, q)
    ensures QueueAfterShown(ns, sub + [req], q)
  {
    forall m | m in q && m.what == MSG_DELAY
      ensures m.obj.id < |sub + [req]| && ShownNoLaterThan(ns, (sub + [req])[m.obj.id].issuedAt)
    {
    }
  }

  lemma QueueAfterShownRemove(ns: seq<Notification>, sub: seq<Request>, q: seq<Message>, i: nat)
    requires QueueAfterShown(ns, sub, q) && i < |q|
    ensures QueueAfterShown(ns, sub, Remove(q, i))
    ensures q[i].what == MSG_DELAY ==> q[i].obj.id < |sub| && ShownNoLaterThan(ns, sub[q[i].obj.id].issuedAt)
  {
    assert q[i] in q;
    forall m | m in Remove(q, i) && m.what == MSG_DELAY
      ensures m.obj.id < |sub| && ShownNoLaterThan(ns, sub[m.obj.id].issuedAt)
    {
      RemoveKeeps(q, i, m);
    }
  }

  lemma QueueAfterShownAppend(ns: seq<Notification>, sub: seq<Request>, q: seq<Message>, m: Message)
    requires QueueAfterShown(ns, sub, q)
    requires m.what == MSG_DELAY ==> m.obj.id < |sub| && ShownNoLaterThan(ns, sub[m.obj.id].issuedAt)
    ensures QueueAfterShown(ns, sub, q + [m])
  {
  }

  lemma SubmittedOkExtends(sub: seq<Request>, clock: int, req: Request)
    requires SubmittedOk(sub, clock)
    requires req.target.id == |sub| && req.signature.uuid == |sub| && req.target.resource == None
    requires req.target.targetTime == req.issuedAt + req.delay && req.issuedAt <= clock
    ensures SubmittedOk(sub + [req], clock)
  {
  }

  lemma SubmittedOkLater(sub: seq<Request>, clock: int, later: int)
    requires SubmittedOk(sub, clock) && clock <= later
    ensures SubmittedOk(sub, later)
  {
  }

  lemma InFlightAfterShownAppend(ns: seq<Notification>, rs: seq<Request>, req: Request)
    requires InFlightAfterShown(ns, rs) && ShownNoLaterThan(ns, req.issuedAt)
    ensures InFlightAfterShown(ns, rs + [req])
  {
  }

  /** A queue without delay messages owes no presentation. */
  lemma QueueAfterShownNoDelay(ns: seq<Notification>, sub: seq<Request>, q: seq<Message>)
    requires DelayCount(q) == 0
    ensures QueueAfterShown(ns, sub, q)
  {
    forall m | m in q && m.what == MSG_DELAY
      ensures false
    {
      NoDelayIn(q, m);
    }
  }

  /** A presentation at `at` of a target submitted no earlier than the last
      presentation, and due by `at`, keeps the log paced. */
  lemma LogPacedAppend(ns: seq<Notification>, sub: seq<Request>, n: Notification)
    requires LogPaced(ns, sub) && n.id < |sub|
    requires n.at >= sub[n.id].target.targetTime
    requires sub[n.id].target.targetTime == sub[n.id].issuedAt + sub[n.id].delay
    requires ShownNoLaterThan(ns, sub[n.id].issuedAt)
    ensures LogPaced(ns + [n], sub)
  {
    var ns' := ns + [n];
    forall k | 0 < k < |ns'|
      ensures ns'[k].id < |sub| && ns'[k].at >= ns'[k - 1].at + sub[ns'[k].id].delay
    {
      if k < |ns| {
        assert ns'[k] == ns[k] && ns'[k - 1] == ns[k - 1];
      }
    }
  }
}

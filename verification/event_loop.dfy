/** `nm::EventLoop`: a registry, a FIFO queue of pending signals and a
    running flag, driven by a wait/drain cycle. The epoll wait is abstracted
    to a schedule of wake-ups supplied by the caller. */
module EventLoop {
  import opened Types
  import opened Token
  import FunctorMap

  /** The value of `EINVAL` on Linux: the one wait error `exec` does not
      treat as fatal. */
  const EINVAL: int := 22

  /** Bytes of the in-place argument buffer every queued signal owns. */
  const Capacity: nat := 1024

  /** A queued signal (`Data_t`): its token, its arguments and their size. */
  datatype Event = Event(sig: string, payload: Payload, size: nat)

  datatype Loop = Loop(registry: FunctorMap.Registry, queue: seq<Event>, running: bool)

  /** A freshly constructed loop: nothing bound, nothing queued, running. */
  function New(): (l: Loop)
    ensures l.running && l.queue == [] && l.registry == map[]
    ensures FunctorMap.WellFormed(l.registry)
  {
    Loop(map[], [], true)
  }

  /** `post(s_obj, s_fp, obj, fp)`: binds receiver `obj`'s method `fp` under
      the token of the sender pair. Nothing runs and nothing is queued. */
  function Post(l: Loop, sObj: Addr, sFp: Addr, rObj: Addr, rFp: Addr): (l': Loop)
    ensures FunctorMap.Handlers(l'.registry, Signature(sObj, sFp))
            == FunctorMap.Handlers(l.registry, Signature(sObj, sFp)) + [Bound(rObj, rFp)]
    ensures forall s :: s != Signature(sObj, sFp) ==>
              FunctorMap.Handlers(l'.registry, s) == FunctorMap.Handlers(l.registry, s)
    ensures l'.queue == l.queue && l'.running == l.running
  {
    l.(registry := FunctorMap.Bind(l.registry, Signature(sObj, sFp), Bound(rObj, rFp)))
  }

  /** `notify(obj, f, args...)`: queues one signal at the back, tagged with
      the token of the sender pair. It binds nothing and runs nothing.
      `EventLoop::notify` constructs the arguments in a 1024-byte buffer
      without checking their size, so fitting in it is the caller's
      obligation. */
  function Notify(l: Loop, obj: Addr, f: Addr, args: Payload, size: nat): (l': Loop)
    requires size <= Capacity
    ensures |l'.queue| == |l.queue| + 1
    ensures l'.queue[..|l.queue|] == l.queue
    ensures l'.queue[|l.queue|] == Event(Signature(obj, f), args, size)
    ensures l'.registry == l.registry && l'.running == l.running
  {
    l.(queue := l.queue + [Event(Signature(obj, f), args, size)])
  }

  /** `quit()`: clears the running flag; the queue and registry stay. */
  function Quit(l: Loop): (l': Loop)
    ensures !l'.running
    ensures l'.registry == l.registry && l'.queue == l.queue
  {
    l.(running := false)
  }

  /** Repeated `quit` calls are harmless. */
  lemma QuitIdempotent(l: Loop)
    ensures Quit(Quit(l)) == Quit(l)
  {
  }

  /** The reference dispatch trace of draining `q`: the events in FIFO order,
      each expanded to its token's wrappers in insertion order. */
  function DrainTrace(m: FunctorMap.Registry, q: seq<Event>): seq<Invocation>
    decreases |q|
  {
    if q == [] then [] else FunctorMap.Notify(m, q[0].sig, q[0].payload) + DrainTrace(m, q[1..])
  }

  /** Draining two queues back to back is draining their concatenation:
      every invocation for an earlier event precedes every invocation for a
      later one. */
  lemma {:induction false} DrainTraceAppend(m: FunctorMap.Registry, q1: seq<Event>, q2: seq<Event>)
    ensures DrainTrace(m, q1 + q2) == DrainTrace(m, q1) + DrainTrace(m, q2)
    decreases |q1|
  {
    if q1 == [] {
      assert q1 + q2 == q2;
    } else {
      assert (q1 + q2)[0] == q1[0];
      assert (q1 + q2)[1..] == q1[1..] + q2;
      DrainTraceAppend(m, q1[1..], q2);
    }
  }

  /** An event whose token has no registration contributes nothing. */
  lemma UnregisteredContributesNothing(m: FunctorMap.Registry, q1: seq<Event>, e: Event, q2: seq<Event>)
    requires e.sig !in m
    ensures DrainTrace(m, q1 + [e] + q2) == DrainTrace(m, q1 + q2)
  {
    DrainTraceAppend(m, q1 + [e], q2);
    DrainTraceAppend(m, q1, [e]);
    DrainTraceAppend(m, q1, q2);
    assert DrainTrace(m, [e]) == [] by {
      assert [e][1..] == [];
    }
  }

  /** Exactly the registered (handler, payload) pairs of the queued events
      appear in the trace, and nothing else. */
  lemma {:induction false} DrainTraceMembers(m: FunctorMap.Registry, q: seq<Event>, inv: Invocation)
    ensures inv in DrainTrace(m, q) <==>
            exists i :: 0 <= i < |q| && inv.handler in FunctorMap.Handlers(m, q[i].sig)
                                     && inv.payload == q[i].payload
    decreases |q|
  {
    if q != [] {
      DrainTraceMembers(m, q[1..], inv);
      var head := FunctorMap.Notify(m, q[0].sig, q[0].payload);
      var hs := FunctorMap.Handlers(m, q[0].sig);
      assert inv in head <==> inv.handler in hs && inv.payload == q[0].payload by {
        if inv in head {
          var k :| 0 <= k < |head| && head[k] == inv;
          assert hs[k] == inv.handler;
        }
        if inv.handler in hs && inv.payload == q[0].payload {
          var k :| 0 <= k < |hs| && hs[k] == inv.handler;
          assert head[k] == inv;
        }
      }
      if exists i :: 0 <= i < |q| && inv.handler in FunctorMap.Handlers(m, q[i].sig)
                                  && inv.payload == q[i].payload {
        var i :| 0 <= i < |q| && inv.handler in FunctorMap.Handlers(m, q[i].sig)
                              && inv.payload == q[i].payload;
        if i > 0 {
          assert q[1..][i - 1] == q[i];
        }
      }
      if exists i :: 0 <= i < |q[1..]| && inv.handler in FunctorMap.Handlers(m, q[1..][i].sig)
                                       && inv.payload == q[1..][i].payload {
        var i :| 0 <= i < |q[1..]| && inv.handler in FunctorMap.Handlers(m, q[1..][i].sig)
                                   && inv.payload == q[1..][i].payload;
        assert q[i + 1] == q[1..][i];
      }
    }
  }

  /** True when no invocation of `t` calls `quit()`. */
  predicate NoneQuits(t: seq<Invocation>, quits: Invocation -> bool) {
    forall k :: 0 <= k < |t| ==> !quits(t[k])
  }

  /** Nobody quits in a concatenation iff nobody quits in either part. */
  lemma NoneQuitsAppend(t1: seq<Invocation>, t2: seq<Invocation>, quits: Invocation -> bool)
    ensures NoneQuits(t1 + t2, quits) <==> NoneQuits(t1, quits) && NoneQuits(t2, quits)
  {
    if NoneQuits(t1 + t2, quits) {
      forall k | 0 <= k < |t1|
        ensures !quits(t1[k])
      {
        assert (t1 + t2)[k] == t1[k];
      }
      forall k | 0 <= k < |t2|
        ensures !quits(t2[k])
      {
        assert (t1 + t2)[|t1| + k] == t2[k];
      }
    }
    if NoneQuits(t1, quits) && NoneQuits(t2, quits) {
      forall k | 0 <= k < |t1 + t2|
        ensures !quits((t1 + t2)[k])
      {
        if k < |t1| {
          assert (t1 + t2)[k] == t1[k];
        } else {
          assert (t1 + t2)[k] == t2[k - |t1|];
        }
      }
    }
  }

  /** Popping the front event splits its fan-out off the front of the trace. */
  lemma DrainStep(m: FunctorMap.Registry, queue: seq<Event>)
    requires queue != []
    ensures DrainTrace(m, queue)
         == FunctorMap.Notify(m, queue[0].sig, queue[0].payload) + DrainTrace(m, queue[1..])
  {
  }

  datatype Drained = Drained(loop: Loop, trace: seq<Invocation>)

  /** One drain of the queue, one pop at a time: the front event is notified
      through the registry, then the rest is drained. A handler may call
      `quit()` (`quits`), which clears the flag but does not stop the drain.
      The result is the reference drain: the queue ends empty, the registry
      is untouched, the trace is the FIFO expansion of the queue, and the
      loop still runs iff it did and no dispatched handler quit. */
  function Drain(l: Loop, quits: Invocation -> bool): (d: Drained)
    ensures d.loop.queue == [] && d.loop.registry == l.registry
    ensures d.trace == DrainTrace(l.registry, l.queue)
    ensures d.loop.running <==> l.running && NoneQuits(d.trace, quits)
    decreases |l.queue|
  {
    if l.queue == [] then Drained(l, [])
    else
      var e := l.queue[0];
      var fired := FunctorMap.Notify(l.registry, e.sig, e.payload);
      var rest := Drain(Loop(l.registry, l.queue[1..], l.running && NoneQuits(fired, quits)), quits);
      DrainStep(l.registry, l.queue);
      NoneQuitsAppend(fired, rest.trace, quits);
      Drained(rest.loop, fired + rest.trace)
  }

  /** The imperative form of `Drain`, written as the drain loop of `exec`
      is: pop the front event and notify its token until the queue is empty.
      It performs exactly the reference drain: FIFO order, insertion order
      within an event, and a running flag cleared iff some dispatched handler
      quit. */
  method DrainQueue(l: Loop, quits: Invocation -> bool) returns (l': Loop, t: seq<Invocation>)
    ensures l'.queue == [] && l'.registry == l.registry
    ensures t == DrainTrace(l.registry, l.queue)
    ensures l'.running <==> l.running && NoneQuits(t, quits)
  {
    var queue := l.queue;
    var running := l.running;
    t := [];
    while queue != []
      invariant DrainTrace(l.registry, l.queue) == t + DrainTrace(l.registry, queue)
      invariant running <==> l.running && NoneQuits(t, quits)
      decreases |queue|
    {
      var e := queue[0];
      var fired := FunctorMap.Notify(l.registry, e.sig, e.payload);
      DrainStep(l.registry, queue);
      assert t + (fired + DrainTrace(l.registry, queue[1..]))
          == (t + fired) + DrainTrace(l.registry, queue[1..]);
      NoneQuitsAppend(t, fired, quits);
      running := running && NoneQuits(fired, quits);
      t := t + fired;
      queue := queue[1..];
    }
    l' := Loop(l.registry, [], running);
  }

  /** What one `epoll_wait` returns. */
  datatype WaitOutcome = Ready | Timeout | Failed(errno: int)

  /** One wake-up of the loop: the wait's outcome, and whether `quit()` was
      called from outside while the loop was blocked in it. */
  datatype Wake = Wake(outcome: WaitOutcome, quitWhileWaiting: bool)

  /** Why `exec` returned; `OutOfWakes` means the supplied schedule ended
      while the loop would still be waiting. */
  datatype Exit = Stopped | WaitError(errno: int) | OutOfWakes

  datatype Run = Run(loop: Loop, trace: seq<Invocation>, exit: Exit)

  /** A wait outcome that makes `exec` return: any failure but `EINVAL`. */
  predicate Fatal(o: WaitOutcome) {
    o.Failed? && o.errno != EINVAL
  }

  /** `exec()`: while running, wait; return on a fatal wait error or when the
      flag was cleared; otherwise drain the whole queue and wait again. */
  function Exec(l: Loop, wakes: seq<Wake>, quits: Invocation -> bool): (r: Run)
    ensures r.loop.registry == l.registry
    ensures !l.running ==> r == Run(l, [], Stopped)
    ensures r.loop.running ==> l.running
    ensures r.exit.Stopped? ==> !r.loop.running
    ensures r.exit.OutOfWakes? ==> r.loop.running
    ensures || (r.loop.queue == l.queue && r.trace == [])
            || (r.loop.queue == [] && r.trace == DrainTrace(l.registry, l.queue))
    decreases |wakes|
  {
    if !l.running then Run(l, [], Stopped)
    else if wakes == [] then Run(l, [], OutOfWakes)
    else
      var w := wakes[0];
      var l1 := if w.quitWhileWaiting then Quit(l) else l;
      if Fatal(w.outcome) then Run(l1, [], WaitError(w.outcome.errno))
      else if !l1.running then Run(l1, [], Stopped)
      else
        var d := Drain(l1, quits);
        var rest := Exec(d.loop, wakes[1..], quits);
        Run(rest.loop, d.trace + rest.trace, rest.exit)
  }

  /** After `quit`, `exec` returns at once and dispatches nothing, even when
      signals are still queued. */
  lemma ExecAfterQuit(l: Loop, wakes: seq<Wake>, quits: Invocation -> bool)
    ensures Exec(Quit(l), wakes, quits) == Run(Quit(l), [], Stopped)
  {
  }

  /** A `quit()` that lands while the loop is waiting is seen right after the
      wait: nothing is dispatched and the queue is left as it was. */
  lemma ExecQuitWhileWaiting(l: Loop, wakes: seq<Wake>, quits: Invocation -> bool)
    requires wakes != [] && wakes[0].quitWhileWaiting
    ensures Exec(l, wakes, quits).trace == []
    ensures Exec(l, wakes, quits).loop.queue == l.queue
    ensures !Exec(l, wakes, quits).loop.running
  {
  }

  /** A wait failing with any errno but `EINVAL` ends `exec` without
      draining. */
  lemma ExecWaitFailure(l: Loop, e: int, rest: seq<Wake>, quits: Invocation -> bool)
    requires l.running && e != EINVAL
    ensures Exec(l, [Wake(Failed(e), false)] + rest, quits) == Run(l, [], WaitError(e))
  {
  }

  /** A wait failing with `EINVAL` is treated like a timeout. */
  lemma ExecRetriesOnEinval(l: Loop, rest: seq<Wake>, quits: Invocation -> bool)
    ensures Exec(l, [Wake(Failed(EINVAL), false)] + rest, quits)
         == Exec(l, [Wake(Timeout, false)] + rest, quits)
  {
    assert ([Wake(Failed(EINVAL), false)] + rest)[1..] == rest;
    assert ([Wake(Timeout, false)] + rest)[1..] == rest;
  }

  /** A pass whose wait is not fatal and during which nobody quits drains
      the whole queue: the trace is the reference FIFO trace and nothing is
      left queued. */
  lemma ExecDrainsOnWake(l: Loop, w: WaitOutcome, rest: seq<Wake>, quits: Invocation -> bool)
    requires l.running && !Fatal(w)
    ensures Exec(l, [Wake(w, false)] + rest, quits).trace == DrainTrace(l.registry, l.queue)
    ensures Exec(l, [Wake(w, false)] + rest, quits).loop.queue == []
  {
    assert ([Wake(w, false)] + rest)[1..] == rest;
  }

  /** When a handler quits during a drain, the drain still completes and
      `exec` returns at the next loop test, without waiting again. */
  lemma ExecStopsAfterHandlerQuit(l: Loop, w: WaitOutcome, rest: seq<Wake>, quits: Invocation -> bool)
    requires l.running && !Fatal(w)
    requires !NoneQuits(DrainTrace(l.registry, l.queue), quits)
    ensures Exec(l, [Wake(w, false)] + rest, quits)
         == Run(Loop(l.registry, [], false), DrainTrace(l.registry, l.queue), Stopped)
  {
    assert ([Wake(w, false)] + rest)[1..] == rest;
  }

  /** Emitting and then draining appends the new signal's fan-out after the
      fan-out of everything queued before it. */
  lemma NotifyThenDrain(l: Loop, obj: Addr, f: Addr, args: Payload, size: nat)
    requires size <= Capacity
    ensures DrainTrace(l.registry, Notify(l, obj, f, args, size).queue)
         == DrainTrace(l.registry, l.queue) + FunctorMap.Notify(l.registry, Signature(obj, f), args)
  {
    var e := Event(Signature(obj, f), args, size);
    DrainTraceAppend(l.registry, l.queue, [e]);
    assert [e][1..] == [];
  }

  /** Connect then emit on an otherwise idle loop: the drain runs every
      receiver connected to that sender pair exactly once, in connect order,
      each handed the emitted argument buffer, the new receiver last. */
  lemma PostThenNotifyDelivers(l: Loop, sObj: Addr, sFp: Addr, rObj: Addr, rFp: Addr,
                               args: Payload, size: nat)
    requires l.queue == [] && size <= Capacity
    ensures var l' := Notify(Post(l, sObj, sFp, rObj, rFp), sObj, sFp, args, size);
            var hs := FunctorMap.Handlers(l.registry, Signature(sObj, sFp));
            DrainTrace(l'.registry, l'.queue) == FunctorMap.Fanout(hs + [Bound(rObj, rFp)], args)
  {
    var l1 := Post(l, sObj, sFp, rObj, rFp);
    NotifyThenDrain(l1, sObj, sFp, args, size);
  }
}

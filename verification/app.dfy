/** `nm::Object`: every participant reaches the one event loop through the
    shared `ev_` pointer and forwards `notify`/`post` to it. Here the pointer
    is explicit state: `None` when no `App` has created a loop. */
module Object {
  import opened Types
  import opened Token
  import EventLoop
  import FunctorMap

  type Context = Option<EventLoop.Loop>

  /** `Object::notify`: a no-op without a loop, whatever the size of the
      arguments; otherwise queues the signal on it (and only queues it). */
  function Notify(c: Context, obj: Addr, f: Addr, args: Payload, size: nat): (c': Context)
    requires c.Some? ==> size <= EventLoop.Capacity
    ensures c.None? ==> c' == c
    ensures c.Some? ==> && c'.Some?
                        && c'.value.queue == c.value.queue + [EventLoop.Event(Signature(obj, f), args, size)]
                        && c'.value.registry == c.value.registry
                        && c'.value.running == c.value.running
  {
    match c
    case None => None
    case Some(l) => Some(EventLoop.Notify(l, obj, f, args, size))
  }

  /** `Object::post`: a no-op without a loop, otherwise connects the receiver
      to the sender pair on it. */
  function Post(c: Context, sObj: Addr, sFp: Addr, rObj: Addr, rFp: Addr): (c': Context)
    ensures c.None? ==> c' == c
    ensures c.Some? ==> && c'.Some?
                        && FunctorMap.Handlers(c'.value.registry, Signature(sObj, sFp))
                           == FunctorMap.Handlers(c.value.registry, Signature(sObj, sFp)) + [Bound(rObj, rFp)]
                        && (forall s :: s != Signature(sObj, sFp) ==>
                              FunctorMap.Handlers(c'.value.registry, s) == FunctorMap.Handlers(c.value.registry, s))
                        && c'.value.queue == c.value.queue
                        && c'.value.running == c.value.running
  {
    match c
    case None => None
    case Some(l) => Some(EventLoop.Post(l, sObj, sFp, rObj, rFp))
  }
}

/** `nm::App`: creates the loop and forwards `exec`/`quit` to it. */
module App {
  import opened Types
  import Object
  import EventLoop

  /** The `App` constructor: a fresh, running, empty loop. */
  function New(): (c: Object.Context)
    ensures c.Some? && c.value.running && c.value.queue == [] && c.value.registry == map[]
  {
    Some(EventLoop.New())
  }

  datatype AppRun = AppRun(context: Object.Context, trace: seq<Invocation>)

  /** `App::exec`: nothing happens without a loop; otherwise the loop runs
      on the given wake-up schedule. */
  function Exec(c: Object.Context, wakes: seq<EventLoop.Wake>, quits: Invocation -> bool): (r: AppRun)
    ensures c.None? ==> r == AppRun(c, [])
    ensures c.Some? ==> && r.context.Some?
                        && r.context.value.registry == c.value.registry
                        && (|| (r.trace == [] && r.context.value.queue == c.value.queue)
                            || (r.trace == EventLoop.DrainTrace(c.value.registry, c.value.queue)
                                && r.context.value.queue == []))
  {
    match c
    case None => AppRun(c, [])
    case Some(l) =>
      var run := EventLoop.Exec(l, wakes, quits);
      AppRun(Some(run.loop), run.trace)
  }

  /** `App::quit`: nothing happens without a loop; otherwise the loop stops. */
  function Quit(c: Object.Context): (c': Object.Context)
    ensures c.None? ==> c' == c
    ensures c.Some? ==> && c'.Some? && !c'.value.running
                        && c'.value.registry == c.value.registry
                        && c'.value.queue == c.value.queue
  {
    match c
    case None => None
    case Some(l) => Some(EventLoop.Quit(l))
  }
}

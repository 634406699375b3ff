/** The demo program: `Foo` connects its `add(int, int)` and
    `add(string, string)` to the same-named methods of `Bar`; `Bar` emits
    once through each, and one pass of `exec` delivers both, the string
    handler calling `quit()`. Addresses are arbitrary but fixed. */
module Scenario {
  import opened Types
  import opened Token
  import Object
  import App
  import EventLoop
  import FunctorMap

  const FooObj: Addr := 140000
  const BarObj: Addr := 150000
  const BarAddInt: Addr := 4101
  const BarAddStr: Addr := 4102
  const FooAddInt: Addr := 4201
  const FooAddStr: Addr := 4202

  /** `Foo::add(string, string)` is the only handler that calls `quit()`. */
  predicate FooQuits(inv: Invocation) {
    inv.handler == Bound(FooObj, FooAddStr)
  }

  /** main.cpp after its two `post` calls. */
  function Connected(): Object.Context {
    var c0 := App.New();
    var c1 := Object.Post(c0, BarObj, BarAddInt, FooObj, FooAddInt);
    Object.Post(c1, BarObj, BarAddStr, FooObj, FooAddStr)
  }

  /** main.cpp after `bar->add(1, 2)` and `bar->add("hello ", "world")`. */
  function Emitted(): Object.Context {
    var c3 := Object.Notify(Connected(), BarObj, BarAddInt, [Int(1), Int(2)], 8);
    Object.Notify(c3, BarObj, BarAddStr, [Str("hello "), Str("world")], 64)
  }

  /** Each of Bar's tokens has exactly Foo's matching overload bound. */
  lemma DemoConnections()
    ensures Connected().Some?
    ensures FunctorMap.Handlers(Connected().value.registry, Signature(BarObj, BarAddInt))
            == [Bound(FooObj, FooAddInt)]
    ensures FunctorMap.Handlers(Connected().value.registry, Signature(BarObj, BarAddStr))
            == [Bound(FooObj, FooAddStr)]
  {
    SignatureDistinguishesMethods(BarObj, BarAddInt, BarAddStr);
  }

  /** The two emits queue one signal each, in emit order, and bind nothing. */
  lemma DemoQueue()
    ensures Emitted().Some? && Connected().Some?
    ensures Emitted().value.registry == Connected().value.registry
    ensures Emitted().value.running
    ensures Emitted().value.queue
         == [EventLoop.Event(Signature(BarObj, BarAddInt), [Int(1), Int(2)], 8),
             EventLoop.Event(Signature(BarObj, BarAddStr), [Str("hello "), Str("world")], 64)]
  {
  }

  /** Draining that queue runs Foo's int handler, then its string handler. */
  lemma DemoTrace()
    ensures Connected().Some? && Emitted().Some?
    ensures EventLoop.DrainTrace(Connected().value.registry, Emitted().value.queue)
         == [Invocation(Bound(FooObj, FooAddInt), [Int(1), Int(2)]),
             Invocation(Bound(FooObj, FooAddStr), [Str("hello "), Str("world")])]
  {
    DemoConnections();
    DemoQueue();
    var m := Connected().value.registry;
    var q := Emitted().value.queue;
    assert q[1..][1..] == [];
    assert EventLoop.DrainTrace(m, q)
        == FunctorMap.Notify(m, q[0].sig, q[0].payload) + FunctorMap.Notify(m, q[1].sig, q[1].payload);
  }

  /** Two connects, two emits, then one wake-up: the int handler runs on
      (1, 2), then the string handler on ("hello ", "world"), and `exec`
      returns because that handler quit. */
  lemma DemoRun()
    ensures var r := App.Exec(Emitted(), [EventLoop.Wake(EventLoop.Timeout, false)], FooQuits);
            && r.trace == [Invocation(Bound(FooObj, FooAddInt), [Int(1), Int(2)]),
                           Invocation(Bound(FooObj, FooAddStr), [Str("hello "), Str("world")])]
            && r.context.Some? && !r.context.value.running && r.context.value.queue == []
  {
    DemoQueue();
    DemoTrace();
    var l := Emitted().value;
    var t := EventLoop.DrainTrace(l.registry, l.queue);
    assert !EventLoop.NoneQuits(t, FooQuits) by {
      assert FooQuits(t[1]);
    }
    EventLoop.ExecStopsAfterHandlerQuit(l, EventLoop.Timeout, [], FooQuits);
  }
}

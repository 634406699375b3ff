/** `nm::meta::FunctorMap`: the callback registry. A token maps to the ordered
    list of type-erased wrappers bound under it; insertion order is
    invocation order. */
module FunctorMap {
  import opened Types

  type Registry = map<string, seq<Handler>>

  /** The wrappers bound under `sig`; a token with no entry has none. */
  function Handlers(m: Registry, sig: string): seq<Handler>
  {
    if sig in m then m[sig] else []
  }

  /** Every entry holds at least one wrapper: entries are only ever created
      by `bind`, which creates them holding the new wrapper. */
  predicate WellFormed(m: Registry) {
    forall sig :: sig in m ==> m[sig] != []
  }

  /** Both `bind` overloads: `bind(sig, f)` appends `Free(..)`,
      `bind(sig, obj, f)` appends `Bound(obj, f)`. An absent token gets a
      fresh entry holding just the new wrapper; a present one gets it
      appended at the end. There is no deduplication. */
  function Bind(m: Registry, sig: string, h: Handler): (m': Registry)
    ensures m'.Keys == m.Keys + {sig}
    ensures sig !in m ==> m'[sig] == [h]
    ensures Handlers(m', sig) == Handlers(m, sig) + [h]
    ensures |Handlers(m', sig)| == |Handlers(m, sig)| + 1
    ensures forall s :: s != sig ==> Handlers(m', s) == Handlers(m, s)
  {
    if sig !in m then m[sig := [h]] else m[sig := m[sig] + [h]]
  }

  /** Binding keeps every entry non-empty. */
  lemma BindPreservesWellFormed(m: Registry, sig: string, h: Handler)
    requires WellFormed(m)
    ensures WellFormed(Bind(m, sig, h))
  {
    var m' := Bind(m, sig, h);
    forall s | s in m'
      ensures m'[s] != []
    {
      assert Handlers(m', s) == m'[s];
      if s != sig {
        assert Handlers(m, s) == m'[s];
      }
    }
  }

  /** Binds `hs` under `sig` one after another, as a sequence of connects does. */
  function BindAll(m: Registry, sig: string, hs: seq<Handler>): Registry
    decreases |hs|
  {
    if hs == [] then m else Bind(BindAll(m, sig, hs[..|hs| - 1]), sig, hs[|hs| - 1])
  }

  /** A token's entry after a sequence of binds lists the bound wrappers in
      bind order, after whatever was there before. */
  lemma {:induction false} BindAllAppends(m: Registry, sig: string, hs: seq<Handler>)
    ensures Handlers(BindAll(m, sig, hs), sig) == Handlers(m, sig) + hs
    decreases |hs|
  {
    if hs != [] {
      var init := hs[..|hs| - 1];
      BindAllAppends(m, sig, init);
      assert hs == init + [hs[|hs| - 1]];
    }
  }

  /** Invokes each wrapper of `hs` once, in order, on the same payload. */
  function Fanout(hs: seq<Handler>, p: Payload): (t: seq<Invocation>)
    ensures |t| == |hs|
    ensures forall i :: 0 <= i < |t| ==> t[i] == Invocation(hs[i], p)
    decreases |hs|
  {
    if hs == [] then [] else [Invocation(hs[0], p)] + Fanout(hs[1..], p)
  }

  /** `notify(sig, param)`: on an absent token, nothing runs; otherwise every
      bound wrapper runs exactly once, in insertion order, each on the same
      payload. Returns the dispatch trace. */
  function Notify(m: Registry, sig: string, p: Payload): (t: seq<Invocation>)
    ensures sig !in m ==> t == []
    ensures |t| == |Handlers(m, sig)|
    ensures forall i :: 0 <= i < |t| ==> t[i].handler == Handlers(m, sig)[i] && t[i].payload == p
  {
    if sig !in m then [] else Fanout(m[sig], p)
  }

  /** Fan-out order is connect order: after binding `hs` under a fresh
      token, a notification runs exactly those wrappers, in bind order. */
  lemma NotifyFollowsBindOrder(m: Registry, sig: string, hs: seq<Handler>, p: Payload)
    requires sig !in m
    ensures Notify(BindAll(m, sig, hs), sig, p) == Fanout(hs, p)
  {
    BindAllAppends(m, sig, hs);
  }

  /** One more bind adds exactly one invocation, at the end of the trace. */
  lemma NotifyAfterBind(m: Registry, sig: string, h: Handler, p: Payload)
    ensures Notify(Bind(m, sig, h), sig, p) == Notify(m, sig, p) + [Invocation(h, p)]
  {
  }

  /** The value and trace of a synchronous typed call. */
  datatype Answer<R> = Answer(value: R, trace: seq<Invocation>)

  /** `call<R>(sig, args...)`: with no wrapper under `sig` it returns `zero`
      (`call<R>`'s `R()`) and runs nothing; otherwise it runs only the
      first wrapper and returns what `respond` says that wrapper returns. */
  function Call<R>(m: Registry, sig: string, args: Payload,
                   respond: (Handler, Payload) -> R, zero: R): (a: Answer<R>)
    ensures Handlers(m, sig) == [] ==> a == Answer(zero, [])
    ensures Handlers(m, sig) != [] ==>
              && a.trace == [Invocation(Handlers(m, sig)[0], args)]
              && a.value == respond(Handlers(m, sig)[0], args)
  {
    if sig !in m then Answer(zero, [])
    else if m[sig] == [] then Answer(zero, [])
    else Answer(respond(m[sig][0], args), [Invocation(m[sig][0], args)])
  }

  /** First responder wins: the synchronous call runs the first invocation of
      the broadcast and none of the later ones. */
  lemma CallIsFirstOfNotify<R>(m: Registry, sig: string, args: Payload,
                               respond: (Handler, Payload) -> R, zero: R)
    ensures var t := Notify(m, sig, args);
            var a := Call(m, sig, args, respond, zero);
            && a.trace == t[..if t == [] then 0 else 1]
            && (t == [] <==> a.value == zero && a.trace == [])
            && (t != [] ==> a.value == respond(t[0].handler, args))
  {
  }

  /** On a registry built by binds, a call under a registered token runs
      exactly one wrapper, the one bound first. */
  lemma CallOnBoundToken<R>(m: Registry, sig: string, args: Payload,
                            respond: (Handler, Payload) -> R, zero: R)
    requires WellFormed(m) && sig in m
    ensures |Call(m, sig, args, respond, zero).trace| == 1
    ensures Call(m, sig, args, respond, zero).trace[0].handler == m[sig][0]
  {
  }
}

# Signal/slot dispatcher and event loop

A Dafny model of the dispatch core of `signal_slot.h`. This is an in-process
signal/slot bus tied to a single-threaded event loop. It has three parts:

- **Callback registry** (`nm::meta::FunctorMap`, module `FunctorMap`). It maps a
  token to the ordered list of type-erased wrappers bound under it.
  `bind` appends a wrapper. `call<R>` runs only the first wrapper and returns
  its result, or `R()` when nothing is bound. `notify` runs every wrapper in
  insertion order on the same arguments.
- **Event loop** (`nm::EventLoop`, module `EventLoop`). It holds a registry, a
  FIFO queue of pending signals and a `running` flag. `post` connects a
  receiver under the token of a sender pair. `notify` (emit) queues a signal.
  `exec` waits, then either returns or drains the whole queue through the
  registry. `quit` clears the flag.
- **Forwarders** (`nm::Object` and `nm::App`, modules `Object` and `App`). These
  are no-ops when no loop exists and otherwise forward to the loop.

Token construction (`get_signature`) is in module `Token`. It concatenates
the decimal forms of the sender address and of the number the sender
method's pointer casts to.
Module `Scenario` replays the demo in `main.cpp`.

Every operation is a pure function over immutable values; the one method,
`EventLoop.DrainQueue`, is the imperative form of `EventLoop.Drain`, written
as the loop in `exec` is and proved equal to it. Each operation returns
the new loop state together with a *dispatch trace*: the sequence of
`(handler, payload)` invocations it performed. The following parts are
parameters of the model:
- `respond`: what a handler returns to `call<R>`.
- `quits`: whether a handler calls `quit()`, as `Foo::add(string, string)`
  does.
- the schedule of `Wake` values: the outcome of each `epoll_wait`
  (`Ready`, `Timeout` or `Failed(errno)`), and whether `quit()` arrived from
  outside while the loop was blocked in it.

`Exec` consumes one wake per pass. If the schedule runs out while the loop
would still be waiting, it reports `OutOfWakes`.

Three behaviours of the code are worth stating plainly, and the model keeps
each of them:
- **Wait errors.** `exec` keeps looping when the wait fails with `EINVAL`
  and returns on every other errno. That includes `EINTR`, so a wait
  interrupted by a signal ends the loop.
- **Token uniqueness.** Concatenating two numerals with no separator is not
  injective. `Token.SignatureCollision` shows `(1, 23)` and `(12, 3)` giving
  the same token. `Token.SignatureInjectiveAtFixedWidth` proves that a
  collision needs object addresses of different decimal widths.
- **Capacity.** Arguments are constructed in a 1024-byte buffer whose size
  is never checked. The model states the limit as a `requires` on
  `EventLoop.Notify`, and on `Object.Notify` when a loop exists.

## Model

| member | source | states |
|---|---|---|
| Token.DecimalString | signal_slot.h:322-323 | `std::to_string` of an address is a canonical numeral: only digits, at least one, no leading zero; its last digit is the value mod 10; one digit exactly for values below ten |
| Token.ParseDecimalString | signal_slot.h:322-323 | reading back what `DecimalString` printed gives the address back |
| Token.DecimalStringParse | signal_slot.h:322-323 | every canonical numeral is printed from its value, so printing and parsing are inverse bijections |
| Token.Signature | signal_slot.h:320-324 | the token is all digits, ends in the method address's last digit, and cut where the object's numeral ends, both halves are canonical numerals that parse back into exactly the object and method addresses |
| Token.SignatureInjectiveAtFixedWidth | signal_slot.h:320-324 | two sender pairs whose object addresses have the same decimal width share a token only if they are the same pair |
| Token.SignatureDistinguishesMethods | signal_slot.h:320-324 | one sender emitting through two different method addresses uses two different tokens, for any addresses |
| Token.SignatureCollision | signal_slot.h:320-324 | the token is not injective in general: (1, 23) and (12, 3) give the same token |
| FunctorMap.Bind | signal_slot.h:108-153 | an absent token gets an entry holding exactly the new wrapper; a present one gets it appended at the end; the list grows by exactly one; every other token's list is unchanged |
| FunctorMap.BindPreservesWellFormed | signal_slot.h:119-127 | binding never leaves an empty entry in the registry |
| FunctorMap.BindAllAppends | signal_slot.h:144-152 | a sequence of binds under one token appends the wrappers in bind order after the earlier ones, with no deduplication |
| FunctorMap.Fanout | signal_slot.h:178-181 | one invocation per wrapper, position by position, every one on the same payload |
| FunctorMap.Notify | signal_slot.h:171-182 | an absent token runs nothing; otherwise every bound wrapper runs exactly once, in insertion order, on the same payload |
| FunctorMap.NotifyFollowsBindOrder | signal_slot.h:171-182 | after binding a list of wrappers under a fresh token, a notification runs exactly that list in bind order |
| FunctorMap.NotifyAfterBind | signal_slot.h:144-182 | one more bind adds exactly one invocation, at the end of the notification trace |
| FunctorMap.Call | signal_slot.h:155-169 | with no wrapper bound it returns `R()` and runs nothing; otherwise it runs only the first wrapper and returns that wrapper's result; it returns no registry, so the map is left as it was |
| FunctorMap.CallIsFirstOfNotify | signal_slot.h:155-182 | the synchronous call's trace is the first invocation of the broadcast trace and nothing more; it returns `R()` without running anything exactly when the broadcast would run nothing |
| FunctorMap.CallOnBoundToken | signal_slot.h:163-168 | on a registry built by binds, a call under a bound token runs exactly one wrapper, the first one bound |
| EventLoop.New | signal_slot.h:313-318 | a new loop is running, with nothing bound and nothing queued |
| EventLoop.Post | signal_slot.h:217-225 | connects the receiver method at the end of the sender pair's token list; other tokens, the queue and the flag are unchanged |
| EventLoop.Notify | signal_slot.h:227-239 | queues exactly one signal at the back, tagged with the sender pair's token and carrying the arguments; earlier entries, the registry and the flag are unchanged |
| EventLoop.Quit | signal_slot.h:269-273 | the loop is no longer running; registry and queue are untouched |
| EventLoop.QuitIdempotent | signal_slot.h:269-273 | a second `quit` changes nothing |
| EventLoop.DrainTraceAppend | signal_slot.h:260-265 | draining is FIFO: the trace of two queues back to back is the first queue's trace followed by the second's |
| EventLoop.UnregisteredContributesNothing | signal_slot.h:173-176 | a queued signal whose token has no registration adds nothing to the drain trace, wherever it sits in the queue |
| EventLoop.DrainTraceMembers | signal_slot.h:260-265 | an invocation is in the drain trace iff its handler is bound under the token of some queued signal and its payload is that signal's payload |
| EventLoop.Drain | signal_slot.h:260-265 | draining pop by pop leaves the queue empty and the registry unchanged, performs exactly the FIFO reference trace, and leaves the loop running iff it was and no dispatched handler quit |
| EventLoop.DrainQueue | signal_slot.h:260-265 | popping and notifying until empty leaves the queue empty and the registry unchanged, performs exactly the FIFO reference trace, and leaves the loop running iff it was and no dispatched handler quit |
| EventLoop.Exec | signal_slot.h:241-267 | never changes the registry; returns at once when not running; never sets the flag again once it is cleared; `Stopped` only when no longer running; either dispatches nothing and leaves the queue alone, or empties the queue with exactly the FIFO trace |
| EventLoop.ExecAfterQuit | signal_slot.h:243 | after `quit`, `exec` returns at once and dispatches nothing, even with signals still queued |
| EventLoop.ExecQuitWhileWaiting | signal_slot.h:254-257 | a `quit` that lands during the wait stops the loop right after it, with nothing dispatched and the queue unchanged |
| EventLoop.ExecWaitFailure | signal_slot.h:246-253 | a wait failing with any errno but `EINVAL` ends `exec` with that error, nothing dispatched and nothing changed |
| EventLoop.ExecRetriesOnEinval | signal_slot.h:249 | a wait failing with `EINVAL` behaves exactly like a timeout |
| EventLoop.ExecDrainsOnWake | signal_slot.h:254-265 | a non-fatal wake while running drains the whole queue; the trace is the FIFO expansion of the queue |
| EventLoop.ExecStopsAfterHandlerQuit | signal_slot.h:243-266 | a handler calling `quit` does not cut the drain short, and `exec` then returns without waiting again |
| EventLoop.NotifyThenDrain | signal_slot.h:227-265 | an emitted signal is delivered after everything queued before it, fanned out over its token's wrappers |
| EventLoop.PostThenNotifyDelivers | signal_slot.h:217-239 | after connect then emit on an idle loop, the drain runs every receiver connected to that sender pair once, in connect order, each handed the emitted argument buffer |
| Object.Notify | signal_slot.h:332-340 | without a loop nothing changes, whatever the argument size; with one, the signal is queued at the back and nothing else changes |
| Object.Post | signal_slot.h:342-350 | without a loop nothing changes; with one, the receiver is appended under the sender pair's token and every other token's list, the queue and the flag are unchanged |
| App.New | signal_slot.h:360-363 | the application starts with a running, empty loop |
| App.Exec | signal_slot.h:373-379 | without a loop nothing runs; with one, it dispatches either nothing or exactly the FIFO trace of the queue |
| App.Quit | signal_slot.h:381-387 | without a loop nothing changes; with one, the loop stops with queue and registry untouched |
| Scenario.DemoConnections | main.cpp:56-57 | after the two connects, each of Bar's tokens has exactly Foo's matching overload bound |
| Scenario.DemoQueue | main.cpp:60-61 | the two emits queue one signal each, in emit order, and bind nothing |
| Scenario.DemoTrace | main.cpp:56-61 | draining that queue runs Foo's int handler on (1, 2), then Foo's string handler on ("hello ", "world") |
| Scenario.DemoRun | main.cpp:56-62 | one pass of `exec` performs exactly those two invocations, empties the queue and stops, because the string handler quits |

## Left out

- epoll, the socket pair and the byte `quit` writes (signal_slot.h:195-215, 245, 271). These are OS I/O. Each wait is a `Wake` supplied by the caller, and a `quit` from outside during a wait is a flag on it. The unchecked `maxevents` argument `sizeof(rev_)` is not modelled.
- The template type-erasure machinery: `Inspector`, `call_impl` and index-sequence forwarding (signal_slot.h:29-101). A wrapper is a `Handler` value. `Bound(receiver, slot)` comes from the receiver overload of `bind`. `Free(id)` comes from the plain overload.
- `Data_t` and the placement construction of arguments into its 1024-byte buffer (signal_slot.h:237, 276-311). The payload is a value, and the buffer capacity is a `requires`.
- The explicit `~arg_t()` run by the bound-form wrapper (signal_slot.h:142). With two or more receivers, this destroys one shared argument buffer once per receiver. The model gives every receiver the same payload value and claims nothing about the state of the arguments after the first receiver.
- Handlers that emit, connect or call synchronously while a drain is running. The inner drain loop would also drain signals emitted during the drain, and that process need not terminate. Handlers here can affect the loop only by calling `quit`.
- EventLoop.Exec: runs on a finite wake schedule. A loop that keeps running past the schedule's end is reported as `OutOfWakes` rather than waiting forever.
- FunctorMap.Call: models `call<R>` as evidently intended, with the argument tuple passed by address. As written, signal_slot.h:166 passes the tuple itself to a wrapper that takes `void*` (signal_slot.h:35), so any use of `call<R>` fails to compile; the demo never uses it.
- FunctorMap.Notify: models only receivers whose method returns `void`. `notify` passes a null result pointer (signal_slot.h:56, 180), and a wrapper around a value-returning callable writes its result through it (signal_slot.h:42, 48), so dispatching to such a receiver crashes. `Handler` carries no result kind.
- EventLoop.PostThenNotifyDelivers: states that each receiver is handed the emitted buffer, not that each sees intact arguments. The bound-form wrapper destroys the shared argument tuple after its receiver returns (signal_slot.h:142), so a later receiver of the same signal sees destroyed arguments.
- Token.SignatureDistinguishesMethods: takes the number of a method as given. The code obtains it by casting a pointer to member function to `void*` (signal_slot.h:220-223), which is unspecified behaviour; the lemma, and `Scenario.DemoConnections` through it, hold only when two distinct methods get distinct numbers.
- Logging. It is diagnostics only.
- The static `Object::ev_` pointer and the `new`/`delete` lifetime of the loop in `App`. The pointer is an explicit `Option` context, and teardown is not modelled.
- Threads. The loop is single-threaded, and a `quit` from outside is modelled only at a wait boundary.

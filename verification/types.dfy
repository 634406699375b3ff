/** Values shared by the registry and the event loop of the signal/slot bus. */
module Types {

  /** A raw address as produced by `reinterpret_cast<uintptr_t>` on a 64-bit
      target. For a method it is whatever number the cast of its pointer to
      `void*` yields, taken as given. */
  type Addr = n: nat | n < 0x1_0000_0000_0000_0000

  /** One argument of an emitted signal. The C++ side holds arbitrary types in
      place inside a byte buffer; the two kinds the demo uses are enough here. */
  datatype Value = Int(i: int) | Str(s: string)

  /** The argument tuple carried by one signal, in parameter order. */
  type Payload = seq<Value>

  /** A type-erased wrapper as stored in the registry.
      `Bound` is what `bind(sig, obj, f)` builds: a receiver instance and one of
      its methods (`slot`). `Free` is what `bind(sig, f)` builds: a plain callable,
      identified here by an abstract id. */
  datatype Handler =
    | Bound(receiver: Addr, slot: Addr)
    | Free(callable: nat)

  /** One entry of a dispatch trace: this handler ran on this payload. */
  datatype Invocation = Invocation(handler: Handler, payload: Payload)

  datatype Option<T> = None | Some(value: T)
}

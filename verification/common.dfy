/** Shared vocabulary of the persistence layer: optional results, the
    serialisation codecs the layer is built on, and initializer closures. */
module Common {

  datatype Option<+T> = None | Some(value: T) {
    /** The value, or `default` on None (Rust's `unwrap_or`). */
    function GetOr(default: T): T {
      match this
      case Some(v) => v
      case None => default
    }
  }

  /** A serialisation format the layer treats as a black box: `encode` turns
      a value into its wire form `W`, `decode` parses it back and fails with
      None on malformed input or a type mismatch. */
  datatype Codec<!T, !W> = Codec(encode: T -> W, decode: W -> Option<T>)

  /** What every serde format used here promises: decoding an encoding gives
      the value back. Lemmas that rely on it take it as a precondition. */
  ghost predicate RoundTrips<T(!new), W>(c: Codec<T, W>) {
    forall v :: c.decode(c.encode(v)) == Some(v)
  }

  /** A caller-supplied `FnOnce() -> T`. Calling it is a side effect the
      model counts, so that "the initializer is not run" can be stated. */
  class Initializer<T> {
    const make: () -> T
    var calls: nat

    constructor (make: () -> T)
      ensures this.make == make && calls == 0
    {
      this.make := make;
      calls := 0;
    }

    method Call() returns (v: T)
      modifies this
      ensures v == make()
      ensures calls == old(calls) + 1
    {
      v := make();
      calls := calls + 1;
    }
  }
}

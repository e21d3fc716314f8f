/** The records behind remote calls (jrpc/rpc.go) and the functions by which the client changes them
    (jrpc/rpcclient.go). `C` stands for calls, `R` for reply variables, `F` for callbacks. */
module CallSpec {
  import opened Collections

  /** Calls kept in the buffered part of the pool. */
  const MAX_RPC_CALL_POOL := 10240

  /** How long a call may stay unanswered, in ms. */
  const CALL_RPC_TIMEOUT := 15_000

  datatype Failure = Unencodable | Disconnected | Unsent | TookTooLong | Undecodable | Remote(text: string)

  /** The reply carried by an answer: none at all, one that decodes to a value, or one that does not decode and may
      leave something in the reply variable all the same. */
  datatype Body = Empty | Decoded(value: nat) | Malformed(partial: Option<nat>)

  /** What decoding leaves in the reply variable, if anything. */
  function Written(b: Body): (value: Option<nat>) {
    match b
    case Empty => None
    case Decoded(v) => Some(v)
    case Malformed(partial) => partial
  }

  datatype Answer = Answer(number: nat, body: Body, err: Option<string>)

  datatype Rec<C, R, F> = Rec(
    ref: bool, number: nat, err: Option<Failure>, reply: Option<R>, callback: Option<F>, done: seq<C>)

  function Blank<C, R, F>(): (r: Rec<C, R, F>) {
    Rec(false, 0, None, None, None, [])
  }

  /** `Clear` resets everything but the mark that the call is in use; a filled done channel is replaced. */
  function Cleared<C, R, F>(r: Rec<C, R, F>): (out: Rec<C, R, F>) {
    Blank<C, R, F>().(ref := r.ref)
  }

  /** The error an answer leaves in the call: an error sent by the peer covers one met while decoding. */
  function ErrOf(a: Answer): (r: Option<Failure>) {
    if a.err.Some? then Some(Remote(a.err.value))
    else if a.body.Malformed? then Some(Undecodable)
    else None
  }

  /** A finished call without callback is sent down its own done channel. */
  function Finished<C, R, F>(r: Rec<C, R, F>, self: C, err: Option<Failure>): (out: Rec<C, R, F>) {
    r.(err := err, done := if r.callback.None? then r.done + [self] else r.done)
  }

  /** The buffered part of the pool first in, first out; what does not fit goes to the overflow part. */
  datatype Pool<!C> = Pool(free: seq<C>, spare: set<C>) {
    ghost predicate Holds(c: C) {
      c in free || c in spare
    }

    /** `Get` may hand out `c`: the oldest buffered call, else a spare one, else one just made. */
    ghost predicate Gives(c: C, known: bool) {
      if free != [] then c == free[0] else c in spare || !known
    }

    function Without(c: C): (r: Pool<C>) {
      if free != [] then Pool(free[1..], spare) else Pool(free, spare - {c})
    }

    function With(c: C): (r: Pool<C>) {
      if |free| < MAX_RPC_CALL_POOL then Pool(free + [c], spare) else Pool(free, spare + {c})
    }
  }
}

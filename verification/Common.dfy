/** Values shared by every component: optional results, error results, bytes and lock attempts. */
module Common {

  datatype Option<+T> = None | Some(value: T)

  datatype Result<+T, +E> = Success(value: T) | Failure(error: E)

  type Byte = b: int | 0 <= b < 256

  type Bytes = seq<Byte>

  /** One non-blocking attempt on a lock file: taken; contended, before or after the deadline; or refused
      by the system. */
  datatype Try = Taken | Contended(late: bool) | Broken

  predicate Decisive(t: Try) {
    t.Taken? || t.Broken? || t.late
  }

  /** The attempt that ends a bounded wait: the clock passes the deadline at some attempt, so there is one. */
  predicate Settled(tries: seq<Try>, last: nat) {
    last < |tries| && Decisive(tries[last]) && forall i :: 0 <= i < last ==> !Decisive(tries[i])
  }

  function Max(a: real, b: real): (r: real)
    ensures r >= a && r >= b && (r == a || r == b)
  {
    if a < b then b else a
  }
}

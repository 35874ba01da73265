/** Types shared by every model: optional and fallible values, bytes, and time. */
module Base {

  datatype Option<+T> = None | Some(value: T)

  datatype Result<+T, +E> = Ok(value: T) | Err(error: E)

  newtype Byte = b: int | 0 <= b < 256

  type Bytes = seq<Byte>

  /** Reading an entry of a map that may be missing. */
  function Lookup<K, V>(m: map<K, V>, k: K): Option<V> {
    if k in m then Some(m[k]) else None
  }

  lemma SmallerSet<T>(small: set<T>, big: set<T>, x: T)
    requires small <= big && x in big && x !in small
    ensures |small| < |big|
  {
    assert big == small + (big - small) && x in big - small;
  }

  /** Instants are nanoseconds since the Unix epoch; the database keeps whole seconds. */
  type Instant = nat

  const SECOND: nat := 1_000_000_000

  function Unix(t: Instant): nat {
    t / SECOND
  }

  function FromUnix(seconds: nat): Instant {
    seconds * SECOND
  }

  lemma UnixMonotone(t: Instant, u: Instant)
    requires t <= u
    ensures Unix(t) <= Unix(u)
  {
  }

  /** A later second means later; the converse fails only within one second. */
  lemma ExpiryInSeconds(e: Instant, now: Instant)
    ensures Unix(e) > Unix(now) <==> e > now && Unix(e) != Unix(now)
  {
    if e >= now { UnixMonotone(now, e); } else { UnixMonotone(e, now); }
  }

  lemma WholeInstant(e: Instant, now: Instant)
    requires e == FromUnix(Unix(e))
    ensures Unix(e) == Unix(now) ==> e <= now
  {
  }

  lemma UnixOfFromUnix(seconds: nat)
    ensures Unix(FromUnix(seconds)) == seconds
  {
  }
}

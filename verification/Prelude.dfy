/** Types and sequence functions shared by every module. */
module Prelude {
  datatype Option<+T> = None | Some(value: T)
  datatype Result<+T, +E> = Ok(value: T) | Err(error: E)

  type Bytes = seq<bv8>

  datatype SocketAddr = SocketAddr(ip: Bytes, port: nat)

  // AtomicU64 and AtomicUsize (on the 64-bit targets the program is built for)
  // wrap around on overflow.
  const U64_RANGE: nat := 0x1_0000_0000_0000_0000

  /** n modulo 2^64. */
  function Wrap(n: nat): (w: nat)
    ensures w < U64_RANGE && w <= n
  {
    if n < U64_RANGE then n else Wrap(n - U64_RANGE)
  }

  lemma {:induction false} WrapIsModulo(n: nat)
    ensures Wrap(n) == n % U64_RANGE
  {
    if n >= U64_RANGE {
      WrapIsModulo(n - U64_RANGE);
      assert (n - U64_RANGE + U64_RANGE) % U64_RANGE == (n - U64_RANGE) % U64_RANGE;
    }
  }

  lemma {:induction false} WrapTwice(a: nat, n: nat)
    ensures Wrap(Wrap(a) + n) == Wrap(a + n)
  {
    if a >= U64_RANGE {
      WrapTwice(a - U64_RANGE, n);
    }
  }

  /** Wrapped numbers differ by no more than the numbers, and by less once one of them wrapped
      since the other. */
  lemma {:induction false} WrapGap(a: nat, b: nat)
    requires a <= b
    ensures Wrap(b) - Wrap(a) <= b - a
    ensures a < U64_RANGE <= b ==> Wrap(b) <= b - U64_RANGE
  {
    if a >= U64_RANGE {
      WrapGap(a - U64_RANGE, b - U64_RANGE);
    }
  }

  /** The difference of two wrapped counters is right modulo 2^64. */
  lemma WrappedDifference(a: nat, b: nat, n: nat)
    requires a == b + n
    ensures (Wrap(a) - Wrap(b)) % U64_RANGE == n % U64_RANGE
  {
    WrapIsModulo(a);
    WrapIsModulo(b);
    var q := a / U64_RANGE - b / U64_RANGE;
    assert Wrap(a) - Wrap(b) == n - q * U64_RANGE;
    ModShiftDown(q, n);
  }

  lemma {:induction false} ModShiftDown(q: nat, n: int)
    ensures (n - q * U64_RANGE) % U64_RANGE == n % U64_RANGE
  {
    if q > 0 {
      ModShiftDown(q - 1, n);
      var m := n - q * U64_RANGE;
      assert n - (q - 1) * U64_RANGE == m + U64_RANGE;
      assert (m + U64_RANGE) % U64_RANGE == m % U64_RANGE;
    }
  }

  function Last<T>(s: seq<T>): T
    requires s != []
  {
    s[|s| - 1]
  }

  function Init<T>(s: seq<T>): seq<T>
    requires s != []
  {
    s[..|s| - 1]
  }

  function Flatten<T>(rows: seq<seq<T>>): seq<T>
  {
    if rows == [] then [] else Flatten(Init(rows)) + Last(rows)
  }

  /** The elements of s that satisfy p, in order. */
  function Filter<T>(p: T -> bool, s: seq<T>): seq<T>
  {
    if s == [] then []
    else Filter(p, Init(s)) + (if p(Last(s)) then [Last(s)] else [])
  }

  lemma {:induction false} FilterConcat<T>(p: T -> bool, a: seq<T>, b: seq<T>)
    ensures Filter(p, a + b) == Filter(p, a) + Filter(p, b)
  {
    if b == [] {
      assert a + b == a;
    } else {
      assert Init(a + b) == a + Init(b);
      FilterConcat(p, a, Init(b));
    }
  }

  predicate NoDuplicates<T(==)>(s: seq<T>)
  {
    forall i, j :: 0 <= i < j < |s| ==> s[i] != s[j]
  }
}

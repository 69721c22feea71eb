/** Vocabulary shared by every component: bytes, keys and optional values. */
module Basics {

  type byte = x: int | 0 <= x < 256

  type Bytes = seq<byte>

  /** Keys and values are length-delimited byte strings and may hold any byte. */
  type Key = Bytes

  datatype Option<+T> = None | Some(value: T)

  function Max(a: nat, b: nat): nat {
    if a < b then b else a
  }

  ghost predicate NoDuplicates<T>(s: seq<T>) {
    forall i, j :: 0 <= i < j < |s| ==> s[i] != s[j]
  }

  lemma {:induction false} NoDuplicatesAppend<T>(s: seq<T>, x: T)
    requires NoDuplicates(s) && x !in s
    ensures NoDuplicates(s + [x])
  {
  }

  ghost function Elements<T>(s: seq<T>): set<T> {
    set x | x in s
  }

  /** A quotient is known by its multiple. */
  lemma QuotientIs(n: nat, d: nat, q: nat)
    requires 0 < d && q * d <= n < q * d + d
    ensures n / d == q
  {
    var r := n - q * d;
    assert n == q * d + r;
    if n / d < q {
      assert (n / d + 1) * d <= q * d by {
        Ordered(n / d + 1, q, d);
      }
    } else if n / d > q {
      assert (q + 1) * d <= (n / d) * d by {
        Ordered(q + 1, n / d, d);
      }
    }
  }

  lemma Ordered(a: nat, b: nat, d: nat)
    requires a <= b
    ensures a * d <= b * d
  {
  }
}

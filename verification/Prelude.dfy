/** Types and sequence facts shared by the modules of this project. */
module Prelude {

  datatype Option<+T> = None | Some(value: T)
  {
    function GetOr(default: T): T {
      match this
      case Some(v) => v
      case None => default
    }
  }

  datatype Result<+T, +E> = Success(value: T) | Failure(error: E)

  ghost predicate Distinct<T>(s: seq<T>) {
    forall i, j :: 0 <= i < j < |s| ==> s[i] != s[j]
  }

  /** A sequence longer than the set its elements come from repeats an element. */
  lemma {:induction false} Pigeonhole<T>(s: seq<T>, pool: set<T>) returns (i: nat, j: nat)
    requires |s| > |pool|
    requires forall k :: 0 <= k < |s| ==> s[k] in pool
    ensures i < j < |s| && s[i] == s[j]
  {
    if s[0] in s[1..] {
      i := 0;
      j :| 0 < j < |s| && s[j] == s[0];
    } else {
      forall k | 0 <= k < |s[1..]|
        ensures s[1..][k] in pool - {s[0]}
      {
        assert s[1..][k] in s[1..];
      }
      i, j := Pigeonhole(s[1..], pool - {s[0]});
      i, j := i + 1, j + 1;
    }
  }

  lemma MulMono(a: real, b: real, c: real)
    requires a <= b && 0.0 <= c
    ensures a * c <= b * c
  {
  }

  lemma MulUnit(a: real, b: real)
    requires 0.0 <= a <= 1.0 && 0.0 <= b <= 1.0
    ensures 0.0 <= a * b <= 1.0 && a * b <= a && a * b <= b
  {
    MulMono(b, 1.0, a);
    MulMono(a, 1.0, b);
  }

  function Pow2(n: nat): nat {
    if n == 0 then 1 else 2 * Pow2(n - 1)
  }

  /** A name for multiplication, so that a proof may hide it. */
  function Times(a: int, b: int): int {
    a * b
  }

  lemma TimesDoubles(a: int, b: int)
    ensures Times(2 * a, b) == 2 * Times(a, b)
    ensures Times(1, b) == b
  {
  }

  lemma {:induction false} Pow2Product(a: nat, b: nat)
    ensures Pow2(a + b) == Times(Pow2(a), Pow2(b))
  {
    hide Times;
    if a > 0 {
      Pow2Product(a - 1, b);
      TimesDoubles(Pow2(a - 1), Pow2(b));
    } else {
      TimesDoubles(1, Pow2(b));
    }
  }

  /** A power of two: two to the first is two, and exponents add up. */
  lemma Pow2Adds(a: nat, b: nat)
    ensures Pow2(1) == 2 && Pow2(a + b) == Pow2(a) * Pow2(b)
  {
    assert Pow2(1) == 2 * Pow2(0);
    hide Pow2;
    Pow2Product(a, b);
  }

  lemma {:induction false} Pow2Monotone(a: nat, b: nat)
    requires a <= b
    ensures Pow2(a) <= Pow2(b)
    decreases b
  {
    if a < b {
      Pow2Monotone(a, b - 1);
    }
  }
}

/**
 predictive_inference/smpc.py: additive secret sharing. The random draws are a parameter.
 */
module Smpc {
  import opened Prelude

  datatype Error = TooFewParties | NonPositiveModulo

  ghost function Sum(s: seq<int>): int {
    if s == [] then 0 else Sum(s[..|s| - 1]) + s[|s| - 1]
  }

  ghost predicate InRange(modulo: int, s: seq<int>) {
    forall i :: 0 <= i < |s| ==> 0 <= s[i] < modulo
  }

  /** Python's remainder, which has the sign of the divisor. */
  function FloorMod(x: int, m: int): int
    requires m != 0
  {
    if m > 0 then x % m else -((-x) % (-m))
  }

  /** The shares of a secret: the draws, and one that makes the sum congruent to the secret. */
  ghost function Shares(modulo: int, secret: int, draws: seq<int>): seq<int>
    requires modulo > 0
  {
    draws + [(secret - Sum(draws)) % modulo]
  }

  class SecureMultiPartyComputation {
    const modulo: int

    constructor (modulo: int)
      ensures this.modulo == modulo
    {
      this.modulo := modulo;
    }

    /** `draws` are the answers of `secrets.randbelow`. */
    method GenerateShares(secret: int, numParties: int, draws: seq<int>) returns (r: Result<seq<int>, Error>)
      requires numParties >= 2 && modulo > 0 ==> |draws| == numParties - 1 && InRange(modulo, draws)
      ensures r == if numParties < 2 then Failure(TooFewParties)
                   else if modulo <= 0 then Failure(NonPositiveModulo)
                   else Success(Shares(modulo, secret, draws))
    {
      if numParties < 2 {
        return Failure(TooFewParties);
      }
      if modulo <= 0 {
        return Failure(NonPositiveModulo);
      }
      var shares: seq<int>, currentSum := [], 0;
      for i := 0 to numParties - 1
        invariant shares == draws[..i]
        invariant currentSum == Sum(draws[..i]) % modulo
      {
        var share := draws[i];
        shares := shares + [share];
        assert draws[..i + 1][..i] == draws[..i];
        ModAdd(Sum(draws[..i]), share, modulo);
        currentSum := (currentSum + share) % modulo;
      }
      assert draws[..numParties - 1] == draws;
      ModSubtract(secret, Sum(draws), modulo);
      var finalShare := (secret - currentSum) % modulo;
      r := Success(shares + [finalShare]);
    }

    /** The result has the sign of the modulo; a modulo of zero is an error. */
    method SecureAggregate(partyShares: seq<seq<int>>) returns (total: Option<int>)
      ensures total == None <==> modulo == 0
      ensures total.Some? ==> total.value == FloorMod(Total(partyShares), modulo)
    {
      if modulo == 0 {
        return None;
      }
      var localSums: seq<int> := [];
      for p := 0 to |partyShares|
        invariant |localSums| == p
        invariant forall q :: 0 <= q < p ==> localSums[q] == FloorMod(Sum(partyShares[q]), modulo)
      {
        var localSum := SumOf(partyShares[p]);
        localSums := localSums + [FloorMod(localSum, modulo)];
      }
      var s := SumOf(localSums);
      LocalSums(modulo, partyShares, localSums);
      return Some(FloorMod(s, modulo));
    }
  }

  /** Python's `sum`. */
  method SumOf(s: seq<int>) returns (total: int)
    ensures total == Sum(s)
  {
    total := 0;
    for i := 0 to |s|
      invariant total == Sum(s[..i])
    {
      assert s[..i + 1][..i] == s[..i];
      total := total + s[i];
    }
    assert s[..|s|] == s;
  }

  // ---------- arithmetic modulo m ----------

  lemma {:induction false} ModShift(x: int, k: int, m: int)
    requires m > 0
    ensures (x + k * m) % m == x % m
    decreases if k >= 0 then k else -k
  {
    if k > 0 {
      ModShift(x, k - 1, m);
      ModStep(x + (k - 1) * m, m);
      assert x + (k - 1) * m + m == x + k * m;
    } else if k < 0 {
      ModShift(x, k + 1, m);
      ModStep(x + k * m, m);
      assert x + k * m + m == x + (k + 1) * m;
    }
  }

  lemma {:induction false} ModStep(x: int, m: int)
    requires m > 0
    ensures (x + m) % m == x % m
  {
    var q, r := x / m, x % m;
    assert x == q * m + r;
    ModUnique(x + m, m, q + 1, r);
  }

  lemma {:induction false} ModUnique(x: int, m: int, q: int, r: int)
    requires m > 0 && x == q * m + r && 0 <= r < m
    ensures x % m == r
  {
    var q', r' := x / m, x % m;
    assert x == q' * m + r';
    assert (q - q') * m == r' - r;
    assert (q' - q) * m == r - r';
    if q > q' {
      MulAtLeast(q - q', m);
    } else if q < q' {
      MulAtLeast(q' - q, m);
    }
  }

  lemma MulAtLeast(k: int, m: int)
    requires k >= 1 && m > 0
    ensures k * m >= m
  {
  }

  /** x % m differs from x by a multiple of m. */
  lemma ModIsShift(x: int, m: int)
    requires m > 0
    ensures x == x % m + (x / m) * m
  {
  }

  lemma {:induction false} ModAdd(a: int, b: int, m: int)
    requires m > 0
    ensures (a % m + b) % m == (a + b) % m
  {
    ModIsShift(a, m);
    ModShift(a % m + b, a / m, m);
    assert a % m + b + (a / m) * m == a + b;
  }

  lemma {:induction false} ModSubtract(a: int, b: int, m: int)
    requires m > 0
    ensures (a - b % m) % m == (a - b) % m
  {
    ModIsShift(b, m);
    ModShift(a - b % m, -(b / m), m);
    assert a - b % m + -(b / m) * m == a - b;
  }

  lemma {:induction false} FloorModAdd(a: int, b: int, m: int)
    requires m != 0
    ensures FloorMod(FloorMod(a, m) + b, m) == FloorMod(a + b, m)
  {
    if m > 0 {
      ModAdd(a, b, m);
    } else {
      ModAdd(-a, -b, -m);
      assert -(FloorMod(a, m) + b) == (-a) % (-m) + -b;
    }
  }

  /** The remainder is the one number between zero and the divisor that is congruent to the dividend. */
  lemma FloorModIsRemainder(x: int, m: int) returns (q: int)
    requires m != 0
    ensures x == q * m + FloorMod(x, m)
    ensures if m > 0 then 0 <= FloorMod(x, m) < m else m < FloorMod(x, m) <= 0
  {
    if m > 0 {
      q := x / m;
    } else {
      q := (-x) / (-m);
    }
  }

  lemma ModIdempotent(x: int, m: int)
    requires m > 0
    ensures (x % m) % m == x % m && 0 <= x % m < m
  {
    ModUnique(x % m, m, 0, x % m);
  }

  // ---------- sums ----------

  /** A sum adds up: that of one number is the number, and that of two lists the sum of theirs. */
  lemma {:induction false} SumConcat(a: seq<int>, b: seq<int>)
    ensures Sum(a + b) == Sum(a) + Sum(b)
    ensures forall x :: Sum([x]) == x
    decreases |b|
  {
    assert forall x: int :: [x][..0] == [];
    if b == [] {
      assert a + b == a;
    } else {
      assert (a + b)[..|a + b| - 1] == a + b[..|b| - 1];
      SumConcat(a, b[..|b| - 1]);
    }
  }

  lemma SumUpdate(s: seq<int>, k: nat, x: int)
    requires k < |s|
    ensures Sum(s[k := x]) == Sum(s) - s[k] + x
  {
    assert s == s[..k] + ([s[k]] + s[k + 1..]);
    assert s[k := x] == s[..k] + ([x] + s[k + 1..]);
    SumConcat(s[..k], [s[k]] + s[k + 1..]);
    SumConcat(s[..k], [x] + s[k + 1..]);
    SumConcat([s[k]], s[k + 1..]);
    SumConcat([x], s[k + 1..]);
    assert [s[k]][..0] == [] && [x][..0] == [];
  }

  ghost function Total(rows: seq<seq<int>>): int {
    if rows == [] then 0 else Total(rows[..|rows| - 1]) + Sum(rows[|rows| - 1])
  }

  /** The total of rows is the sum of all their numbers. */
  lemma {:induction false} TotalConcat(a: seq<seq<int>>, b: seq<seq<int>>)
    ensures Total(a + b) == Total(a) + Total(b)
    ensures forall row :: Total([row]) == Sum(row)
    decreases |b|
  {
    hide Sum;
    assert forall row: seq<int> :: [row][..0] == [];
    if b == [] {
      assert a + b == a;
    } else {
      assert (a + b)[..|a + b| - 1] == a + b[..|b| - 1];
      TotalConcat(a, b[..|b| - 1]);
    }
  }

  lemma {:induction false} LocalSums(m: int, rows: seq<seq<int>>, sums: seq<int>)
    requires m != 0 && |sums| == |rows|
    requires forall p :: 0 <= p < |rows| ==> sums[p] == FloorMod(Sum(rows[p]), m)
    ensures FloorMod(Sum(sums), m) == FloorMod(Total(rows), m)
  {
    hide FloorMod;
    if rows != [] {
      var n := |rows| - 1;
      LocalSums(m, rows[..n], sums[..n]);
      FloorModAdd(Sum(sums[..n]), sums[n], m);
      FloorModAdd(Total(rows[..n]), sums[n], m);
      FloorModAdd(Sum(rows[n]), Total(rows[..n]), m);
    }
  }

  // ---------- sharing and reconstruction ----------

  /** There is one share more than draws, and the draws come first. The shares are in range and their sum is
      congruent to the secret, whatever the draws. */
  lemma {:induction false} SharesReconstruct(m: int, secret: int, draws: seq<int>)
    requires m > 0 && InRange(m, draws)
    ensures |Shares(m, secret, draws)| == |draws| + 1 && Shares(m, secret, draws)[..|draws|] == draws
    ensures InRange(m, Shares(m, secret, draws))
    ensures Sum(Shares(m, secret, draws)) % m == secret % m
  {
    var last := (secret - Sum(draws)) % m;
    ModIdempotent(secret - Sum(draws), m);
    assert Shares(m, secret, draws)[..|draws|] == draws;
    ModAdd(secret - Sum(draws), Sum(draws), m);
  }

  /** The shares held by party `p`, one from each organisation. */
  ghost function HeldBy(shares: seq<seq<int>>, p: nat): (held: seq<int>)
    requires forall i :: 0 <= i < |shares| ==> p < |shares[i]|
    ensures |held| == |shares|
  {
    seq(|shares|, i requires 0 <= i < |shares| => shares[i][p])
  }

  ghost function Redistributed(shares: seq<seq<int>>, n: nat): (rows: seq<seq<int>>)
    requires forall i :: 0 <= i < |shares| ==> |shares[i]| == n
    ensures |rows| == n
  {
    seq(n, p requires 0 <= p < n => HeldBy(shares, p))
  }

  lemma {:induction false} TotalGrows(rows: seq<seq<int>>, longer: seq<seq<int>>, extra: seq<int>)
    requires |longer| == |rows| == |extra|
    requires forall p :: 0 <= p < |rows| ==> longer[p] == rows[p] + [extra[p]]
    ensures Total(longer) == Total(rows) + Sum(extra)
  {
    if rows != [] {
      var n := |rows| - 1;
      TotalGrows(rows[..n], longer[..n], extra[..n]);
      assert longer[n][..|rows[n]|] == rows[n];
    }
  }

  lemma {:induction false} TotalOfEmptyRows(rows: seq<seq<int>>)
    requires forall p :: 0 <= p < |rows| ==> rows[p] == []
    ensures Total(rows) == 0
  {
    if rows != [] {
      TotalOfEmptyRows(rows[..|rows| - 1]);
    }
  }

  /** Handing the shares out by party does not change their total: the double sum is exchanged. */
  lemma {:induction false} RedistributionKeepsTotal(shares: seq<seq<int>>, n: nat)
    requires forall i :: 0 <= i < |shares| ==> |shares[i]| == n
    ensures Total(Redistributed(shares, n)) == Total(shares)
    decreases |shares|
  {
    var rows := Redistributed(shares, n);
    if shares == [] {
      TotalOfEmptyRows(rows);
    } else {
      var k := |shares| - 1;
      RedistributionKeepsTotal(shares[..k], n);
      var shorter := Redistributed(shares[..k], n);
      forall p | 0 <= p < n
        ensures rows[p] == shorter[p] + [shares[k][p]]
      {
        assert rows[p] == HeldBy(shares, p);
        assert shorter[p] == HeldBy(shares[..k], p);
      }
      TotalGrows(shorter, rows, shares[k]);
    }
  }

  /** Every organisation shares its secret among `n` parties. */
  ghost predicate AllShared(m: int, secrets: seq<int>, draws: seq<seq<int>>, shares: seq<seq<int>>, n: nat)
    requires m > 0
  {
    && |draws| == |secrets| == |shares|
    && forall i :: 0 <= i < |secrets| ==>
         |draws[i]| + 1 == n && InRange(m, draws[i]) && shares[i] == Shares(m, secrets[i], draws[i])
  }

  lemma {:induction false} TotalIsSumOfSecrets(m: int, secrets: seq<int>, draws: seq<seq<int>>, shares: seq<seq<int>>,
                                               n: nat)
    requires m > 0 && AllShared(m, secrets, draws, shares, n)
    ensures Total(shares) % m == Sum(secrets) % m
    decreases |secrets|
  {
    if secrets != [] {
      var k := |secrets| - 1;
      TotalIsSumOfSecrets(m, secrets[..k], draws[..k], shares[..k], n);
      SharesReconstruct(m, secrets[k], draws[k]);
      ModAdd(Total(shares[..k]), Sum(shares[k]), m);
      ModAdd(Sum(secrets[..k]), Sum(shares[k]), m);
      ModAdd(Sum(shares[k]), Sum(secrets[..k]), m);
      ModAdd(secrets[k], Sum(secrets[..k]), m);
    }
  }

  /** The aggregate of the redistributed shares is the sum of the secrets, whatever was drawn. */
  lemma {:induction false} AggregateIsSumOfSecrets(m: int, secrets: seq<int>, draws: seq<seq<int>>,
                                                   shares: seq<seq<int>>, n: nat)
    requires m > 0 && n >= 2 && AllShared(m, secrets, draws, shares, n)
    ensures forall i :: 0 <= i < |shares| ==> |shares[i]| == n
    ensures FloorMod(Total(Redistributed(shares, n)), m) == Sum(secrets) % m
  {
    RedistributionKeepsTotal(shares, n);
    TotalIsSumOfSecrets(m, secrets, draws, shares, n);
  }

  // ---------- secrecy ----------

  /** The share that completes the others to a given value. */
  ghost function Completion(m: int, shares: seq<int>, k: nat, value: int): int
    requires m > 0 && k < |shares|
  {
    (value - (Sum(shares) - shares[k])) % m
  }

  /** For any fixed shares but one and any value, exactly one share in range reconstructs the value. */
  lemma {:induction false} ExactlyOneCompletion(m: int, shares: seq<int>, k: nat, value: int, x: int)
    requires m > 0 && k < |shares| && 0 <= x < m
    ensures Sum(shares[k := x]) % m == value % m <==> x == Completion(m, shares, k, value)
  {
    var others := Sum(shares) - shares[k];
    SumUpdate(shares, k, x);
    if x == Completion(m, shares, k, value) {
      ModAdd(value - others, others, m);
    }
    if (others + x) % m == value % m {
      ModSubtract(others + x, others, m);
      ModSubtract(value, others, m);
      ModAdd(others + x, -others, m);
      ModAdd(value, -others, m);
      ModUnique(x, m, 0, x);
    }
  }

  ghost predicate Consistent(m: int, secret: int, draws: seq<int>, view: seq<int>, k: nat)
    requires m > 0
  {
    && |draws| + 1 == |view| && InRange(m, draws)
    && forall i :: 0 <= i < |view| && i != k ==> Shares(m, secret, draws)[i] == view[i]
  }

  /** All shares but one say nothing about the secret: whatever the secret, exactly one sequence of
      draws leads to them. */
  lemma ViewHidesSecret(m: int, secret: int, view: seq<int>, k: nat) returns (draws: seq<int>)
    requires m > 0 && |view| >= 2 && k < |view| && InRange(m, view)
    ensures Consistent(m, secret, draws, view, k)
    ensures forall d :: Consistent(m, secret, d, view, k) ==> d == draws
  {
    var n := |view| - 1;
    var x := Completion(m, view, k, secret);
    ModIdempotent(secret - (Sum(view) - view[k]), m);
    var full := view[k := x];
    ExactlyOneCompletion(m, view, k, secret, x);
    draws := full[..n];
    LastIsDetermined(m, full, secret);
    forall d | Consistent(m, secret, d, view, k)
      ensures d == draws
    {
      var sh := Shares(m, secret, d);
      SharesReconstruct(m, secret, d);
      assert sh == view[k := sh[k]];
      ExactlyOneCompletion(m, view, k, secret, sh[k]);
      assert d == sh[..n];
    }
  }

  lemma CompletionOfLast(m: int, full: seq<int>, secret: int)
    requires m > 0 && full != []
    ensures Completion(m, full, |full| - 1, secret) == (secret - Sum(full[..|full| - 1])) % m
  {
    assert Sum(full) - full[|full| - 1] == Sum(full[..|full| - 1]);
  }

  lemma {:induction false} LastIsDetermined(m: int, full: seq<int>, secret: int)
    requires m > 0 && full != [] && InRange(m, full) && Sum(full) % m == secret % m
    ensures Shares(m, secret, full[..|full| - 1]) == full
  {
    hide Sum, Completion;
    var n := |full| - 1;
    assert full[n := full[n]] == full;
    ExactlyOneCompletion(m, full, n, secret, full[n]);
    CompletionOfLast(m, full, secret);
  }
}

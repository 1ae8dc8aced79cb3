/** Big-endian positional numerals: value, size bound, and canonical digits. */
module Positional {

  function Pow(b: nat, n: nat): nat {
    if n == 0 then 1 else b * Pow(b, n - 1)
  }

  /** The number denoted by `ds` in base `b`, most significant digit first. */
  function Value(ds: seq<int>, b: int): int {
    if ds == [] then 0 else Value(ds[..|ds| - 1], b) * b + ds[|ds| - 1]
  }

  ghost predicate AreDigits(ds: seq<int>, b: int) {
    forall i :: 0 <= i < |ds| ==> 0 <= ds[i] < b
  }

  ghost predicate AllZero(ds: seq<int>) {
    forall i :: 0 <= i < |ds| ==> ds[i] == 0
  }

  /** The shortest digit sequence denoting `n`; zero has no digits. */
  function ToDigits(n: nat, b: nat): seq<int>
    requires b >= 2
  {
    if n == 0 then [] else ToDigits(n / b, b) + [n % b]
  }

  lemma {:induction false} PowAdd(b: nat, m: nat, n: nat)
    ensures Pow(b, m + n) == Pow(b, m) * Pow(b, n)
  {
    if m == 0 {
    } else {
      PowAdd(b, m - 1, n);
      assert b * (Pow(b, m - 1) * Pow(b, n)) == b * Pow(b, m - 1) * Pow(b, n);
    }
  }

  lemma {:induction false} PowMonotone(b: nat, m: nat, n: nat)
    requires b >= 1 && m <= n
    ensures 1 <= Pow(b, m) <= Pow(b, n)
  {
    if n == 0 {
    } else if m == n {
      PowMonotone(b, m - 1, n - 1);
      MulMono(1, b, Pow(b, m - 1));
    } else {
      PowMonotone(b, m, n - 1);
      MulMono(1, b, Pow(b, n - 1));
    }
  }

  lemma MulMono(x: int, y: int, z: int)
    requires x <= y && 0 <= z
    ensures x * z <= y * z
  {
  }

  lemma {:induction false} ValueConcat(xs: seq<int>, ys: seq<int>, b: nat)
    ensures Value(xs + ys, b) == Value(xs, b) * Pow(b, |ys|) + Value(ys, b)
  {
    if ys == [] {
      assert xs + ys == xs;
    } else {
      var n := |ys| - 1;
      assert (xs + ys)[..|xs + ys| - 1] == xs + ys[..n];
      ValueConcat(xs, ys[..n], b);
      Distribute(Value(xs, b), Pow(b, n), Value(ys[..n], b), b);
    }
  }

  lemma Distribute(x: int, p: int, y: int, b: int)
    ensures (x * p + y) * b == x * (b * p) + y * b
  {
    assert (x * p) * b == x * (b * p);
  }

  /** Prepending a digit adds it times the weight of its position. */
  lemma ValuePrepend(d: int, ds: seq<int>, b: nat)
    ensures Value([d] + ds, b) == d * Pow(b, |ds|) + Value(ds, b)
  {
    ValueConcat([d], ds, b);
    assert [d][..0] == [];
    assert Value([d], b) == d;
  }

  lemma {:induction false} ZeroValue(ds: seq<int>, b: nat)
    requires AllZero(ds)
    ensures Value(ds, b) == 0
  {
    if ds != [] {
      ZeroValue(ds[..|ds| - 1], b);
    }
  }

  lemma LeadingZerosDenoteNothing(zs: seq<int>, ds: seq<int>, b: nat)
    requires AllZero(zs)
    ensures Value(zs + ds, b) == Value(ds, b)
  {
    ValueConcat(zs, ds, b);
    ZeroValue(zs, b);
  }

  lemma {:induction false} ValueBound(ds: seq<int>, b: nat)
    requires AreDigits(ds, b)
    ensures 0 <= Value(ds, b) < Pow(b, |ds|)
  {
    if ds == [] {
    } else {
      var n := |ds| - 1;
      ValueBound(ds[..n], b);
      AppendDigitBound(Value(ds[..n], b), ds[n], b, Pow(b, n));
    }
  }

  lemma AppendDigitBound(v: nat, d: nat, b: nat, bound: nat)
    requires v < bound && d < b
    ensures 0 <= v * b + d < b * bound
  {
    MulMono(v + 1, bound, b);
    assert (v + 1) * b == v * b + b;
  }

  lemma DivModUnique(q: nat, r: nat, b: nat)
    requires r < b
    ensures (q * b + r) / b == q && (q * b + r) % b == r
  {
    var n := q * b + r;
    var d := n / b - q;
    assert n == (n / b) * b + n % b;
    assert d * b == r - n % b;
    if d >= 1 {
      MulMono(1, d, b);
    } else if d <= -1 {
      MulMono(d, -1, b);
    }
  }

  /** Digits without a leading zero are exactly the canonical digits of their value. */
  lemma {:induction false} CanonicalDigits(ds: seq<int>, b: nat)
    requires b >= 2 && AreDigits(ds, b)
    requires ds != [] ==> ds[0] != 0
    ensures Value(ds, b) >= 0 && ToDigits(Value(ds, b), b) == ds
  {
    ValueBound(ds, b);
    if ds == [] {
    } else {
      var n := |ds| - 1;
      var front := ds[..n];
      ValueBound(front, b);
      CanonicalDigits(front, b);
      DivModUnique(Value(front, b), ds[n], b);
      if n > 0 && Value(front, b) == 0 {
        assert false;
      }
      MulMono(0, Value(front, b), b);
      assert ds == front + [ds[n]];
    }
  }

  lemma {:induction false} ToDigitsCorrect(n: nat, b: nat)
    requires b >= 2
    ensures AreDigits(ToDigits(n, b), b)
    ensures ToDigits(n, b) != [] ==> ToDigits(n, b)[0] != 0
    ensures Value(ToDigits(n, b), b) == n
  {
    if n == 0 {
    } else {
      var q, r := Divide(n, b);
      ToDigitsCorrect(q, b);
      var front := ToDigits(q, b);
      assert ToDigits(n, b) == front + [r];
      AppendDigit(front, r, b);
    }
  }

  lemma AppendDigit(ds: seq<int>, d: int, b: int)
    ensures Value(ds + [d], b) == Value(ds, b) * b + d
  {
    assert (ds + [d])[..|ds|] == ds;
  }

  lemma Divide(n: nat, b: nat) returns (q: nat, r: nat)
    requires b >= 2 && n > 0
    ensures q == n / b && r == n % b && r < b && q < n && n == q * b + r
  {
    q, r := n / b, n % b;
    assert n == q * b + r;
    if q >= n { MulMono(2, b, q); }
  }

  // ---------------------------------------------------------------- change of base

  function LeadingZeros(ds: seq<int>): (n: nat)
    ensures n <= |ds| && AllZero(ds[..n])
    ensures n < |ds| ==> ds[n] != 0
  {
    if ds == [] || ds[0] != 0 then 0 else
      assert forall n: nat {:trigger ds[..n + 1]} | n < |ds| :: ds[..n + 1] == [0] + ds[1..][..n];
      1 + LeadingZeros(ds[1..])
  }

  function Zeros(n: nat): seq<int> {
    seq(n, _ => 0)
  }

  /** Rewrite a numeral in another base, keeping the number of leading zeros. */
  function Rebase(ds: seq<int>, b: nat, c: nat): (r: seq<int>)
    requires b >= 2 && c >= 2 && AreDigits(ds, b)
    ensures AreDigits(r, c)
  {
    ValueBound(ds, b);
    ToDigitsCorrect(Value(ds, b), c);
    Zeros(LeadingZeros(ds)) + ToDigits(Value(ds, b), c)
  }

  lemma {:induction false} LeadingZerosOf(n: nat, ds: seq<int>)
    requires ds != [] ==> ds[0] != 0
    ensures LeadingZeros(Zeros(n) + ds) == n
  {
    if n == 0 {
      assert Zeros(0) + ds == ds;
    } else {
      assert (Zeros(n) + ds)[1..] == Zeros(n - 1) + ds;
      LeadingZerosOf(n - 1, ds);
    }
  }

  /** Changing base and back gives the same numeral, leading zeros included. */
  lemma RebaseRoundTrip(ds: seq<int>, b: nat, c: nat)
    requires b >= 2 && c >= 2 && AreDigits(ds, b)
    ensures Rebase(Rebase(ds, b, c), c, b) == ds
  {
    ValueBound(ds, b);
    var z := LeadingZeros(ds);
    var digits := ToDigits(Value(ds, b), c);
    ToDigitsCorrect(Value(ds, b), c);
    LeadingZerosOf(z, digits);
    LeadingZerosDenoteNothing(Zeros(z), digits, c);
    assert ds == ds[..z] + ds[z..] && ds[..z] == Zeros(z);
    LeadingZerosDenoteNothing(ds[..z], ds[z..], b);
    CanonicalDigits(ds[z..], b);
  }
}

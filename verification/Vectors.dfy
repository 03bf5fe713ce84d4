/** Sums and dot products over the outcomes of a market. */
module Vectors {
  function SumTo(v: seq<nat>, n: nat): nat
    requires n <= |v|
  {
    if n == 0 then 0 else SumTo(v, n - 1) + v[n - 1]
  }

  function Sum(v: seq<nat>): nat {
    SumTo(v, |v|)
  }

  function DotTo(a: seq<nat>, b: seq<nat>, n: nat): nat
    requires n <= |a| && n <= |b|
  {
    if n == 0 then 0 else DotTo(a, b, n - 1) + a[n - 1] * b[n - 1]
  }

  function Dot(a: seq<nat>, b: seq<nat>): nat
    requires |a| == |b|
  {
    DotTo(a, b, |a|)
  }

  lemma DotStart(a: seq<nat>, b: seq<nat>)
    ensures DotTo(a, b, 0) == 0
  {
  }

  lemma DotStep(a: seq<nat>, b: seq<nat>, i: nat, x: nat)
    requires i < |a| && i < |b| && x == a[i]
    ensures DotTo(a, b, i + 1) == DotTo(a, b, i) + x * b[i] && x * b[i] >= 0
  {
  }

  lemma {:induction false} SumUniform(v: seq<nat>, x: nat, n: nat)
    requires n <= |v| && forall i | 0 <= i < n :: v[i] == x
    ensures SumTo(v, n) == n * x
  {
    if n > 0 {
      SumUniform(v, x, n - 1);
      assert n * x == (n - 1) * x + x;
    }
  }

  lemma {:induction false} SumMonotone(v: seq<nat>, m: nat, n: nat)
    requires m <= n <= |v|
    ensures SumTo(v, m) <= SumTo(v, n)
  {
    if m < n {
      SumMonotone(v, m, n - 1);
    }
  }

  lemma {:induction false} DotZero(a: seq<nat>, b: seq<nat>, n: nat)
    requires n <= |a| && n <= |b| && forall i | 0 <= i < n :: a[i] == 0
    ensures DotTo(a, b, n) == 0
  {
    if n > 0 {
      DotZero(a, b, n - 1);
    }
  }

  lemma {:induction false} DotSame(a: seq<nat>, c: seq<nat>, b: seq<nat>, n: nat)
    requires n <= |a| && n <= |c| && n <= |b| && forall i | 0 <= i < n :: a[i] == c[i]
    ensures DotTo(a, b, n) == DotTo(c, b, n)
  {
    if n > 0 {
      DotSame(a, c, b, n - 1);
    }
  }

  lemma {:induction false} DotMonotone(a: seq<nat>, b: seq<nat>, m: nat, n: nat)
    requires m <= n <= |a| && n <= |b|
    ensures DotTo(a, b, m) <= DotTo(a, b, n)
  {
    if m < n {
      DotMonotone(a, b, m, n - 1);
    }
  }

  lemma DotTerm(a: seq<nat>, b: seq<nat>, i: nat, n: nat)
    requires i < n <= |a| && n <= |b|
    ensures a[i] * b[i] <= DotTo(a, b, n)
  {
    DotMonotone(a, b, i + 1, n);
  }

  /** Changing one coordinate changes the product by that coordinate's share. */
  lemma {:induction false} DotUpdate(a: seq<nat>, c: seq<nat>, b: seq<nat>, k: nat, x: int, n: nat)
    requires n <= |a| == |c| && n <= |b| && k < |a|
    requires c[k] == a[k] + x && forall i | 0 <= i < n && i != k :: c[i] == a[i]
    ensures DotTo(c, b, n) == DotTo(a, b, n) + if k < n then x * b[k] else 0
  {
    if n > 0 {
      DotUpdate(a, c, b, k, x, n - 1);
      if k == n - 1 {
        assert c[k] * b[k] == a[k] * b[k] + x * b[k];
      }
    }
  }

  /** Two vectors that add up to a constant one. */
  lemma {:induction false} DotComplement(a: seq<nat>, c: seq<nat>, b: seq<nat>, s: nat, n: nat)
    requires n <= |a| && n <= |c| && n <= |b| && forall i | 0 <= i < n :: a[i] + c[i] == s
    ensures DotTo(a, b, n) + DotTo(c, b, n) == s * SumTo(b, n)
  {
    if n > 0 {
      DotComplement(a, c, b, s, n - 1);
      assert a[n - 1] * b[n - 1] + c[n - 1] * b[n - 1] == (a[n - 1] + c[n - 1]) * b[n - 1];
      assert s * SumTo(b, n) == s * SumTo(b, n - 1) + s * b[n - 1];
    }
  }

  lemma {:induction false} DotAtLeast(a: seq<nat>, b: seq<nat>, x: nat, n: nat)
    requires n <= |a| && n <= |b| && forall i | 0 <= i < n :: x <= a[i]
    ensures x * SumTo(b, n) <= DotTo(a, b, n)
  {
    if n > 0 {
      DotAtLeast(a, b, x, n - 1);
      assert x * SumTo(b, n) == x * SumTo(b, n - 1) + x * b[n - 1];
      ProductMonotone(x, a[n - 1], b[n - 1]);
    }
  }

  lemma ProductMonotone(x: nat, y: nat, z: nat)
    requires x <= y
    ensures x * z <= y * z
  {
    assert y * z == x * z + (y - x) * z;
  }
}

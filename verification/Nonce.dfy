/** common/crypto/auth.go, GenerateIncreasingNonce: a little-endian counter incremented in place. */
module Nonces {
  import opened Bytes

  /** GenerateStaticBytes hands out the same bytes for ever; GenerateIncreasingNonce counts. */
  datatype Kind = Static | Increasing

  /** The little-endian value of a counter. */
  function Value(c: Bytes): nat {
    if c == [] then 0 else c[0] as int + 0x100 * Value(c[1..])
  }

  function Pow256(n: nat): (p: nat)
    ensures p > 0
  {
    if n == 0 then 1 else 0x100 * Pow256(n - 1)
  }

  /** One call of an increasing generator: the carry stops at the first byte that does not wrap. */
  function Increment(c: Bytes): (r: Bytes)
    ensures |r| == |c|
  {
    if c == [] then []
    else if c[0] == 0xFF then [0] + Increment(c[1..])
    else [c[0] + 1] + c[1..]
  }

  function Next(kind: Kind, c: Bytes): (r: Bytes)
    ensures |r| == |c|
  {
    if kind == Static then c else Increment(c)
  }

  /** What call number k of an increasing generator hands out, counting from 1. */
  function Nth(c: Bytes, k: nat): (r: Bytes)
    ensures |r| == |c|
  {
    if k == 0 then c else Increment(Nth(c, k - 1))
  }

  lemma {:induction false} ValueBound(c: Bytes)
    ensures Value(c) < Pow256(|c|)
  {
    if c != [] {
      ValueBound(c[1..]);
    }
  }

  lemma {:induction false} IncrementValue(c: Bytes)
    ensures Value(Increment(c)) == if Value(c) + 1 == Pow256(|c|) then 0 else Value(c) + 1
  {
    if c != [] {
      IncrementValue(c[1..]);
      ValueBound(c[1..]);
      if c[0] == 0xFF {
        assert Increment(c)[1..] == Increment(c[1..]);
      } else {
        assert Increment(c)[1..] == c[1..];
      }
    }
  }

  /** The k-th call hands out the encoding of (start + k) mod 256^n. */
  lemma {:induction false} NthValue(c: Bytes, k: nat)
    ensures Value(Nth(c, k)) == (Value(c) + k) % Pow256(|c|)
  {
    ValueBound(c);
    if k == 0 {
      SmallMod(Value(c), Pow256(|c|));
    } else {
      NthValue(c, k - 1);
      IncrementValue(Nth(c, k - 1));
      ModStep(Value(c) + k - 1, Pow256(|c|));
    }
  }

  lemma SmallMod(x: nat, m: nat)
    requires x < m
    ensures x % m == x
  {
  }

  lemma ModStep(x: nat, m: nat)
    requires m > 0
    ensures (x + 1) % m == if x % m + 1 == m then 0 else x % m + 1
  {
    var q, r := x / m, x % m;
    assert x == q * m + r;
    if r + 1 == m {
      assert x + 1 == (q + 1) * m by { assert (q + 1) * m == q * m + m; }
      ModOf(q + 1, 0, m);
    } else {
      ModOf(q, r + 1, m);
    }
  }

  lemma ModOf(q: nat, r: nat, m: nat)
    requires r < m
    ensures (q * m + r) % m == r
  {
    var x := q * m + r;
    assert x == (x / m) * m + x % m;
    assert (x / m - q) * m == r - x % m;
    if x / m != q {
      MultipleIsBig(x / m - q, m);
    }
  }

  lemma {:induction false} MultipleIsBig(d: int, m: int)
    requires d != 0 && m >= 0
    ensures d * m >= m || d * m <= -m
    decreases if d < 0 then -d else d
  {
    if d > 1 {
      MultipleIsBig(d - 1, m);
      assert d * m == (d - 1) * m + m;
    } else if d < -1 {
      MultipleIsBig(d + 1, m);
      assert d * m == (d + 1) * m - m;
    }
  }

  lemma {:induction false} ValueInjective(a: Bytes, b: Bytes)
    requires |a| == |b| && Value(a) == Value(b)
    ensures a == b
  {
    if a != [] {
      ValueInjective(a[1..], b[1..]);
      assert a == [a[0]] + a[1..] && b == [b[0]] + b[1..];
    }
  }

  /** Two calls hand out the same nonce exactly when a whole period lies between them: any 256^n
      consecutive nonces are pairwise distinct, as section 3.1 of RFC 5116 asks. */
  lemma NoncesRepeatIff(c: Bytes, i: nat, j: nat)
    requires i <= j
    ensures Nth(c, i) == Nth(c, j) <==> (j - i) % Pow256(|c|) == 0
  {
    var m := Pow256(|c|);
    NthValue(c, i);
    NthValue(c, j);
    SameModIff(Value(c) + i, j - i, m);
    if Value(Nth(c, i)) == Value(Nth(c, j)) {
      ValueInjective(Nth(c, i), Nth(c, j));
    }
  }

  lemma SameModIff(x: nat, d: nat, m: nat)
    requires m > 0
    ensures (x + d) % m == x % m <==> d % m == 0
  {
    var q, r := x / m, x % m;
    var qd, rd := d / m, d % m;
    assert x + d == (q + qd) * m + (r + rd) by {
      assert (q + qd) * m == q * m + qd * m;
    }
    if r + rd < m {
      ModOf(q + qd, r + rd, m);
    } else {
      assert x + d == (q + qd + 1) * m + (r + rd - m) by {
        assert (q + qd + 1) * m == (q + qd) * m + m;
      }
      ModOf(q + qd + 1, r + rd - m, m);
    }
  }

  /** GenerateInitialAEADNonce starts from twelve 0xFF bytes, so that its first nonce is zero. */
  const INITIAL: Bytes := seq(12, i => 0xFF)

  lemma InitialNonces(k: nat)
    requires 1 <= k <= Pow256(12)
    ensures Value(Nth(INITIAL, k)) == k - 1
  {
    OnesNonces(12, k);
  }

  lemma OnesNonces(n: nat, k: nat)
    requires 1 <= k <= Pow256(n)
    ensures Value(Nth(seq(n, i => 0xFF), k)) == k - 1
  {
    AllOnes(n);
    NthValue(seq(n, i => 0xFF), k);
    OnePeriod(k - 1, Pow256(n));
  }

  lemma OnePeriod(r: nat, m: nat)
    requires r < m
    ensures (m + r) % m == r
  {
    ModOf(1, r, m);
  }

  lemma {:induction false} AllOnes(n: nat)
    ensures Value(seq(n, i => 0xFF)) == Pow256(n) - 1
  {
    if n > 0 {
      AllOnes(n - 1);
      assert seq(n, i => 0xFF)[1..] == seq(n - 1, i => 0xFF);
    }
  }

  lemma Carry(done: Bytes, rest: Bytes)
    ensures done + Increment(rest) ==
              if rest == [] then done
              else if rest[0] == 0xFF then done + [0] + Increment(rest[1..])
              else done + ([rest[0] + 1] + rest[1..])
    ensures rest != [] ==> done + ([0] + rest[1..]) == done + [0] + rest[1..]
  {
  }

  /** A BytesGenerator: the closure's captured slice is `c`. */
  class BytesGenerator {
    const kind: Kind
    const c: array<byte>

    constructor (kind: Kind, nonce: Bytes)
      ensures this.kind == kind && fresh(c) && c[..] == nonce
    {
      this.kind := kind;
      c := new byte[|nonce|](i requires 0 <= i < |nonce| => nonce[i]);
    }

    /** c[i]++ for each i, up to the first byte that does not wrap. */
    method Count()
      modifies c
      ensures c[..] == Increment(old(c[..]))
    {
      hide Increment;
      var i := 0;
      ghost var done: Bytes, rest := [], c[..];
      while i < c.Length
        invariant i == |done| && c[..] == done + rest
        invariant Increment(old(c[..])) == done + Increment(rest)
      {
        Carry(done, rest);
        c[i] := if c[i] == 0xFF then 0 else c[i] + 1;
        assert c[..] == done + ([c[i]] + rest[1..]);
        if c[i] != 0 {
          return;
        }
        i, done, rest := i + 1, done + [0], rest[1..];
      }
      Carry(done, rest);
    }

    /** One call of the closure; the source returns the slice c itself. */
    method Generate() returns (iv: Bytes)
      modifies c
      ensures c[..] == Next(kind, old(c[..])) == iv
    {
      if kind == Increasing {
        Count();
      }
      iv := c[..];
    }
  }
}

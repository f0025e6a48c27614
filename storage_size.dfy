/** The integer part of `formatSizeBytes` in storage/minio.go: which divisor
    and which unit letter of "KMGTPE" the human-readable size uses. */
module StorageSize {
  import opened StorageTypes

  /** The unit step of the loop. */
  const Step: int := 1024

  /** The unit letters, indexed by the loop's `exp`. */
  const Units: string := "KMGTPE"

  function Pow1024(k: nat): (p: int)
    ensures p >= 1
  {
    if k == 0 then 1 else Step * Pow1024(k - 1)
  }

  /** What formatSizeBytes prints, minus the float: "<n> B" for small
      sizes, "<size/div>.<tenths> <unit>B" otherwise. */
  datatype SizeLabel = Bytes(n: int) | Scaled(div: int, exp: nat)

  /** The unit letter of a scaled label. */
  function UnitLetter(exp: nat): (c: char)
    requires exp < |Units|
    ensures c in Units
  {
    Units[exp]
  }

  /** A divisor fits a size when the quotient by the next unit lies in
      [1, 1024). */
  predicate Fits(size: int, exp: nat) {
    1 <= size / Pow1024(exp + 1) < Step
  }

  /** The label formatSizeBytes promises for a size: below 1024 (negative
      sizes included) the size is printed as bytes; otherwise the divisor is
      1024^(exp+1) with the quotient in [1, 1024), and exp indexes "KMGTPE". */
  predicate Describes(shown: SizeLabel, size: int) {
    if size < Step then shown == Bytes(size)
    else shown.Scaled? && shown.exp < |Units| && shown.div == Pow1024(shown.exp + 1) && Fits(size, shown.exp)
  }

  /** formatSizeBytes(size): the loop finds the label that describes the
      size, and for an int64 size it never runs past "E". */
  method FormatSizeBytes(size: Int64) returns (shown: SizeLabel)
    ensures size < Step ==> shown == Bytes(size)
    ensures size >= Step ==> shown.Scaled? && shown.exp < |Units|
                             && shown.div == Pow1024(shown.exp + 1)
                             && Fits(size, shown.exp)
    ensures Describes(shown, size)
  {
    if size < Step {
      return Bytes(size);
    }
    var div, exp := Step, 0;
    var n := size / Step;
    while n >= Step
      invariant exp < |Units|
      invariant div == Pow1024(exp + 1) <= size
      invariant n == size / div
      decreases n
    {
      DivDiv(size, div, Step);
      assert size >= Step * div by {
        DivLowerBound(size, div, Step);
      }
      div := div * Step;
      exp := exp + 1;
      n := n / Step;
      PowBound(exp + 1);
    }
    assert n >= 1 by { DivLowerBound(size, div, 1); }
    shown := Scaled(div, exp);
  }

  /** Dividing twice is dividing by the product (non-negative operands). */
  lemma DivDiv(a: int, b: int, c: int)
    requires a >= 0 && b > 0 && c > 0
    ensures a / b / c == a / (b * c)
  {
    var q, r := a / b, a % b;
    var q2, r2 := q / c, q % c;
    var rest := b * r2 + r;
    assert a == (b * c) * q2 + rest by {
      assert a == b * q + r;
      assert q == c * q2 + r2;
      MulDistributes(b, c * q2, r2);
      MulAssoc(b, c, q2);
    }
    assert 0 <= rest < b * c by {
      MulMono(b, r2, c - 1);
      MulDistributes(b, c, -1);
    }
    DivUnique(a, b * c, q2, rest);
  }

  lemma MulDistributes(x: int, y: int, z: int)
    ensures x * (y + z) == x * y + x * z
  {
  }

  lemma MulAssoc(x: int, y: int, z: int)
    ensures x * (y * z) == (x * y) * z
  {
  }

  lemma MulMono(x: int, y: int, z: int)
    requires x >= 0 && y <= z
    ensures x * y <= x * z
  {
    MulDistributes(x, y, z - y);
  }

  /** Euclidean division is unique: quotient and remainder are determined. */
  lemma DivUnique(a: int, d: int, q: int, r: int)
    requires d > 0 && 0 <= r < d && a == d * q + r
    ensures a / d == q
  {
    var q0, r0 := a / d, a % d;
    assert d * q0 + r0 == d * q + r;
    if q0 < q {
      MulMono(d, q0 + 1, q);
      MulDistributes(d, q0, 1);
    } else if q < q0 {
      MulMono(d, q + 1, q0);
      MulDistributes(d, q, 1);
    }
  }

  /** A quotient of at least k means the dividend is at least k times the divisor. */
  lemma DivLowerBound(a: int, b: int, k: int)
    requires a >= 0 && b > 0 && k >= 0 && a / b >= k
    ensures a >= k * b
  {
    assert a == b * (a / b) + a % b;
    assert b * (a / b) >= b * k;
  }

  /** No power 1024^k with k > 6 fits in an int64. */
  lemma PowBound(k: nat)
    requires Pow1024(k) <= Int64Max
    ensures k <= |Units|
  {
    if k > |Units| {
      PowMonotone(|Units| + 1, k);
      PowSevenOverflows();
    }
  }

  lemma PowSevenOverflows()
    ensures Pow1024(7) > Int64Max
  {
    assert Pow1024(1) == 0x400;
    assert Pow1024(2) == 0x10_0000;
    assert Pow1024(3) == 0x4000_0000;
    assert Pow1024(4) == 0x100_0000_0000;
    assert Pow1024(5) == 0x4_0000_0000_0000;
    assert Pow1024(6) == 0x1000_0000_0000_0000;
  }

  lemma {:induction false} PowMonotone(j: nat, k: nat)
    requires j <= k
    ensures Pow1024(j) <= Pow1024(k)
    decreases k
  {
    if j < k { PowMonotone(j, k - 1); }
  }

  /** The unit is determined by the size: at most one exp fits it. */
  lemma {:induction false} FitsUnique(size: int, e1: nat, e2: nat)
    requires size >= 0 && Fits(size, e1) && Fits(size, e2)
    ensures e1 == e2
  {
    if e1 < e2 {
      FitsOrder(size, e1, e2);
    } else if e2 < e1 {
      FitsOrder(size, e2, e1);
    }
  }

  /** At most one label describes a size, so the loop's answer is the only one. */
  lemma DescribesUnique(size: int, a: SizeLabel, b: SizeLabel)
    requires Describes(a, size) && Describes(b, size)
    ensures a == b
  {
    if size >= Step {
      FitsUnique(size, a.exp, b.exp);
    }
  }

  /** 1536 bytes is "1.5 KB" (divisor 1024); 1048576 bytes is "1.0 MB"; the
      unit letters run from K to E. */
  lemma DescribesExamples()
    ensures Describes(Scaled(1024, 0), 1536)
    ensures Describes(Scaled(1048576, 1), 1048576)
    ensures Describes(Bytes(1023), 1023) && Describes(Bytes(-5), -5)
    ensures UnitLetter(0) == 'K' && UnitLetter(1) == 'M' && UnitLetter(|Units| - 1) == 'E'
  {
    assert Pow1024(1) == 1024;
    assert Pow1024(2) == 1048576;
  }

  /** A larger exp leaves a quotient below 1 when a smaller one already
      left one below 1024. */
  lemma FitsOrder(size: int, lo: nat, hi: nat)
    requires size >= 0 && lo < hi && size / Pow1024(lo + 1) < Step
    ensures size / Pow1024(hi + 1) < 1
  {
    var d := Pow1024(lo + 1);
    assert size < Step * d by {
      assert size == d * (size / d) + size % d;
      MulMono(d, size / d, Step - 1);
      MulDistributes(d, Step - 1, 1);
    }
    PowMonotone(lo + 2, hi + 1);
    DivUnique(size, Pow1024(hi + 1), 0, size);
  }
}

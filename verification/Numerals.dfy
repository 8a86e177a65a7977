/** Big-endian positional numerals over an arbitrary base, and the facts the codecs rest on. */
module Numerals {

  function Power(base: nat, n: nat): nat {
    if n == 0 then 1 else Power(base, n - 1) * base
  }

  ghost predicate InBase(base: nat, digits: seq<nat>) {
    forall i :: 0 <= i < |digits| ==> digits[i] < base
  }

  /** The number a big-endian digit string denotes: fold of `acc * base + digit`. */
  function ValueOf(base: nat, digits: seq<nat>): nat {
    if digits == [] then 0
    else ValueOf(base, digits[..|digits| - 1]) * base + digits[|digits| - 1]
  }

  /** The `width` low-order digits of `value`, most significant first. */
  function DigitsOf(base: nat, width: nat, value: nat): (digits: seq<nat>)
    requires base > 0
    ensures |digits| == width
    ensures InBase(base, digits)
  {
    if width == 0 then [] else DigitsOf(base, width - 1, value / base) + [value % base]
  }

  /** Two digit strings of one length, compared from the most significant digit. */
  ghost predicate LexLess(a: seq<nat>, b: seq<nat>)
    requires |a| == |b|
  {
    exists k :: 0 <= k < |a| && a[..k] == b[..k] && a[k] < b[k]
  }

  lemma PowerPositive(base: nat, n: nat)
    requires base > 0
    ensures Power(base, n) > 0
  {
    if n > 0 {
      PowerPositive(base, n - 1);
      MulPositive(Power(base, n - 1), base);
    }
  }

  lemma MulPositive(a: nat, b: nat)
    requires a > 0 && b > 0
    ensures a * b > 0
  {}

  lemma PowerAdd(base: nat, m: nat, n: nat)
    ensures Power(base, m + n) == Power(base, m) * Power(base, n)
  {
    if n > 0 {
      PowerAdd(base, m, n - 1);
      assert m + n - 1 == m + (n - 1);
      MulAssociates(Power(base, m), Power(base, n - 1), base);
    }
  }

  lemma MulAssociates(a: nat, b: nat, c: nat)
    ensures a * b * c == a * (b * c)
  {}

  lemma MulMonotone(a: nat, b: nat, c: nat)
    requires a <= b
    ensures a * c <= b * c
  {}

  lemma MulStep(a: nat, b: nat, c: nat)
    requires a < b
    ensures a * c + c <= b * c
  {
    MulMonotone(a + 1, b, c);
    assert (a + 1) * c == a * c + c;
  }

  /** Division undoes the accumulator step. */
  lemma SplitLastDigit(base: nat, high: nat, digit: nat)
    requires digit < base
    ensures (high * base + digit) / base == high
    ensures (high * base + digit) % base == digit
  {
    var value := high * base + digit;
    QuotientIsUnique(base, value, value / base, value % base, high, digit);
  }

  lemma QuotientIsUnique(base: nat, value: nat, q0: nat, r0: nat, q1: nat, r1: nat)
    requires r0 < base && r1 < base
    requires value == q0 * base + r0 == q1 * base + r1
    ensures q0 == q1 && r0 == r1
  {
    if q0 < q1 {
      MulStep(q0, q1, base);
    } else if q1 < q0 {
      MulStep(q1, q0, base);
    }
  }

  lemma NestedQuotient(base: nat, p: nat, q: nat, r: nat, low: nat)
    requires r < p && low < base
    ensures (q * p + r) * base + low == q * (base * p) + (r * base + low)
    ensures r * base + low < base * p
  {
    assert (q * p + r) * base == q * p * base + r * base;
    MulAssociates(q, p, base);
    MulStep(r, p, base);
  }

  lemma QuotientBy(value: nat, whole: nat, q: nat, low: nat)
    requires low < whole && value == q * whole + low
    ensures value / whole == q
  {
    SplitLastDigit(whole, q, low);
  }

  lemma Recompose(base: nat, value: nat)
    requires base > 0
    ensures value / base * base + value % base == value
    ensures value / base >= 0 && 0 <= value % base < base
  {}

  lemma DivideTwice(value: nat, base: nat, p: nat)
    requires base > 0 && p > 0
    ensures base * p > 0 && value / (base * p) == value / base / p
  {
    MulPositive(base, p);
    Recompose(base, value);
    Recompose(p, value / base);
    DivideByProduct(value, base, p, value / base / p, value / base % p, value % base);
  }

  lemma DivideByProduct(value: nat, base: nat, p: nat, q: nat, r: nat, low: nat)
    requires r < p && low < base && base * p > 0
    requires value == (q * p + r) * base + low
    ensures value / (base * p) == q
  {
    NestedQuotient(base, p, q, r, low);
    QuotientBy(value, base * p, q, r * base + low);
  }

  lemma {:induction false} ValueBound(base: nat, digits: seq<nat>)
    requires base > 0 && InBase(base, digits)
    ensures ValueOf(base, digits) < Power(base, |digits|)
  {
    if digits != [] {
      var init := digits[..|digits| - 1];
      ValueBound(base, init);
      MulMonotone(ValueOf(base, init) + 1, Power(base, |init|), base);
      assert (ValueOf(base, init) + 1) * base == ValueOf(base, init) * base + base;
    }
  }

  /** Reading digits and writing them back loses nothing. */
  lemma {:induction false} DigitsOfValueOf(base: nat, digits: seq<nat>)
    requires base > 0 && InBase(base, digits)
    ensures DigitsOf(base, |digits|, ValueOf(base, digits)) == digits
  {
    if digits != [] {
      var n := |digits| - 1;
      SplitLastDigit(base, ValueOf(base, digits[..n]), digits[n]);
      DigitsOfValueOf(base, digits[..n]);
      assert digits == digits[..n] + [digits[n]];
    }
  }

  lemma DivideOnce(base: nat, bound: nat, value: nat)
    requires base > 0 && value < bound * base
    ensures value / base < bound
  {
    var high, low := value / base, value % base;
    assert value == high * base + low;
    if high >= bound {
      MulMonotone(bound, high, base);
    }
  }

  lemma ReadAppended(base: nat, init: seq<nat>, digit: nat)
    ensures ValueOf(base, init + [digit]) == ValueOf(base, init) * base + digit
  {
    assert (init + [digit])[..|init|] == init;
  }

  /** Writing a number that fits and reading it back gives the number. */
  lemma {:induction false} ValueOfDigitsOf(base: nat, width: nat, value: nat)
    requires base > 0 && value < Power(base, width)
    ensures ValueOf(base, DigitsOf(base, width, value)) == value
  {
    if width > 0 {
      DivideOnce(base, Power(base, width - 1), value);
      ValueOfDigitsOf(base, width - 1, value / base);
      ReadAppended(base, DigitsOf(base, width - 1, value / base), value % base);
      Recompose(base, value);
    }
  }

  /** A single digit by shifting and masking, without the digits above or below it. */
  lemma {:induction false} DigitByShift(base: nat, width: nat, value: nat, k: nat)
    requires base > 0 && k < width
    ensures Power(base, width - 1 - k) > 0
    ensures DigitsOf(base, width, value)[k] == value / Power(base, width - 1 - k) % base
  {
    PowerPositive(base, width - 1 - k);
    if k < width - 1 {
      DigitByShift(base, width - 1, value / base, k);
      var p := Power(base, width - 2 - k);
      PowerPositive(base, width - 2 - k);
      DivideTwice(value, base, p);
      assert Power(base, width - 1 - k) == p * base == base * p;
    }
  }

  /** Numeric order is digit order. */
  lemma {:induction false} OrderIsLexicographic(base: nat, a: seq<nat>, b: seq<nat>)
    requires |a| == |b| && InBase(base, a) && InBase(base, b)
    ensures LexLess(a, b) <==> ValueOf(base, a) < ValueOf(base, b)
    ensures a == b <==> ValueOf(base, a) == ValueOf(base, b)
  {
    if a != [] {
      var n := |a| - 1;
      OrderIsLexicographic(base, a[..n], b[..n]);
      assert a == a[..n] + [a[n]] && b == b[..n] + [b[n]];
      LexLessByLast(a, b);
      AppendDigitOrder(base, ValueOf(base, a[..n]), a[n], ValueOf(base, b[..n]), b[n]);
    }
  }

  lemma AppendDigitOrder(base: nat, va: nat, da: nat, vb: nat, db: nat)
    requires da < base && db < base
    ensures va * base + da < vb * base + db <==> va < vb || (va == vb && da < db)
    ensures va * base + da == vb * base + db <==> va == vb && da == db
  {
    if va < vb {
      MulStep(va, vb, base);
    } else if vb < va {
      MulStep(vb, va, base);
    }
  }

  lemma LexLessByLast(a: seq<nat>, b: seq<nat>)
    requires |a| == |b| > 0
    ensures LexLess(a, b) <==>
            || LexLess(a[..|a| - 1], b[..|a| - 1])
            || (a[..|a| - 1] == b[..|a| - 1] && a[|a| - 1] < b[|a| - 1])
  {
    var n := |a| - 1;
    var a', b' := a[..n], b[..n];
    forall k | 0 <= k < n
      ensures (a[..k] == b[..k] && a[k] < b[k]) <==> (a'[..k] == b'[..k] && a'[k] < b'[k])
    {
      assert a'[..k] == a[..k] && b'[..k] == b[..k];
    }
    if LexLess(a', b') {
      var k :| 0 <= k < |a'| && a'[..k] == b'[..k] && a'[k] < b'[k];
      assert a[..k] == b[..k] && a[k] < b[k];
    }
    if LexLess(a, b) {
      var k :| 0 <= k < |a| && a[..k] == b[..k] && a[k] < b[k];
      if k < n {
        assert a'[..k] == b'[..k] && a'[k] < b'[k];
      }
    }
  }
}

/** Decimal numerals: Python's `str(n)` for integers, `int(s)` and (for plain
    decimal notation) `float(s)`, and the zero-padding of `"{:0>{w}}".format`. */
module Numerals {
  import opened Wrappers
  import opened Text

  /** Digits only, possibly empty. */
  predicate AllDigits(s: string) {
    forall i :: 0 <= i < |s| ==> IsDigit(s[i])
  }

  function DigitValue(c: char): nat
    requires IsDigit(c)
  {
    c as int - '0' as int
  }

  function DigitChar(d: nat): (c: char)
    requires d < 10
    ensures IsDigit(c) && DigitValue(c) == d
  {
    ('0' as int + d) as char
  }

  function Pow10(n: nat): (r: nat)
    ensures r >= 1
  {
    if n == 0 then 1 else 10 * Pow10(n - 1)
  }

  /** The value of a digit string, read most significant digit first. */
  function DigitsValue(s: string): nat
    requires AllDigits(s)
  {
    if |s| == 0 then 0 else 10 * DigitsValue(s[..|s| - 1]) + DigitValue(s[|s| - 1])
  }

  lemma {:induction false} DigitsValueBound(s: string)
    requires AllDigits(s)
    ensures DigitsValue(s) < Pow10(|s|)
  {
    if |s| > 0 {
      DigitsValueBound(s[..|s| - 1]);
    }
  }

  /** Reading a concatenation: the left part is shifted by the right part's length. */
  lemma {:induction false} DigitsValueAppend(a: string, b: string)
    requires AllDigits(a) && AllDigits(b)
    ensures AllDigits(a + b)
    ensures DigitsValue(a + b) == DigitsValue(a) * Pow10(|b|) + DigitsValue(b)
    decreases |b|
  {
    assert AllDigits(a + b) by {
      forall i | 0 <= i < |a + b| ensures IsDigit((a + b)[i]) {
        if i >= |a| { assert (a + b)[i] == b[i - |a|]; }
      }
    }
    if |b| > 0 {
      var b' := b[..|b| - 1];
      assert (a + b)[..|a + b| - 1] == a + b';
      DigitsValueAppend(a, b');
      var va, vb', d, p := DigitsValue(a), DigitsValue(b'), DigitValue(b[|b| - 1]), Pow10(|b'|);
      assert DigitsValue(a + b) == 10 * DigitsValue(a + b') + d;
      assert DigitsValue(b) == 10 * vb' + d;
      assert Pow10(|b|) == 10 * p;
      ShiftArith(va, p, vb', d);
    } else {
      assert a + b == a;
    }
  }

  lemma DigitsValueSingle(c: char)
    requires IsDigit(c)
    ensures AllDigits([c]) && DigitsValue([c]) == DigitValue(c)
  {
    assert [c][..0] == [];
  }

  lemma ShiftArith(va: int, p: int, vb: int, d: int)
    ensures 10 * (va * p + vb) + d == va * (10 * p) + (10 * vb + d)
  {
  }

  /** Leading zeros do not change the value of a numeral. */
  lemma {:induction false} DigitsValueLeadingZeros(z: string, s: string)
    requires forall i :: 0 <= i < |z| ==> z[i] == '0'
    requires AllDigits(s)
    ensures AllDigits(z + s) && DigitsValue(z + s) == DigitsValue(s)
    decreases |z|
  {
    if |z| == 0 {
      assert z + s == s;
    } else {
      assert AllDigits(z) by {
        forall i | 0 <= i < |z| ensures IsDigit(z[i]) { }
      }
      DigitsValueAppend(z, s);
      ZeroValue(z);
    }
  }

  lemma {:induction false} ZeroValue(z: string)
    requires forall i :: 0 <= i < |z| ==> z[i] == '0'
    ensures AllDigits(z) && DigitsValue(z) == 0
  {
    if |z| > 0 {
      ZeroValue(z[..|z| - 1]);
    }
  }

  /** `str(n)` for a natural number: decimal, no leading zeros, value n. */
  function NatToString(n: nat): (r: string)
    ensures IsDigits(r) && DigitsValue(r) == n
    ensures r[0] == '0' ==> n == 0 && r == "0"
    ensures |r| == 1 <==> n < 10
  {
    if n < 10 then [DigitChar(n)]
    else
      var p := NatToString(n / 10);
      var r := p + [DigitChar(n % 10)];
      assert r[..|r| - 1] == p;
      r
  }

  /** `str(i)` for an integer. */
  function IntToString(i: int): (r: string)
    ensures |r| > 0
    ensures i >= 0 ==> r == NatToString(i)
    ensures i < 0 ==> r == "-" + NatToString(-i)
  {
    if i < 0 then "-" + NatToString(-i) else NatToString(i)
  }

  /** `str(i)` starts with `-` exactly for a negative `i`; the rest is the
      numeral of the magnitude of `i`, with no leading zero unless it is `0`. */
  lemma IntToStringNumeral(i: int)
    ensures var r := IntToString(i); |r| > 0 && (r[0] == '-' <==> i < 0)
    ensures var r := IntToString(i);
      i >= 0 ==> IsDigits(r) && DigitsValue(r) == i && (r[0] == '0' ==> r == "0")
    ensures var r := IntToString(i);
      i < 0 ==> IsDigits(r[1..]) && DigitsValue(r[1..]) == -i && r[1] != '0'
  {
    var r := IntToString(i);
    if i < 0 {
      assert r[1..] == NatToString(-i);
    } else {
      assert IsDigit(r[0]);
    }
  }

  /** Python's `int(s)` on a string: surrounding whitespace, an optional sign and
      at least one decimal digit; anything else raises ValueError, modelled as None. */
  function ParseInt(s: string): Option<int> {
    var t := Strip(s);
    if |t| > 0 && (t[0] == '+' || t[0] == '-') then
      var body := t[1..];
      var v: int := if IsDigits(body) then DigitsValue(body) else 0;
      if IsDigits(body) then Some(if t[0] == '-' then -v else v)
      else None
    else if IsDigits(t) then Some(DigitsValue(t))
    else None
  }

  /** `int(str(i)) == i` */
  lemma ParseIntToString(i: int)
    ensures ParseInt(IntToString(i)) == Some(i)
  {
    var r := IntToString(i);
    if i < 0 {
      ParseIntNegative(r);
    } else {
      ParseIntDigits(r);
    }
  }

  /** `int(s)` of a `-` before a digit string is the negated value. */
  lemma ParseIntNegative(s: string)
    requires |s| > 1 && s[0] == '-' && IsDigits(s[1..])
    ensures ParseInt(s) == Some(-(DigitsValue(s[1..]) as int))
  {
    assert IsDigit(s[|s| - 1]) by { assert s[|s| - 1] == s[1..][|s| - 2]; }
    StripUnchanged(s);
  }

  /** `int(s)` of a digit string is its value. */
  lemma ParseIntDigits(s: string)
    requires IsDigits(s)
    ensures ParseInt(s) == Some(DigitsValue(s))
  {
    StripUnchanged(s);
  }

  function Zeros(k: nat): (r: string)
    ensures |r| == k && forall i :: 0 <= i < k ==> r[i] == '0'
  {
    if k == 0 then "" else "0" + Zeros(k - 1)
  }

  /** `"{:0>{w}}".format(s)`: `s` right-aligned in a field of width `w`, filled with `0`. */
  function ZeroPad(s: string, w: nat): (r: string)
    ensures |r| == if |s| >= w then |s| else w
    ensures r == Zeros(|r| - |s|) + s
  {
    if |s| >= w then (assert s == "" + s; s) else Zeros(w - |s|) + s
  }

  /** A zero-padded numeral still denotes its number. */
  lemma ZeroPadValue(n: nat, w: nat)
    ensures AllDigits(ZeroPad(NatToString(n), w))
    ensures DigitsValue(ZeroPad(NatToString(n), w)) == n
  {
    var s := NatToString(n);
    DigitsValueLeadingZeros(Zeros(|ZeroPad(s, w)| - |s|), s);
  }

  /** The exact value of a decimal numeral with integer digits `whole` and
      fraction digits `frac`. */
  function DecimalValue(whole: string, frac: string): real
    requires AllDigits(whole) && AllDigits(frac)
  {
    DigitsValue(whole) as real + DigitsValue(frac) as real / Pow10(|frac|) as real
  }

  /** A decimal without fraction digits is its whole part. */
  lemma DecimalValueWhole(w: string)
    requires AllDigits(w)
    ensures DecimalValue(w, "") == DigitsValue(w) as real
  {
    assert DigitsValue("") == 0 && Pow10(0) == 1;
    assert (0 as real) / (1 as real) == 0.0;
  }

  /** Position of the first `c` in `s`, or |s| when there is none. */
  function IndexOf(s: string, c: char): (k: nat)
    ensures k <= |s|
    ensures forall i :: 0 <= i < k ==> s[i] != c
    ensures k < |s| ==> s[k] == c
  {
    if |s| == 0 then 0 else if s[0] == c then 0 else 1 + IndexOf(s[1..], c)
  }

  /** Python's `float(s)` for plain decimal notation: whitespace, an optional sign,
      digits with at most one `.`, at least one digit. Exponents, `inf` and `nan`
      are outside the model and give None, as malformed text does. */
  function ParseFloat(s: string): Option<real> {
    var t := Strip(s);
    if |t| > 0 && t[0] == '-' then
      (var v := ParseUnsigned(t[1..]); if v.Some? then Some(-v.value) else None)
    else if |t| > 0 && t[0] == '+' then ParseUnsigned(t[1..])
    else ParseUnsigned(t)
  }

  /** The unsigned part of `float`: digits with at most one `.`. */
  function ParseUnsigned(body: string): Option<real> {
    var dot := IndexOf(body, '.');
    var whole := body[..dot];
    var frac := if dot < |body| then body[dot + 1..] else "";
    if AllDigits(whole) && AllDigits(frac) && |whole| + |frac| > 0 then
      Some(DecimalValue(whole, frac))
    else None
  }

  /** Text that starts with a digit and has no surrounding space is unsigned. */
  lemma ParseFloatUnsigned(s: string)
    requires |s| > 0 && IsDigit(s[0]) && !IsSpace(s[|s| - 1])
    ensures ParseFloat(s) == ParseUnsigned(s)
  {
    StripUnchanged(s);
  }

  /** `float(s)` of a digit string is its value. */
  lemma ParseFloatDigits(s: string)
    requires IsDigits(s)
    ensures ParseFloat(s) == Some(DigitsValue(s) as real)
  {
    ParseFloatUnsigned(s);
    assert IndexOf(s, '.') == |s| by {
      assert forall i :: 0 <= i < |s| ==> s[i] != '.';
    }
    assert s[..|s|] == s;
    DecimalValueWhole(s);
  }

  /** The first `c` of `a + b` is the first of `b` when `a` holds none. */
  lemma {:induction false} IndexOfAfter(a: string, b: string, c: char)
    requires forall i :: 0 <= i < |a| ==> a[i] != c
    ensures IndexOf(a + b, c) == |a| + IndexOf(b, c)
  {
    if |a| > 0 {
      assert (a + b)[0] == a[0];
      assert (a + b)[1..] == a[1..] + b;
      IndexOfAfter(a[1..], b, c);
    } else {
      assert a + b == b;
    }
  }

  /** `float(w + "." + f)` of two digit strings is the decimal they spell. */
  lemma ParseFloatDecimal(w: string, f: string)
    requires IsDigits(w) && IsDigits(f)
    ensures ParseFloat(w + "." + f) == Some(DecimalValue(w, f))
  {
    var s := w + ("." + f);
    assert s == w + "." + f;
    assert s[0] == w[0] && s[|s| - 1] == f[|f| - 1];
    ParseFloatUnsigned(s);
    IndexOfAfter(w, "." + f, '.');
    assert IndexOf(s, '.') == |w|;
    assert s[..|w|] == w;
    assert s[|w| + 1..] == f;
  }
}

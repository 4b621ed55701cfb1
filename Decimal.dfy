/**
  Decimal numbers as the readers see them: Python's `float()` on plain decimal text,
  `round(x, 2)`, the `"%.2f"` rendering, and the Spanish amount notation `1.234,56`
  (dots group thousands, a comma introduces the two decimals). Values are exact reals.
*/
module Decimal {
  import opened Wrappers
  import opened Text

  function DigitValue(c: char): (v: nat)
    requires IsDigit(c)
    ensures v <= 9
  {
    c as int - '0' as int
  }

  /** The natural number written by a string of ASCII digits ("" is 0). */
  function DigitsValue(s: string): nat
    requires AllDigits(s)
    decreases |s|
  {
    if s == [] then 0 else DigitsValue(s[..|s| - 1]) * 10 + DigitValue(s[|s| - 1])
  }

  function Pow10(n: nat): (r: nat)
    ensures r >= 1
  {
    if n == 0 then 1 else 10 * Pow10(n - 1)
  }

  /** Appending one digit multiplies by ten and adds it. */
  lemma DigitsValueSnoc(a: string, c: char)
    requires AllDigits(a) && IsDigit(c)
    ensures AllDigits(a + [c]) && DigitsValue(a + [c]) == DigitsValue(a) * 10 + DigitValue(c)
  {
    assert (a + [c])[..|a|] == a;
  }

  /** Appending a three-digit group multiplies by a thousand and adds it. */
  lemma DigitsValueAppend3(a: string, t: string)
    requires AllDigits(a) && AllDigits(t) && |t| == 3
    ensures AllDigits(a + t) && DigitsValue(a + t) == DigitsValue(a) * 1000 + DigitsValue(t)
  {
    DigitsValueSnoc(a, t[0]);
    DigitsValueSnoc(a + [t[0]], t[1]);
    DigitsValueSnoc(a + [t[0]] + [t[1]], t[2]);
    assert a + [t[0]] + [t[1]] + [t[2]] == a + t;
    assert t[..2] == [t[0], t[1]] && [t[0], t[1]][..1] == [t[0]] && [t[0]][..0] == [];
    assert DigitsValue([t[0]]) == DigitValue(t[0]);
    assert DigitsValue([t[0], t[1]]) == DigitValue(t[0]) * 10 + DigitValue(t[1]);
    assert DigitsValue(t) == (DigitValue(t[0]) * 10 + DigitValue(t[1])) * 10 + DigitValue(t[2]);
  }

  /**
    Python's `float(s)` on plain decimal notation: surrounding whitespace, an optional sign,
    then digits with at most one `.` and at least one digit. Anything else is a ValueError,
    here `None`.
  */
  function ParseFloat(s: string): Option<real> {
    var t := Strip(s);
    if |t| > 0 && (t[0] == '+' || t[0] == '-') then
      match ParseUnsigned(t[1..])
      case None => None
      case Some(v) => Some(if t[0] == '-' then -v else v)
    else ParseUnsigned(t)
  }

  /** The value of `a.b` for digit strings `a` and `b`. */
  function PointValue(a: string, b: string): real
    requires AllDigits(a) && AllDigits(b)
  {
    DigitsValue(a) as real + DigitsValue(b) as real / Pow10(|b|) as real
  }

  function ParseUnsigned(t: string): Option<real> {
    match FindFrom(t, ".", 0)
    case None => if t != [] && AllDigits(t) then Some(DigitsValue(t) as real) else None
    case Some(k) =>
      var a, b := t[..k], t[k + 1..];
      if AllDigits(a) && AllDigits(b) && |a| + |b| > 0
      then Some(PointValue(a, b))
      else None
  }

  /** `ParseUnsigned` of digits, a dot and digits is their decimal value. */
  lemma ParseUnsignedPoint(a: string, b: string)
    requires AllDigits(a) && AllDigits(b) && |a| >= 1
    ensures ParseUnsigned(a + "." + b) == Some(PointValue(a, b))
  {
    var t := a + "." + b;
    assert forall j :: 0 <= j < |a| ==> t[j] == a[j];
    FindCharFirst(t, '.', 0, |a|);
    assert t[..|a|] == a && t[|a| + 1..] == b;
  }

  lemma StripUnspaced(t: string)
    requires t != [] && (t[0] == '-' || IsDigit(t[0])) && IsDigit(t[|t| - 1])
    ensures Strip(t) == t
  {
    assert !IsSpace(t[0]);
    assert LStrip(t) == t;
    assert !IsSpace(t[|t| - 1]);
  }

  /** Digits, a dot and at least one digit read back as their value. */
  lemma ParseFloatPoint(t: string, a: string, b: string)
    requires AllDigits(a) && AllDigits(b) && |a| >= 1 && |b| >= 1
    requires t == a + "." + b
    ensures ParseFloat(t) == Some(PointValue(a, b))
  {
    assert t[0] == a[0] && t[|t| - 1] == b[|b| - 1];
    StripUnspaced(t);
    ParseUnsignedPoint(a, b);
  }

  /** The same after a minus sign: the negated value. */
  lemma ParseFloatNegPoint(t: string, a: string, b: string)
    requires AllDigits(a) && AllDigits(b) && |a| >= 1 && |b| >= 1
    requires t == "-" + a + "." + b
    ensures ParseFloat(t) == Some(-PointValue(a, b))
  {
    assert t[0] == '-' && t[|t| - 1] == b[|b| - 1];
    StripUnspaced(t);
    assert t[1..] == a + "." + b;
    ParseUnsignedPoint(a, b);
  }

  /** Two digits after the point are hundredths. */
  lemma PointValueCents(a: string, b: string)
    requires AllDigits(a) && AllDigits(b) && |b| == 2
    ensures PointValue(a, b) == DigitsValue(a) as real + DigitsValue(b) as real / 100.0
  {
    assert Pow10(2) == 100;
  }

  /** The nearest integer to a non-negative real; halves go to the even neighbour. */
  function RoundHalfEven(x: real): (n: nat)
    requires x >= 0.0
    ensures n as real - x <= 0.5 && x - n as real <= 0.5
  {
    var f := x.Floor;
    var d := x - f as real;
    if d < 0.5 then f else if d > 0.5 then f + 1 else if f % 2 == 0 then f else f + 1
  }

  /** Python's `round(x, 2)`: the nearest multiple of 0.01, halves to even, symmetric in the sign. */
  function Round2(x: real): (r: real)
    ensures -0.005 <= r - x <= 0.005
    ensures x >= 0.0 ==> r >= 0.0
  {
    SignedCents(x < 0.0, Cents(x))
  }

  /** `n` hundredths, negated when `neg`. */
  function SignedCents(neg: bool, n: nat): real {
    if neg then -CentsValue(n) else CentsValue(n)
  }

  /** `n` hundredths. */
  function CentsValue(n: nat): real {
    n as real / 100.0
  }

  /** The magnitude of `x` in hundredths, rounded half to even. */
  function Cents(x: real): nat {
    RoundHalfEven(if x < 0.0 then -x * 100.0 else x * 100.0)
  }

  /** `x` has at most two decimals. */
  predicate IsCents(x: real) {
    (x * 100.0).Floor as real == x * 100.0
  }

  /** A value that already has at most two decimals is unchanged by `Round2`. */
  lemma Round2Cents(x: real)
    requires IsCents(x)
    ensures Round2(x) == x
  {
    var n := (x * 100.0).Floor;
    if x < 0.0 {
      assert (-x * 100.0).Floor == -n;
    }
  }

  /** A whole number of hundredths has at most two decimals. */
  lemma WholeCents(y: real, k: int)
    requires y * 100.0 == k as real
    ensures IsCents(y)
  {
    assert (y * 100.0).Floor == k;
  }

  /** The result of `Round2` has at most two decimals. */
  lemma Round2IsCents(x: real)
    ensures IsCents(Round2(x))
  {
    var m := Cents(x);
    if x < 0.0 {
      WholeCents(Round2(x), -(m as int));
    } else {
      WholeCents(Round2(x), m);
    }
  }

  /** Sums of values with at most two decimals have at most two decimals. */
  lemma CentsAdd(x: real, y: real)
    requires IsCents(x) && IsCents(y)
    ensures IsCents(x + y)
  {
    var m, n := (x * 100.0).Floor, (y * 100.0).Floor;
    assert (x + y) * 100.0 == (m + n) as real;
  }

  function DigitChar(d: nat): (c: char)
    requires d <= 9
    ensures IsDigit(c) && DigitValue(c) == d
  {
    ('0' as int + d) as char
  }

  /** Decimal digits of `n` without leading zeros. */
  function NatToString(n: nat): (s: string)
    ensures AllDigits(s) && |s| >= 1
    decreases n
  {
    if n < 10 then [DigitChar(n)] else NatToString(n / 10) + [DigitChar(n % 10)]
  }

  lemma {:induction false} NatToStringValue(n: nat)
    ensures DigitsValue(NatToString(n)) == n
    decreases n
  {
    if n >= 10 {
      NatToStringValue(n / 10);
      var s := NatToString(n);
      assert s[..|s| - 1] == NatToString(n / 10);
    }
  }

  /** Python's `f"{x:.2f}"`: optional minus sign, integer digits, a dot and exactly two decimals. */
  function FormatFixed2(x: real): string {
    FormatCents(x < 0.0, Cents(x))
  }

  /** `n` hundredths written with two decimals, after a minus sign when `neg`. */
  function FormatCents(neg: bool, n: nat): string {
    if neg then "-" + CentsBody(n) else CentsBody(n)
  }

  /** The two decimals of `n` hundredths. */
  function CentsFraction(n: nat): (b: string)
    ensures AllDigits(b) && |b| == 2
  {
    [DigitChar(n % 100 / 10), DigitChar(n % 10)]
  }

  function CentsBody(n: nat): string {
    NatToString(n / 100) + "." + CentsFraction(n)
  }

  /** `FormatFixed2` writes exactly two decimals after a single dot. */
  lemma FormatFixed2Shape(x: real)
    ensures var s := FormatFixed2(x);
            |s| >= 4 && s[|s| - 3] == '.' && IsDigit(s[|s| - 2]) && IsDigit(s[|s| - 1])
            && (x < 0.0 <==> s[0] == '-')
  {
  }

  lemma TwoDigitsValue(n: nat)
    ensures DigitsValue(CentsFraction(n)) == n % 100
  {
    var b := CentsFraction(n);
    assert b[..1] == [b[0]] && [b[0]][..0] == [];
    assert DigitsValue([b[0]]) == n % 100 / 10;
    assert DigitsValue(b) == n % 100 / 10 * 10 + n % 10;
  }

  lemma HundredthsSplit(n: nat, q: nat, r: nat)
    requires q == n / 100 && r == n % 100
    ensures q as real + r as real / 100.0 == n as real / 100.0
  {
  }

  /** The digits `FormatFixed2` writes for `n` hundredths read back as `n / 100`. */
  lemma CentsBodyValue(n: nat)
    ensures PointValue(NatToString(n / 100), CentsFraction(n)) == CentsValue(n)
  {
    var a := NatToString(n / 100);
    var b := CentsFraction(n);
    NatToStringValue(n / 100);
    TwoDigitsValue(n);
    PointValueCents(a, b);
    HundredthsSplit(n, n / 100, n % 100);
  }

  lemma CentsBodyRoundTrip(n: nat)
    ensures ParseFloat(CentsBody(n)) == Some(CentsValue(n))
  {
    var a, b := NatToString(n / 100), CentsFraction(n);
    var t := CentsBody(n);
    assert t == a + "." + b;
    ParseFloatPoint(t, a, b);
    CentsBodyValue(n);
  }

  lemma NegCentsBodyRoundTrip(n: nat)
    ensures ParseFloat("-" + CentsBody(n)) == Some(-CentsValue(n))
  {
    CentsBodyValue(n);
    ParseFloatNegPoint("-" + CentsBody(n), NatToString(n / 100), CentsFraction(n));
  }

  lemma FormatCentsRoundTrip(neg: bool, n: nat)
    ensures ParseFloat(FormatCents(neg, n)) == Some(SignedCents(neg, n))
  {
    if neg {
      NegCentsBodyRoundTrip(n);
    } else {
      CentsBodyRoundTrip(n);
    }
  }

  /** Reading the rendered text back gives the value rounded to two decimals. */
  lemma FormatFixed2RoundTrip(x: real)
    ensures ParseFloat(FormatFixed2(x)) == Some(Round2(x))
  {
    FormatCentsRoundTrip(x < 0.0, Cents(x));
  }

  // ---------------------------------------------------------------------------
  // Spanish amounts: regular expression \d{1,3}(\.\d{3})*,\d{2}
  // ---------------------------------------------------------------------------

  /** `\d{1,3}(\.\d{3})*`: one to three digits, then groups of a dot and three digits. */
  predicate IsGroupedInt(s: string)
    decreases |s|
  {
    if |s| <= 3 then 1 <= |s| && AllDigits(s)
    else |s| >= 5 && s[|s| - 4] == '.' && AllDigits(s[|s| - 3..]) && IsGroupedInt(s[..|s| - 4])
  }

  /** The whole of `s` is an amount `\d{1,3}(\.\d{3})*,\d{2}`. */
  predicate IsAmount(s: string) {
    |s| >= 4 && s[|s| - 3] == ',' && AllDigits(s[|s| - 2..]) && IsGroupedInt(s[..|s| - 3])
  }

  function GroupedValue(s: string): nat
    requires IsGroupedInt(s)
    decreases |s|
  {
    if |s| <= 3 then DigitsValue(s) else GroupedValue(s[..|s| - 4]) * 1000 + DigitsValue(s[|s| - 3..])
  }

  /** The value an amount denotes: thousands groups joined, two decimals after the comma. */
  function AmountValue(s: string): (v: real)
    requires IsAmount(s)
    ensures v >= 0.0
  {
    GroupedValue(s[..|s| - 3]) as real + DigitsValue(s[|s| - 2..]) as real / 100.0
  }

  /**
    `float(s.replace(".", "").replace(",", "."))`: the conversion every reader applies to a
    Spanish-format number (a ValueError is `None`).
  */
  function SpanishToFloat(s: string): Option<real> {
    ParseFloat(ReplaceChar(RemoveChar(s, '.'), ',', '.'))
  }

  lemma {:induction false} RemoveCharAppend(a: string, b: string, c: char)
    ensures RemoveChar(a + b, c) == RemoveChar(a, c) + RemoveChar(b, c)
    decreases |a|
  {
    if a == [] {
      assert a + b == b;
    } else {
      assert (a + b)[1..] == a[1..] + b;
      RemoveCharAppend(a[1..], b, c);
    }
  }

  lemma {:induction false} RemoveCharNone(s: string, c: char)
    requires forall i :: 0 <= i < |s| ==> s[i] != c
    ensures RemoveChar(s, c) == s
    decreases |s|
  {
    if s != [] {
      RemoveCharNone(s[1..], c);
      assert [s[0]] + s[1..] == s;
    }
  }

  /** Removing the dots of a grouped integer leaves its digits, whose value is the group value. */
  lemma {:induction false} GroupedDigits(s: string)
    requires IsGroupedInt(s)
    ensures AllDigits(RemoveChar(s, '.')) && |RemoveChar(s, '.')| >= 1
    ensures DigitsValue(RemoveChar(s, '.')) == GroupedValue(s)
    decreases |s|
  {
    if |s| <= 3 {
      DigitsKept(s);
    } else {
      var head, tail := s[..|s| - 4], s[|s| - 3..];
      assert s == head + (['.'] + tail);
      GroupedDigits(head);
      GroupDotRemoved(head, tail);
      DigitsValueAppend3(RemoveChar(head, '.'), tail);
    }
  }

  /** Digits have no dot to remove. */
  lemma DigitsKept(t: string)
    requires AllDigits(t)
    ensures RemoveChar(t, '.') == t
  {
    RemoveCharNone(t, '.');
  }

  /** The dot before a group of digits is removed and the digits are kept. */
  lemma GroupDotRemoved(head: string, tail: string)
    requires AllDigits(tail)
    ensures RemoveChar(head + (['.'] + tail), '.') == RemoveChar(head, '.') + tail
  {
    RemoveCharAppend(head, ['.'] + tail, '.');
    RemoveCharCons('.', tail, '.');
    DigitsKept(tail);
  }

  lemma RemoveCharCons(c0: char, t: string, a: char)
    ensures RemoveChar([c0] + t, a) == (if c0 == a then [] else [c0]) + RemoveChar(t, a)
  {
    assert ([c0] + t)[1..] == t;
  }

  /** Dropping the dots of an amount keeps the comma and the two decimals. */
  lemma AmountDotsRemoved(s: string)
    requires IsAmount(s)
    ensures RemoveChar(s, '.') == RemoveChar(s[..|s| - 3], '.') + [','] + s[|s| - 2..]
  {
    var g, dd := s[..|s| - 3], s[|s| - 2..];
    CommaSplit(s);
    CommaKept(g, dd);
    assert RemoveChar(g, '.') + ([','] + dd) == RemoveChar(g, '.') + [','] + dd;
  }

  lemma CommaSplit(s: string)
    requires |s| >= 3 && s[|s| - 3] == ','
    ensures s == s[..|s| - 3] + ([','] + s[|s| - 2..])
  {
  }

  lemma CommaKept(g: string, dd: string)
    requires AllDigits(dd)
    ensures RemoveChar(g + ([','] + dd), '.') == RemoveChar(g, '.') + ([','] + dd)
  {
    RemoveCharAppend(g, [','] + dd, '.');
    RemoveCharCons(',', dd, '.');
    DigitsKept(dd);
  }

  /** Digits, a comma and digits become digits, a dot and digits. */
  lemma CommaReplaced(d: string, dd: string)
    requires AllDigits(d) && AllDigits(dd)
    ensures ReplaceChar(d + [','] + dd, ',', '.') == d + "." + dd
  {
    var u := d + [','] + dd;
    assert forall j :: 0 <= j < |u| ==> (u[j] == ',' <==> j == |d|);
  }

  lemma AmountPointValue(s: string, d: string)
    requires IsAmount(s) && AllDigits(d) && DigitsValue(d) == GroupedValue(s[..|s| - 3])
    ensures PointValue(d, s[|s| - 2..]) == AmountValue(s)
  {
    PointValueCents(d, s[|s| - 2..]);
  }

  /** Every Spanish-format amount converts, and to the value it denotes. */
  lemma SpanishAmountValue(s: string)
    requires IsAmount(s)
    ensures SpanishToFloat(s) == Some(AmountValue(s))
  {
    var g, dd := s[..|s| - 3], s[|s| - 2..];
    var d := RemoveChar(g, '.');
    AmountDotsRemoved(s);
    GroupedDigits(g);
    CommaReplaced(d, dd);
    ParseFloatPoint(d + "." + dd, d, dd);
    AmountPointValue(s, d);
  }

  /** Greedy `(\.\d{3})*` starting at `q`: where the dot-groups end. */
  function GroupsEnd(s: string, q: nat): (e: nat)
    requires q <= |s|
    decreases |s| - q
    ensures q <= e <= |s|
  {
    if q + 4 <= |s| && s[q] == '.' && AllDigits(s[q + 1..q + 4]) then GroupsEnd(s, q + 4) else q
  }

  /**
    The match of the unanchored amount pattern starting at `p`, as the backtracking engine
    finds it: the digit run at `p` must be one to three long, greedy dot-groups follow, then a
    comma and two digits. Returns where the match ends.
  */
  function AmountAt(s: string, p: nat): Option<nat>
    requires p <= |s|
  {
    var r := DigitRun(s, p);
    if r < 1 || r > 3 then None
    else
      var q := GroupsEnd(s, p + r);
      if q + 3 <= |s| && s[q] == ',' && IsDigit(s[q + 1]) && IsDigit(s[q + 2]) then Some(q + 3) else None
  }

  lemma {:induction false} GroupsEndGrouped(s: string, p: nat, q: nat)
    requires p <= q <= |s| && IsGroupedInt(s[p..q])
    ensures IsGroupedInt(s[p..GroupsEnd(s, q)])
    decreases |s| - q
  {
    if q + 4 <= |s| && s[q] == '.' && AllDigits(s[q + 1..q + 4]) {
      var t := s[p..q + 4];
      assert t[..|t| - 4] == s[p..q];
      assert t[|t| - 3..] == s[q + 1..q + 4];
      GroupsEndGrouped(s, p, q + 4);
    }
  }

  /** What `AmountAt` finds is an amount. */
  lemma AmountAtSound(s: string, p: nat)
    requires p <= |s| && AmountAt(s, p).Some?
    ensures p < AmountAt(s, p).value <= |s| && IsAmount(s[p..AmountAt(s, p).value])
  {
    var r := DigitRun(s, p);
    assert IsGroupedInt(s[p..p + r]);
    var q := GroupsEnd(s, p + r);
    GroupsEndGrouped(s, p, p + r);
    AmountJoin(s, p, q);
  }

  /** A grouped integer, a comma and two digits make an amount. */
  lemma AmountJoin(s: string, p: nat, q: nat)
    requires p <= q && q + 3 <= |s| && IsGroupedInt(s[p..q])
    requires s[q] == ',' && IsDigit(s[q + 1]) && IsDigit(s[q + 2])
    ensures IsAmount(s[p..q + 3])
  {
    var m := s[p..q + 3];
    assert m[..|m| - 3] == s[p..q];
    assert m[|m| - 2..] == s[q + 1..q + 3];
  }

  /** Leftmost match of the unanchored amount pattern at or after `p`: `(start, end)`. */
  function SearchAmount(s: string, p: nat): (r: Option<(nat, nat)>)
    requires p <= |s|
    decreases |s| - p
    ensures r.Some? ==> p <= r.value.0 < r.value.1 <= |s| && IsAmount(s[r.value.0..r.value.1])
  {
    match AmountAt(s, p)
    case Some(e) => AmountAtSound(s, p); Some((p, e))
    case None => if p == |s| then None else SearchAmount(s, p + 1)
  }

  /** First `p` at or after `i` from which the rest of `t` is an amount (pattern anchored at the end). */
  function AmountSuffixFrom(t: string, i: nat): (r: Option<nat>)
    requires i <= |t|
    decreases |t| - i
    ensures r.Some? ==> i <= r.value <= |t| && IsAmount(t[r.value..])
    ensures r.Some? ==> forall j :: i <= j < r.value ==> !IsAmount(t[j..])
    ensures r.None? ==> forall j :: i <= j <= |t| ==> !IsAmount(t[j..])
  {
    if IsAmount(t[i..]) then Some(i) else if i == |t| then None else AmountSuffixFrom(t, i + 1)
  }

  lemma SpanishExampleValue()
    ensures IsAmount("1.234,56") && AmountValue("1.234,56") == 1234.56
  {
    var s := "1.234,56";
    assert s[..5] == "1.234" && s[6..] == "56";
    assert "1.234"[..1] == "1" && "1.234"[2..] == "234";
    assert "234"[..2] == "23" && "23"[..1] == "2" && "2"[..0] == [];
    assert DigitsValue("234") == 234;
    assert "1"[..0] == [] && DigitsValue("1") == 1;
    assert "56"[..1] == "5" && "5"[..0] == [] && DigitsValue("56") == 56;
    assert IsGroupedInt("1.234");
    assert GroupedValue("1.234") == 1234;
  }

  /** `"1.234,56"` reads as 1234.56. */
  lemma SpanishExample()
    ensures SpanishToFloat("1.234,56") == Some(1234.56)
  {
    SpanishExampleValue();
    SpanishAmountValue("1.234,56");
  }
}

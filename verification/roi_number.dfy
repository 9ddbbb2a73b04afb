/**
 * The ROI calculator's text <-> number handling: the input filter that keeps
 * digits (and, for percentages, '.'), `Number(...) || 0` on the filtered text,
 * `String(x)` for percentages, and the en-US grouped display of a rounded
 * whole number. Numbers are exact decimals.
 */
module RoiNumber {
  import opened Options

  predicate IsDigit(c: char) {
    '0' <= c <= '9'
  }

  /** The characters the input filter keeps: digits, and for a percentage also '.'. */
  predicate Kept(c: char, isPercent: bool) {
    IsDigit(c) || (isPercent && c == '.')
  }

  /** `value.replace(/[^0-9.]/g, '')` for a percentage, `value.replace(/[^0-9]/g, '')` otherwise. */
  function Clean(s: string, isPercent: bool): (r: string)
    ensures |r| <= |s|
    ensures forall i :: 0 <= i < |r| ==> Kept(r[i], isPercent)
  {
    if s == [] then []
    else CleanChar(s[0], isPercent) + Clean(s[1..], isPercent)
  }

  /** The filter on one character: kept or dropped. */
  function CleanChar(c: char, isPercent: bool): string {
    if Kept(c, isPercent) then [c] else []
  }

  lemma CleanCons(c: char, s: string, isPercent: bool)
    ensures Clean([c] + s, isPercent) == CleanChar(c, isPercent) + Clean(s, isPercent)
  {
    assert ([c] + s)[0] == c && ([c] + s)[1..] == s;
  }

  /** Filtering a concatenation filters each part. */
  lemma {:induction false} CleanConcat(a: string, b: string, isPercent: bool)
    ensures Clean(a + b, isPercent) == Clean(a, isPercent) + Clean(b, isPercent)
  {
    if a == [] {
      assert a + b == b;
    } else {
      var c, a' := a[0], a[1..];
      assert a == [c] + a' && a + b == [c] + (a' + b);
      CleanCons(c, a' + b, isPercent);
      CleanCons(c, a', isPercent);
      CleanConcat(a', b, isPercent);
      var h := CleanChar(c, isPercent);
      assert h + (Clean(a', isPercent) + Clean(b, isPercent)) == (h + Clean(a', isPercent)) + Clean(b, isPercent);
    }
  }

  /** Every kept character survives as often as it occurs; every other character is gone. */
  lemma {:induction false} CleanCounts(s: string, isPercent: bool)
    ensures forall c :: multiset(Clean(s, isPercent))[c] == if Kept(c, isPercent) then multiset(s)[c] else 0
  {
    if s != [] {
      CleanCounts(s[1..], isPercent);
      assert s == [s[0]] + s[1..];
    }
  }

  /** `r` occurs in `s` in order, possibly with gaps. */
  predicate IsSubsequence(r: string, s: string)
    decreases |s|
  {
    r == [] || (s != [] && if r[0] == s[0] then IsSubsequence(r[1..], s[1..]) else IsSubsequence(r, s[1..]))
  }

  /** The kept characters keep their original order. */
  lemma {:induction false} CleanInOrder(s: string, isPercent: bool)
    ensures IsSubsequence(Clean(s, isPercent), s)
  {
    if s != [] {
      CleanInOrder(s[1..], isPercent);
      var r := Clean(s, isPercent);
      if Kept(s[0], isPercent) {
        assert r == [s[0]] + Clean(s[1..], isPercent);
        assert r[0] == s[0] && r[1..] == Clean(s[1..], isPercent);
      } else {
        assert r == Clean(s[1..], isPercent);
        assert r != [] ==> Kept(r[0], isPercent) && r[0] != s[0];
      }
    }
  }

  /** A string is left unchanged exactly when it has nothing to filter out. */
  lemma {:induction false} CleanFixpoint(s: string, isPercent: bool)
    ensures Clean(s, isPercent) == s <==> forall i :: 0 <= i < |s| ==> Kept(s[i], isPercent)
  {
    if s != [] {
      CleanFixpoint(s[1..], isPercent);
      if !Kept(s[0], isPercent) {
        assert |Clean(s, isPercent)| < |s|;
      } else if Clean(s, isPercent) == s {
        assert Clean(s[1..], isPercent) == s[1..];
      }
    }
  }

  /** Filtering twice is filtering once. */
  lemma CleanIdempotent(s: string, isPercent: bool)
    ensures Clean(Clean(s, isPercent), isPercent) == Clean(s, isPercent)
  {
    CleanFixpoint(Clean(s, isPercent), isPercent);
  }

  predicate AllDigits(s: string) {
    forall i :: 0 <= i < |s| ==> IsDigit(s[i])
  }

  function DigitValue(c: char): nat
    requires IsDigit(c)
  {
    c as int - '0' as int
  }

  function DigitChar(n: nat): (c: char)
    requires n < 10
    ensures IsDigit(c) && DigitValue(c) == n
  {
    ('0' as int + n) as char
  }

  function Pow10(k: nat): (p: nat)
    ensures p >= 1
  {
    if k == 0 then 1 else 10 * Pow10(k - 1)
  }

  /** The value of a string of decimal digits (0 for ""). */
  function DigitsValue(s: string): nat
    requires AllDigits(s)
    decreases |s|
  {
    if s == [] then 0 else DigitsValue(s[..|s| - 1]) * 10 + DigitValue(s[|s| - 1])
  }

  lemma {:induction false} DigitsValueConcat(a: string, b: string)
    requires AllDigits(a) && AllDigits(b)
    ensures AllDigits(a + b)
    ensures DigitsValue(a + b) == DigitsValue(a) * Pow10(|b|) + DigitsValue(b)
    decreases |b|
  {
    if b == [] {
      assert a + b == a;
    } else {
      var b' := b[..|b| - 1];
      var c := b[|b| - 1];
      assert a + b == (a + b') + [c];
      assert (a + b)[..|a + b| - 1] == a + b';
      DigitsValueConcat(a, b');
      assert DigitsValue(a + b) == DigitsValue(a + b') * 10 + DigitValue(c);
      assert DigitsValue(b) == DigitsValue(b') * 10 + DigitValue(c);
      ShiftedSum(DigitsValue(a), Pow10(|b'|), DigitsValue(b'), DigitValue(c));
    }
  }

  lemma ShiftedSum(x: nat, p: nat, y: nat, c: nat)
    ensures (x * p + y) * 10 + c == x * (10 * p) + (y * 10 + c)
  {
  }

  /** The shortest decimal numeral of `n`, as `String(n)` writes a whole number. */
  function DecimalDigits(n: nat): (r: string)
    ensures AllDigits(r) && |r| >= 1
    ensures DigitsValue(r) == n
    ensures r[0] == '0' <==> n == 0
    ensures |r| > 1 ==> r[0] != '0'
    decreases n
  {
    if n < 10 then [DigitChar(n)]
    else
      var r := DecimalDigits(n / 10) + [DigitChar(n % 10)];
      assert r[..|r| - 1] == DecimalDigits(n / 10);
      r
  }

  lemma {:induction false} DecimalDigitsLength(n: nat, k: nat)
    requires 1 <= k && n < Pow10(k)
    ensures |DecimalDigits(n)| <= k
    decreases k
  {
    if n >= 10 {
      DecimalDigitsLength(n / 10, k - 1);
    }
  }

  function Zeros(k: nat): (z: string)
    ensures |z| == k && AllDigits(z) && DigitsValue(z) == 0
  {
    if k == 0 then [] else
      var z := Zeros(k - 1) + ['0'];
      assert z[..k - 1] == Zeros(k - 1);
      z
  }

  /** Left-pads a numeral with zeros to `width` digits; leading zeros do not change its value. */
  function PadStart(s: string, width: nat): (r: string)
    requires AllDigits(s)
    ensures AllDigits(r) && DigitsValue(r) == DigitsValue(s)
    ensures |s| <= width ==> |r| == width
  {
    if |s| >= width then s
    else
      var r := Zeros(width - |s|) + s;
      DigitsValueConcat(Zeros(width - |s|), s);
      r
  }

  /** A number `units / 10^scale`. */
  datatype Decimal = Decimal(units: nat, scale: nat)

  function Value(d: Decimal): real {
    d.units as real / Pow10(d.scale) as real
  }

  const Zero := Decimal(0, 0)

  /** Text the filters can produce: digits and dots only. */
  predicate IsNumberText(s: string) {
    forall i :: 0 <= i < |s| ==> Kept(s[i], true)
  }

  function FirstDot(s: string): (i: nat)
    requires '.' in s
    ensures i < |s| && s[i] == '.' && '.' !in s[..i]
  {
    if s[0] == '.' then 0 else
      assert '.' in s[1..];
      var i := FirstDot(s[1..]) + 1;
      assert s[..i] == [s[0]] + s[1..][..i - 1];
      i
  }

  lemma DotFreeIsDigits(s: string)
    requires IsNumberText(s) && '.' !in s
    ensures AllDigits(s)
  {
    forall i | 0 <= i < |s| ensures IsDigit(s[i]) {
      assert s[i] in s;
    }
  }

  /**
   * `Number(s)` on a string of digits and dots: "" is 0, one optional '.'
   * with digits on at least one side; anything else is NaN (`None`).
   */
  function ToNumber(s: string): Option<Decimal>
    requires IsNumberText(s)
  {
    if '.' !in s then
      DotFreeIsDigits(s);
      Some(Decimal(DigitsValue(s), 0))
    else
      var i := FirstDot(s);
      assert IsNumberText(s[..i]) && IsNumberText(s[i + 1..]);
      Pointed(s[..i], s[i + 1..])
  }

  /**
   * When `Number(s)` is NaN, so that `|| 0` applies: two or more dots, or a
   * lone dot with no digit on either side.
   */
  lemma ToNumberNaN(s: string)
    requires IsNumberText(s)
    ensures ToNumber(s).None? <==> multiset(s)['.'] >= 2 || s == "."
  {
    if '.' in s {
      var i := FirstDot(s);
      assert s == s[..i] + "." + s[i + 1..];
      assert multiset(s)['.'] == 1 + multiset(s[i + 1..])['.'];
      if s == "." {
        assert s[..i] == "" && s[i + 1..] == "";
      }
    }
  }

  /** The number written `whole` '.' `frac`, where `whole` has no dot. */
  function Pointed(whole: string, frac: string): Option<Decimal>
    requires IsNumberText(whole) && IsNumberText(frac) && '.' !in whole
  {
    if '.' in frac || (whole == "" && frac == "") then None
    else
      DotFreeIsDigits(whole);
      DotFreeIsDigits(frac);
      Some(Decimal(DigitsValue(whole) * Pow10(|frac|) + DigitsValue(frac), |frac|))
  }

  /** `Number(clean) || 0`: NaN and zero both give 0. */
  function NumberOrZero(s: string): (d: Decimal)
    requires IsNumberText(s)
    ensures ToNumber(s).None? ==> d == Zero
    ensures ToNumber(s).Some? ==> Value(d) == Value(ToNumber(s).value)
  {
    match ToNumber(s)
    case None => Zero
    case Some(n) => if n.units == 0 then Zero else n
  }

  /** Every filtered input is text the parser accepts. */
  lemma CleanIsNumberText(s: string, isPercent: bool)
    ensures IsNumberText(Clean(s, isPercent))
  {
  }

  /** Dropping a trailing zero digit: the value is unchanged. */
  lemma ShiftDown(d: Decimal)
    requires d.scale > 0 && d.units % 10 == 0
    ensures Value(Decimal(d.units / 10, d.scale - 1)) == Value(d)
  {
    var q, p := d.units / 10, Pow10(d.scale - 1);
    assert d.units == 10 * q;
    assert Pow10(d.scale) == 10 * p;
    assert (10 * q) as real / (10 * p) as real == q as real / p as real;
  }

  /** The shortest form of a decimal: no trailing zero after the point. */
  function Normalize(d: Decimal): (r: Decimal)
    ensures r.scale > 0 ==> r.units % 10 != 0
    decreases d.scale
  {
    if d.scale > 0 && d.units % 10 == 0 then Normalize(Decimal(d.units / 10, d.scale - 1)) else d
  }

  /** Normalizing keeps the number. */
  lemma {:induction false} NormalizeValue(d: Decimal)
    ensures Value(Normalize(d)) == Value(d)
    decreases d.scale
  {
    if d.scale > 0 && d.units % 10 == 0 {
      ShiftDown(d);
      NormalizeValue(Decimal(d.units / 10, d.scale - 1));
    }
  }

  /**
   * `String(x)` for a non-negative number in plain notation: the whole part,
   * then (if any) '.' and the fraction digits without trailing zeros.
   */
  function NumberString(d: Decimal): string {
    var n := Normalize(d);
    if n.scale == 0 then DecimalDigits(n.units) else PointString(n.units, n.scale)
  }

  /** `units / 10^scale` written with its whole part, a '.', and exactly `scale` fraction digits. */
  function PointString(units: nat, scale: nat): string {
    var (whole, fraction) := Shift(units, Pow10(scale));
    DecimalDigits(whole) + "." + PadStart(DecimalDigits(fraction), scale)
  }

  /** The quotient and remainder of `units / p`: the whole part and fraction digits when `p` is `10^scale`. */
  function Shift(units: nat, p: nat): (parts: (nat, nat))
    requires p >= 1
    ensures parts.1 < p
    ensures parts.0 * p + parts.1 == units
  {
    (units / p, units % p)
  }

  /** Parsing what `String` printed gives back the number, in shortest form. */
  lemma NumberStringParses(d: Decimal)
    ensures IsNumberText(NumberString(d))
    ensures ToNumber(NumberString(d)) == Some(Normalize(d))
  {
    var n := Normalize(d);
    var s := NumberString(d);
    if n.scale == 0 {
      assert s == DecimalDigits(n.units);
      DigitsAreNumberText(s);
      assert ToNumber(s) == Some(Decimal(n.units, 0));
    } else {
      var (q, r) := Shift(n.units, Pow10(n.scale));
      var w, f := DecimalDigits(q), PadStart(DecimalDigits(r), n.scale);
      assert s == PointString(n.units, n.scale) == w + "." + f;
      DecimalDigitsLength(r, n.scale);
      assert |f| == n.scale && DigitsValue(f) == r && DigitsValue(w) == q;
      SplitAtDot(w, f);
      assert ToNumber(s) == Some(Decimal(q * Pow10(n.scale) + r, n.scale));
    }
  }

  lemma SplitAtDot(w: string, f: string)
    requires AllDigits(w) && AllDigits(f) && |w| >= 1
    ensures IsNumberText(w + "." + f)
    ensures ToNumber(w + "." + f) == Some(Decimal(DigitsValue(w) * Pow10(|f|) + DigitsValue(f), |f|))
  {
    var s := w + "." + f;
    DigitsAreNumberText(w);
    DigitsAreNumberText(f);
    assert IsNumberText(s);
    FirstDotAfter(w, f);
    assert s[..|w|] == w && s[|w| + 1..] == f;
    assert ToNumber(s) == Pointed(w, f);
    PointedDigits(w, f);
  }

  lemma PointedDigits(w: string, f: string)
    requires AllDigits(w) && AllDigits(f) && |w| >= 1
    ensures IsNumberText(w) && IsNumberText(f) && '.' !in w
    ensures Pointed(w, f) == Some(Decimal(DigitsValue(w) * Pow10(|f|) + DigitsValue(f), |f|))
  {
    DigitsAreNumberText(w);
    DigitsAreNumberText(f);
  }

  lemma DigitsAreNumberText(s: string)
    requires AllDigits(s)
    ensures IsNumberText(s) && '.' !in s
  {
    NoDotInDigits(s);
  }

  lemma NoDotInDigits(s: string)
    requires AllDigits(s)
    ensures '.' !in s
  {
    forall i | 0 <= i < |s| ensures s[i] != '.' {
      assert IsDigit(s[i]);
    }
  }

  lemma {:induction false} FirstDotAfter(w: string, f: string)
    requires AllDigits(w)
    ensures '.' in w + "." + f && FirstDot(w + "." + f) == |w|
    decreases |w|
  {
    var s := w + "." + f;
    assert s[|w|] == '.';
    if w != [] {
      assert s[0] == w[0] && s[0] != '.';
      assert s[1..] == w[1..] + "." + f;
      FirstDotAfter(w[1..], f);
    }
  }

  /**
   * A percentage shown with `String(x)` and typed back unchanged gives the same
   * number again (`String` here always writes plain notation).
   */
  lemma PercentRoundTrip(d: Decimal)
    ensures Clean(NumberString(d), true) == NumberString(d)
    ensures Value(NumberOrZero(Clean(NumberString(d), true))) == Value(d)
  {
    NumberStringParses(d);
    NormalizeValue(d);
    CleanFixpoint(NumberString(d), true);
  }

  /** `Math.round(x)`: the nearest whole number, halves rounded up. */
  function Round(x: real): int {
    (x + 0.5).Floor
  }

  /** A whole number in en-US grouping: "1,500,000". */
  function Group(n: nat): string
    decreases n
  {
    if n < 1000 then DecimalDigits(n)
    else Group(n / 1000) + "," + PadStart(DecimalDigits(n % 1000), 3)
  }

  /** `new Intl.NumberFormat('en-US').format(Math.round(x))`. */
  function FormatNumber(x: real): string {
    var n := Round(x);
    if x < 0.0 then "-" + Group(-n) else Group(n)
  }

  /** Removing the separators of a grouped numeral leaves the digits of the number. */
  lemma {:induction false} GroupDigits(n: nat)
    ensures AllDigits(Clean(Group(n), false))
    ensures DigitsValue(Clean(Group(n), false)) == n
    decreases n
  {
    if n < 1000 {
      CleanFixpoint(DecimalDigits(n), false);
    } else {
      var q, r := n / 1000, n % 1000;
      GroupDigits(q);
      DecimalDigitsLength(r, 3);
      var tail := PadStart(DecimalDigits(r), 3);
      assert Group(n) == Group(q) + "," + tail;
      CleanGroup(Group(q), tail);
      DigitsValueConcat(Clean(Group(q), false), tail);
      assert Pow10(|tail|) == 1000;
    }
  }

  /** The digit filter drops a group separator and keeps a group of digits whole. */
  lemma CleanGroup(head: string, tail: string)
    requires AllDigits(tail)
    ensures Clean(head + "," + tail, false) == Clean(head, false) + tail
  {
    assert head + "," + tail == head + ([','] + tail);
    CleanConcat(head, [','] + tail, false);
    CleanCons(',', tail, false);
    CleanFixpoint(tail, false);
  }

  /**
   * A whole-number field shown with `formatNumber` and typed back unchanged
   * gives the rounded number: the same number when it was whole.
   */
  lemma WholeRoundTrip(x: real)
    requires x >= 0.0
    ensures Round(x) >= 0
    ensures Value(NumberOrZero(Clean(FormatNumber(x), false))) == Round(x) as real
  {
    var n := Round(x);
    var s := Clean(FormatNumber(x), false);
    GroupDigits(n);
    assert '.' !in s by { assert AllDigits(s); }
  }
}

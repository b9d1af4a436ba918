/** What the texts of quantities mean: each suffix with its size, and decimal
    fractions and exponents, in plain numbers. */
module Suffixes {
  import opened Wrappers
  import opened Text
  import opened Quantity

  // ---------------------------------------------------------------------
  // Memory suffixes
  // ---------------------------------------------------------------------

  /** The suffixes of Kubernetes quantities and their sizes. */
  predicate IsSize(suffix: string, size: nat) {
    (suffix == "" && size == 1) ||
    (suffix == "Ki" && size == 1024) || (suffix == "Mi" && size == 1_048_576) ||
    (suffix == "Gi" && size == 1_073_741_824) || (suffix == "Ti" && size == 1_099_511_627_776) ||
    (suffix == "Pi" && size == 1_125_899_906_842_624) || (suffix == "Ei" && size == 1_152_921_504_606_846_976) ||
    (suffix == "k" && size == 1_000) || (suffix == "M" && size == 1_000_000) ||
    (suffix == "G" && size == 1_000_000_000) || (suffix == "T" && size == 1_000_000_000_000) ||
    (suffix == "P" && size == 1_000_000_000_000_000) || (suffix == "E" && size == 1_000_000_000_000_000_000)
  }

  function Base(binary: bool): nat {
    if binary then 1024 else 1000
  }

  function Power(base: nat, k: nat): nat {
    if k == 0 then 1 else base * Power(base, k - 1)
  }

  lemma Regroup(m: nat, b: nat, p: nat)
    ensures b * m * p == m * (b * p)
  {
  }

  lemma {:induction false} ScaleIsProduct(m: nat, binary: bool, k: nat)
    ensures Scale(m as real, binary, k) == (m * Power(Base(binary), k)) as real
    decreases k
  {
    if k > 0 {
      var b := Base(binary);
      assert (b * m) as real == if binary then 1024.0 * m as real else 1000.0 * m as real;
      ScaleIsProduct(b * m, binary, k - 1);
      Regroup(m, b, Power(b, k - 1));
    }
  }

  /** The size of each unit of the table. */
  lemma SizesArePowers(unit: Unit, size: nat)
    requires unit in UNITS && IsSize(unit.suffix, size)
    ensures Power(Base(unit.binary), unit.power) == size
  {
    var b := Base(unit.binary);
    assert Power(b, 1) == b;
    assert Power(b, 2) == b * b;
    assert Power(b, 3) == b * (b * b);
    assert Power(b, 4) == b * (b * (b * b));
    assert Power(b, 5) == b * (b * (b * (b * b)));
    assert Power(b, 6) == b * (b * (b * (b * (b * b))));
  }

  /** A text that ends in one suffix ends in no other of them. */
  lemma EndsInOne(digits: string, suffix: string, other: string, size: nat, otherSize: nat)
    requires IsSize(suffix, size) && IsSize(other, otherSize) && other != "" && suffix != "" && other != suffix
    requires digits != [] && IsDigit(digits[|digits| - 1])
    ensures StripSuffix(digits + suffix, other).None?
  {
    var s := digits + suffix;
    assert s[|s| - 1] == suffix[|suffix| - 1];
    if |other| == |suffix| {
      assert s[|s| - |suffix|..] == suffix;
    } else {
      assert |other| == 2 ==> other[1] == 'i' && suffix[0] != 'i';
      assert |suffix| == 2 ==> suffix[1] == 'i' && other[0] != 'i';
      if |other| <= |s| {
        assert s[|s| - |other|..][|other| - 1] == s[|s| - 1];
      }
    }
  }

  lemma UnitsHaveSizes(i: nat) returns (size: nat)
    requires i < |UNITS|
    ensures IsSize(UNITS[i].suffix, size) && UNITS[i].suffix != ""
  {
    var binary, decimal := [1024, 1_048_576, 1_073_741_824, 1_099_511_627_776, 1_125_899_906_842_624,
                            1_152_921_504_606_846_976],
        [1_000, 1_000_000, 1_000_000_000, 1_000_000_000_000, 1_000_000_000_000_000, 1_000_000_000_000_000_000];
    size := if i < 6 then binary[i] else decimal[i - 6];
  }

  /** Every suffix is one of the table's. */
  lemma SizesHaveUnits(suffix: string, size: nat) returns (k: nat)
    requires IsSize(suffix, size) && suffix != ""
    ensures k < |UNITS| && UNITS[k].suffix == suffix
  {
    var i := if suffix[0] == 'k' ||
        suffix[0] == 'K' then 0 else if suffix[0] == 'M' then 1 else if suffix[0] == 'G' then 2
        else if suffix[0] == 'T' then 3 else if suffix[0] == 'P' then 4 else 5;
    k := if |suffix| == 2 then i else i + 6;
  }

  lemma SuffixStrips(n: nat, suffix: string, size: nat)
    requires IsSize(suffix, size) && suffix != ""
    ensures
      var s := ShowNat(n) + suffix;
      Trim(s) == s && StripSuffix(s, suffix) == Some(ShowNat(n)) && Trim(ShowNat(n)) == ShowNat(n)
  {
    var digits := ShowNat(n);
    var s := digits + suffix;
    ShowNatParses(n);
    TrimKeeps(digits);
    assert s[0] == digits[0] && s[|s| - 1] == suffix[|suffix| - 1];
    TrimKeeps(s);
    assert s[|s| - |suffix|..] == suffix && s[..|s| - |suffix|] == digits;
  }

  lemma SuffixFinds(n: nat, suffix: string, size: nat) returns (unit: Unit)
    requires IsSize(suffix, size) && suffix != ""
    ensures UnitOf(ShowNat(n) + suffix) == unit && unit in UNITS && unit.suffix == suffix
  {
    var s := ShowNat(n) + suffix;
    ShowNatParses(n);
    SuffixStrips(n, suffix, size);
    var k := SizesHaveUnits(suffix, size);
    forall j | 0 <= j < k
      ensures StripSuffix(s, UNITS[j].suffix).None?
    {
      var other := UnitsHaveSizes(j);
      UnitsDiffer(j, k);
      EndsInOne(ShowNat(n), suffix, UNITS[j].suffix, size, other);
    }
    FirstUnit(s, 0, k);
    unit := UNITS[k];
  }

  lemma UnitsDiffer(j: nat, k: nat)
    requires j < k < |UNITS|
    ensures UNITS[j].suffix != UNITS[k].suffix
  {
  }

  lemma SizedScale(unit: Unit, n: nat, size: nat)
    requires Power(Base(unit.binary), unit.power) == size && Representable(n * size) && n * size <= U64_MAX
    ensures ToBytes(Scale(n as real, unit.binary, unit.power)) == Some(n * size)
  {
    ScaleIsProduct(n, unit.binary, unit.power);
    ExactBytes(n * size);
  }

  lemma NumberReads(n: nat)
    requires Representable(n) && n <= U64_MAX
    ensures ParseF64(ShowNat(n)) == Some(n as real)
  {
    var m := PrintedNumberReads(n);
    RoundingFixes(n);
  }

  lemma BareMeans(n: nat)
    requires Representable(n) && n <= U64_MAX
    ensures ParseMemoryBytes(ShowNat(n)) == Some(n)
  {
    var bare := Unit("", true, 0);
    PrintedUnitSplits(n, bare, 1);
    NumberReads(n);
    SizedScale(bare, n, 1);
    assert Render(n, bare) == ShowNat(n);
    ParseSteps(ShowNat(n), bare, ShowNat(n), n as real, Some(n));
  }

  /** A number with a suffix is that many times its size, whenever binary64 holds both
      the number and the product. */
  lemma SuffixMeans(n: nat, suffix: string, size: nat)
    requires IsSize(suffix, size) && Representable(n) && Representable(n * size) && n <= U64_MAX && n * size <= U64_MAX
    ensures ParseMemoryBytes(ShowNat(n) + suffix) == Some(n * size)
  {
    if suffix == "" {
      BareMeans(n);
      assert ShowNat(n) + suffix == ShowNat(n);
    } else {
      var unit := SuffixFinds(n, suffix, size);
      NumberReads(n);
      SuffixStrips(n, suffix, size);
      SizesArePowers(unit, size);
      SizedScale(unit, n, size);
      ParseSteps(ShowNat(n) + suffix, unit, ShowNat(n), n as real, Some(n * size));
    }
  }

  /** As it does whenever the product is at most 2^53. */
  lemma SmallSuffixMeans(n: nat, suffix: string, size: nat)
    requires IsSize(suffix, size) && n * size <= 9_007_199_254_740_992
    ensures ParseMemoryBytes(ShowNat(n) + suffix) == Some(n * size)
  {
    assert n <= n * size;
    UpToTwo53(n);
    UpToTwo53(n * size);
    SuffixMeans(n, suffix, size);
  }

  predicate Blank(s: string) {
    forall i | 0 <= i < |s| :: IsWhitespace(s[i])
  }

  lemma {:induction false} TrimsStart(pre: string, s: string)
    requires Blank(pre) && s != [] && !IsWhitespace(s[0])
    ensures TrimStart(pre + s) == s
  {
    if pre == [] {
      assert pre + s == s;
    } else {
      assert (pre + s)[1..] == pre[1..] + s;
      TrimsStart(pre[1..], s);
    }
  }

  lemma {:induction false} TrimsEnd(s: string, post: string)
    requires Blank(post) && s != [] && !IsWhitespace(s[|s| - 1])
    ensures TrimEnd(s + post) == s
  {
    if post == [] {
      assert s + post == s;
    } else {
      var n := |post| - 1;
      assert (s + post)[..|s| + n] == s + post[..n];
      TrimsEnd(s, post[..n]);
    }
  }

  /** Blanks around a quantity do not matter. */
  lemma BlanksAreIgnored(pre: string, s: string, post: string)
    requires Blank(pre) && Blank(post) && s != [] && !IsWhitespace(s[0]) && !IsWhitespace(s[|s| - 1])
    ensures ParseMemoryBytes(pre + s + post) == ParseMemoryBytes(s)
    ensures ParseCpuMillicores(pre + s + post) == ParseCpuMillicores(s)
  {
    TrimsStart(pre, s + post);
    assert pre + s + post == pre + (s + post);
    TrimsEnd(s, post);
    TrimKeeps(s);
  }

  /** Which multiples of a unit are multiples of the next one. */
  lemma Remainder(n: nat, unit: nat)
    requires unit > 0
    ensures (unit * n) % unit == 0 && unit * n / unit == n
    ensures (unit * n) % (1024 * unit) == 0 <==> n % 1024 == 0
  {
    var q, r := n / 1024, n % 1024;
    assert unit * n == (1024 * unit) * q + unit * r;
    Divides(unit * n, unit, n, 0);
    ProductBelow(unit, r);
    Divides(unit * n, 1024 * unit, q, unit * r);
  }

  lemma ProductBelow(unit: nat, r: nat)
    requires unit > 0 && r < 1024
    ensures 0 <= unit * r < 1024 * unit && (unit * r == 0 <==> r == 0)
  {
  }

  lemma Divides(x: nat, d: nat, q: nat, r: nat)
    requires x == d * q + r && r < d
    ensures x / d == q && x % d == r
  {
    assert d * (x / d) + x % d == x;
    if x / d < q {
      ProductGrows(x / d + 1, q, d);
    } else if x / d > q {
      ProductGrows(q + 1, x / d, d);
    }
  }

  lemma ProductGrows(a: nat, b: nat, d: nat)
    requires a <= b
    ensures d * a <= d * b
  {
  }

  lemma FinerDivides(x: nat, d: nat)
    requires d > 0 && x % (1024 * d) == 0
    ensures x % d == 0
  {
    var q := x / (1024 * d);
    assert x == (1024 * d) * q;
    assert (1024 * d) * q == d * (1024 * q);
    Divides(x, d, 1024 * q, 0);
  }

  /** A number that the unit divides and the next one does not. */
  lemma UnitOfCount(x: nat)
    ensures x % 1024 != 0 ==> FormatUnit(x) == (Unit("", true, 0), 1)
    ensures x % 1024 == 0 && x % 1_048_576 != 0 ==> FormatUnit(x) == (Unit("Ki", true, 1), 1024)
    ensures x % 1_048_576 == 0 && x % 1_073_741_824 != 0 ==> FormatUnit(x) == (Unit("Mi", true, 2), 1_048_576)
    ensures x % 1_073_741_824 == 0 && x % 1_099_511_627_776 != 0 ==>
      FormatUnit(x) == (Unit("Gi", true, 3), 1_073_741_824)
    ensures x % 1_099_511_627_776 == 0 ==> FormatUnit(x) == (Unit("Ti", true, 4), 1_099_511_627_776)
  {
    if x % 1_048_576 == 0 {
      FinerDivides(x, 1024);
    }
    if x % 1_073_741_824 == 0 {
      FinerDivides(x, 1_048_576);
    }
    if x % 1_099_511_627_776 == 0 {
      FinerDivides(x, 1_073_741_824);
    }
  }

  lemma PrintsUnit(n: nat, suffix: string, size: nat)
    requires IsSize(suffix, size) && size > 1 && FormatUnit(size * n).0.suffix == suffix &&
      FormatUnit(size * n).1 == size
    ensures FormatQuantity(size * n) == ShowNat(n) + suffix
  {
    Remainder(n, size);
  }

  /** What the agent prints is in the largest unit that divides it; nothing is so many
      of the largest. */
  lemma PrintsLargestUnit(n: nat, rest: nat)
    requires rest % 1024 != 0
    ensures FormatQuantity(rest) == ShowNat(rest)
    ensures FormatQuantity(1024 * rest) == ShowNat(rest) + "Ki"
    ensures FormatQuantity(1_048_576 * rest) == ShowNat(rest) + "Mi"
    ensures FormatQuantity(1_073_741_824 * rest) == ShowNat(rest) + "Gi"
    ensures FormatQuantity(1_099_511_627_776 * n) == ShowNat(n) + "Ti"
  {
    UnitOfCount(rest);
    assert ShowNat(rest) + "" == ShowNat(rest);
    PrintsMultiple(rest, "Ki", 1024);
    PrintsMultiple(rest, "Mi", 1_048_576);
    PrintsMultiple(rest, "Gi", 1_073_741_824);
    Remainder(n, 1_099_511_627_776);
    UnitOfCount(1_099_511_627_776 * n);
    PrintsUnit(n, "Ti", 1_099_511_627_776);
  }

  lemma PrintsMultiple(n: nat, suffix: string, size: nat)
    requires n % 1024 != 0 && IsSize(suffix, size) && suffix in {"Ki", "Mi", "Gi"}
    ensures FormatQuantity(size * n) == ShowNat(n) + suffix
  {
    Remainder(n, size);
    UnitOfCount(size * n);
    PrintsUnit(n, suffix, size);
  }

  /** Negative numbers are refused, short of zero. */
  lemma NegativesAreRefused(n: nat)
    requires n <= U64_MAX
    ensures ParseF64("-" + ShowNat(n)) == if n == 0 then Some(0.0) else None
  {
    var m := PrintedNumberReads(n);
    ShowNatParses(n);
    PrintedNumberParses(n);
    assert ("-" + ShowNat(n))[1..] == ShowNat(n);
    if n > 0 {
      RoundsAboveZero(n);
    } else {
      RoundingFixes(0);
    }
  }

  lemma RoundsAboveZero(n: nat)
    requires n > 0
    ensures ToF64(n as real) > 0.0
  {
    if n < TWO_53 {
      RoundingFixes(n);
    } else {
      RoundsToNearest(n as real, TWO_53);
    }
  }

  // ---------------------------------------------------------------------
  // Decimal fractions and exponents
  // ---------------------------------------------------------------------

  /** `r` is `n` times ten to the power `e`. */
  ghost predicate Denotes(r: real, n: nat, e: int) {
    if e >= 0 then r == n as real * Pow10(e) as real else r * Pow10(-e) as real == n as real
  }

  lemma Tenfold(y: real, x: real, p: real)
    ensures 10.0 * x * p == x * (10.0 * p)
    ensures y * p == x / 10.0 ==> y * (10.0 * p) == x
  {
    assert y * (10.0 * p) == 10.0 * (y * p);
  }

  lemma {:induction false} ShiftUp(x: real, e: nat, p: real)
    requires 0.0 <= x && p == Pow10(e) as real
    ensures Shift(x, e) == x * p
    decreases e
  {
    if e > 0 {
      var tenth := Pow10(e - 1) as real;
      assert p == 10.0 * tenth;
      ShiftUp(10.0 * x, e - 1, tenth);
      Tenfold(0.0, x, tenth);
    }
  }

  lemma {:induction false} ShiftDown(x: real, e: nat, p: real)
    requires 0.0 <= x && p == Pow10(e) as real
    ensures Shift(x, 0 - e) * p == x
    decreases e
  {
    if e > 0 {
      var tenth := Pow10(e - 1) as real;
      assert p == 10.0 * tenth;
      ShiftDown(x / 10.0, e - 1, tenth);
      Tenfold(Shift(x, 0 - e), x, tenth);
    }
  }

  lemma OneMoreDigit(v: nat, b: nat, p: nat)
    ensures 10 * (v * p + b / 10) + b % 10 == v * (10 * p) + b
  {
    assert v * (10 * p) == 10 * (v * p);
  }

  lemma {:induction false} DigitsThenPad(s: string, b: nat, w: nat)
    requires AllDigits(s) && b < Pow10(w)
    ensures AllDigits(s + Pad(b, w)) && DigitsValue(s + Pad(b, w)) == DigitsValue(s) * Pow10(w) + b
    decreases w
  {
    var t := s + Pad(b, w);
    if w == 0 {
      assert t == s;
    } else {
      DigitsThenPad(s, b / 10, w - 1);
      OneMoreDigit(DigitsValue(s), b, Pow10(w - 1));
      var front := s + Pad(b / 10, w - 1);
      assert t == front + [Digit(b % 10)];
      assert t[..|t| - 1] == front && t[|t| - 1] == Digit(b % 10);
    }
  }

  /** Digits end where something else begins. */
  lemma {:induction false} DigitsEnd(s: string, rest: string)
    requires AllDigits(s) && (rest == [] || !IsDigit(rest[0]))
    ensures LeadingDigits(s + rest) == |s|
  {
    if s == [] {
      assert s + rest == rest;
    } else {
      DigitsEnd(s[1..], rest);
      assert (s + rest)[1..] == s[1..] + rest;
    }
  }

  predicate IsLetter(c: char) {
    c == 'e' || c == 'E'
  }

  /** How an exponent with a sign is read, given its digits. */
  lemma SignedSteps(s: string, digits: string, e: int)
    requires |s| > 1 && IsLetter(s[0]) && (s[1] == '+' || s[1] == '-') && s[2..] == digits
    requires digits != [] && LeadingDigits(digits) == |digits| && AllDigits(digits)
    requires e == if s[1] == '-' then 0 - DigitsValue(digits) else DigitsValue(digits)
    ensures ParseExponent(s) == Some(e)
  {
    assert digits[..|digits|] == digits;
  }

  lemma SignedReads(letter: char, sign: char, digits: string, e: int)
    requires IsLetter(letter) && (sign == '+' || sign == '-') && AllDigits(digits) && digits != []
    requires e == if sign == '-' then 0 - DigitsValue(digits) else DigitsValue(digits)
    ensures ParseExponent([letter, sign] + digits) == Some(e)
  {
    LeadingDigitsOfDigits(digits);
    assert ([letter, sign] + digits)[2..] == digits;
    SignedSteps([letter, sign] + digits, digits, e);
  }

  lemma UnsignedReads(letter: char, digits: string)
    requires IsLetter(letter) && AllDigits(digits) && digits != []
    ensures ParseExponent([letter] + digits) == Some(DigitsValue(digits))
  {
    var s := [letter] + digits;
    LeadingDigitsOfDigits(digits);
    assert IsDigit(digits[0]) && s[1] == digits[0] && s[1..] == digits;
  }

  /** How a text with a point is read, given where its digits lie. */
  lemma PointSteps(s: string, digits: string, tail: string, after: string, frac: string, rest: string, n: nat, e: int)
    requires LeadingDigits(s) == |digits| > 0 && s[..|digits|] == digits && s[|digits|..] == tail
    requires tail != [] && tail[0] == '.' && tail[1..] == after
    requires LeadingDigits(after) == |frac| && after[..|frac|] == frac && after[|frac|..] == rest
    requires AllDigits(digits + frac) && DigitsValue(digits + frac) == n && ParseExponent(rest) == Some(e)
    ensures ParseDecimal(s) == Some(Shift(n as real, e - |frac|))
  {
  }

  lemma PointedSteps(digits: string, frac: string, rest: string, n: nat, e: int)
    requires AllDigits(digits) && digits != [] && AllDigits(frac) && (rest == [] || !IsDigit(rest[0]))
    requires AllDigits(digits + frac) && DigitsValue(digits + frac) == n && ParseExponent(rest) == Some(e)
    ensures ParseDecimal(digits + ("." + (frac + rest))) == Some(Shift(n as real, e - |frac|))
  {
    var after := frac + rest;
    var tail := "." + after;
    var s := digits + tail;
    DigitsEnd(digits, tail);
    DigitsEnd(frac, rest);
    assert s[..|digits|] == digits && s[|digits|..] == tail && tail[1..] == after;
    assert after[..|frac|] == frac && after[|frac|..] == rest;
    PointSteps(s, digits, tail, after, frac, rest, n, e);
  }

  /** And a number without a point. */
  lemma PlainSteps(digits: string, rest: string, n: nat, e: int)
    requires AllDigits(digits) && digits != [] && (rest == [] || (!IsDigit(rest[0]) && rest[0] != '.'))
    requires DigitsValue(digits) == n && ParseExponent(rest) == Some(e)
    ensures ParseDecimal(digits + rest) == Some(Shift(n as real, e))
  {
    DigitsEnd(digits, rest);
    var s := digits + rest;
    assert s[..|digits|] == digits && s[|digits|..] == rest && digits + [] == digits;
  }

  lemma PointedDigits(a: nat, b: nat, w: nat)
    requires b < Pow10(w)
    ensures ShowNat(a) != [] && AllDigits(ShowNat(a)) && AllDigits(ShowNat(a) + Pad(b, w))
    ensures DigitsValue(ShowNat(a) + Pad(b, w)) == a * Pow10(w) + b
  {
    ShowNatParses(a);
    DigitsThenPad(ShowNat(a), b, w);
  }

  lemma ReadsShifted(parsed: Option<real>, n: nat, e: int) returns (r: real)
    requires parsed == Some(Shift(n as real, e))
    ensures parsed == Some(r) && 0.0 <= r && Denotes(r, n, e)
  {
    r := Shift(n as real, e);
    if e >= 0 {
      ShiftUp(n as real, e, Pow10(e) as real);
    } else {
      ShiftDown(n as real, -e, Pow10(-e) as real);
    }
  }

  /** The digits before and behind a point are one number, and the point moves it; what
      follows them may move it again. */
  lemma PointedReads(digits: string, frac: string, rest: string, n: nat, e: int) returns (r: real)
    requires AllDigits(digits) && digits != [] && AllDigits(frac) && (rest == [] || !IsDigit(rest[0]))
    requires AllDigits(digits + frac) && DigitsValue(digits + frac) == n && ParseExponent(rest) == Some(e)
    ensures ParseDecimal(digits + ("." + (frac + rest))) == Some(r) && 0.0 <= r && Denotes(r, n, e - |frac|)
  {
    PointedSteps(digits, frac, rest, n, e);
    r := ReadsShifted(ParseDecimal(digits + ("." + (frac + rest))), n, e - |frac|);
  }

  lemma PlainReads(digits: string, rest: string, n: nat, e: int) returns (r: real)
    requires AllDigits(digits) && digits != [] && (rest == [] || (!IsDigit(rest[0]) && rest[0] != '.'))
    requires DigitsValue(digits) == n && ParseExponent(rest) == Some(e)
    ensures ParseDecimal(digits + rest) == Some(r) && Denotes(r, n, e)
  {
    PlainSteps(digits, rest, n, e);
    r := ReadsShifted(ParseDecimal(digits + rest), n, e);
  }

  /** The exponent a text ends in: without a sign, with a plus, or with a minus. */
  predicate IsExponent(rest: string, letter: char, e: int) {
    IsLetter(letter) &&
    ((e >= 0 && rest == [letter] + ShowNat(e)) || (e >= 0 && rest == [letter, '+'] + ShowNat(e)) ||
     (e <= 0 && rest == [letter, '-'] + ShowNat(0 - e)))
  }

  lemma ExponentIs(rest: string, letter: char, e: int)
    requires IsExponent(rest, letter, e)
    ensures rest != [] && !IsDigit(rest[0]) && rest[0] != '.' && ParseExponent(rest) == Some(e)
  {
    if e >= 0 && rest == [letter] + ShowNat(e) {
      ShowNatParses(e);
      UnsignedReads(letter, ShowNat(e));
    } else if e >= 0 && rest == [letter, '+'] + ShowNat(e) {
      ShowNatParses(e);
      SignedReads(letter, '+', ShowNat(e), e);
    } else {
      ShowNatParses(0 - e);
      SignedReads(letter, '-', ShowNat(0 - e), e);
    }
  }

  /** An exponent moves the point of the number before it. */
  lemma ExponentMoves(digits: string, frac: string, m: nat, n: nat, rest: string, letter: char, e: int)
    returns (q: real, r: real)
    requires AllDigits(digits) && digits != [] && AllDigits(frac) && IsExponent(rest, letter, e)
    requires DigitsValue(digits) == m && AllDigits(digits + frac) && DigitsValue(digits + frac) == n
    ensures ParseDecimal(digits + rest) == Some(q) && Denotes(q, m, e)
    ensures ParseDecimal(digits + ("." + (frac + rest))) == Some(r) && Denotes(r, n, e - |frac|)
  {
    ExponentIs(rest, letter, e);
    q := PlainReads(digits, rest, m, e);
    r := PointedReads(digits, frac, rest, n, e);
  }

  // ---------------------------------------------------------------------
  // Cores in thousandths
  // ---------------------------------------------------------------------

  ghost predicate Within(r: real, x: real, p: real) {
    -0.5 <= (r - x) * p <= 0.5
  }

  lemma Halves(r: real, x: real, p: real)
    requires Within(r, 2.0 * x, p)
    ensures Within(r / 2.0, x, 2.0 * p)
  {
    assert (r / 2.0 - x) * (2.0 * p) == (r - 2.0 * x) * p;
  }

  lemma ProductAtLeast(x: real, p: real)
    requires 0.0 <= x && p >= 2.0
    ensures x * p >= 2.0 * x
  {
  }

  lemma OneDoubling(x: real, depth: nat, p: real)
    requires 0.0 <= x < TWO_52 as real && depth > 0 && Within(RoundAtUnit(2.0 * x, depth - 1), 2.0 * x, p)
    ensures Within(RoundAtUnit(x, depth), x, 2.0 * p)
  {
    Halves(RoundAtUnit(2.0 * x, depth - 1), x, p);
  }

  /** Rounding a number below 2^53 / p moves it by at most half of 1 / p. */
  lemma {:induction false} UnitError(x: real, depth: nat, j: nat, p: real)
    requires 0.0 <= x && j <= depth && p == Pow2(j) as real && x * p < TWO_53 as real
    ensures Within(RoundAtUnit(x, depth), x, p)
    decreases depth
  {
    if j > 0 {
      var half := Pow2(j - 1) as real;
      assert p == 2.0 * half;
      ProductAtLeast(x, p);
      assert 2.0 * x * half == x * p;
      UnitError(2.0 * x, depth - 1, j - 1, half);
      OneDoubling(x, depth, half);
    } else if x < TWO_52 as real && depth > 0 {
      assert 2.0 * x * p == 2.0 * x;
      WithoutDoubling(2.0 * x, depth - 1);
    } else {
      WithoutDoubling(x, depth);
    }
  }

  lemma {:induction false} WithoutDoubling(x: real, depth: nat)
    requires 0.0 <= x
    ensures -0.5 <= RoundAtUnit(x, depth) - x <= 0.5
    decreases depth
  {
    if x < TWO_52 as real && depth > 0 {
      WithoutDoubling(2.0 * x, depth - 1);
    }
  }

  lemma CoresError(x: real)
    requires 0.0 <= x < 4_398_046_511_104.0
    ensures x - 1.0 / 4096.0 <= ToF64(x) <= x + 1.0 / 4096.0
  {
    assert Pow2(11) == 2048;
    UnitError(x, 1074, 11, 2048.0);
  }

  lemma MillisError(y: real)
    requires 0.0 <= y < TWO_52 as real
    ensures y - 0.25 <= ToF64(y) <= y + 0.25
  {
    assert Pow2(1) == 2;
    UnitError(y, 1074, 1, 2.0);
  }

  lemma RoundsTo(z: real, n: nat)
    requires n as real - 0.4942 <= z <= n as real + 0.4942 && 0.0 <= z
    ensures RoundHalfAway(z) == n
  {
  }

  /** Both roundings together stay within half a millicore. */
  lemma ThousandthsRound(n: nat, x: real)
    requires x * 1000.0 == n as real && x < 4_398_046_511_104.0 && 0.0 <= x
    ensures MillisOfCores(ToF64(x)) == n
  {
    CoresError(x);
    var y := ToF64(x) * 1000.0;
    assert n as real - 0.2442 <= y <= n as real + 0.2442;
    MillisError(y);
    RoundsTo(ToF64(y), n);
  }

  /** A number without a sign, in range. */
  lemma FloatSteps(s: string, x: real)
    requires s != [] && IsDigit(s[0]) && 0.0 <= x && ParseDecimal(s) == Some(x) && ToF64(x) < F64_LIMIT as real
    ensures ParseF64(s) == Some(ToF64(x))
  {
  }

  /** From digit to digit. */
  predicate Unpadded(s: string) {
    s != [] && IsDigit(s[0]) && IsDigit(s[|s| - 1]) && Trim(s) == s
  }

  /** A text that is read as `n` thousandths. */
  ghost predicate IsThousandths(s: string, n: nat, x: real) {
    Unpadded(s) && ParseDecimal(s) == Some(x) && 0.0 <= x < 4_398_046_511_104.0 && x * 1000.0 == n as real
  }

  lemma ReadsThousandths(s: string, n: nat, x: real)
    requires IsThousandths(s, n, x)
    ensures ParseCpuMillicores(s) == Some(n)
  {
    CoresError(x);
    FloatSteps(s, x);
    CpuSteps(s, ToF64(x));
    ThousandthsRound(n, x);
  }

  lemma ThousandthsParse(a: nat, b: nat, s: string, n: nat) returns (x: real)
    requires b < 1000 && s == ShowNat(a) + "." + Pad(b, 3) && n == 1000 * a + b
    ensures ParseDecimal(s) == Some(x) && 0.0 <= x && Denotes(x, n, -3)
  {
    assert s == ShowNat(a) + ("." + (Pad(b, 3) + []));
    Thousand();
    PointedDigits(a, b, 3);
    x := PointedReads(ShowNat(a), Pad(b, 3), [], n, 0);
  }

  lemma Thousand()
    ensures Pow10(3) == 1000
  {
    assert Pow10(3) == 10 * Pow10(2) == 100 * Pow10(1) == 1000;
  }

  lemma PointedIsThousandths(a: nat, b: nat, s: string, n: nat) returns (x: real)
    requires b < 1000 && a < 4_398_046_511_104 && s == ShowNat(a) + "." + Pad(b, 3) && n == 1000 * a + b
    ensures IsThousandths(s, n, x)
  {
    PointedEnds(a, b, s);
    x := ThousandthsParse(a, b, s, n);
    Thousand();
  }

  lemma PointedRead(a: nat, b: nat, s: string, n: nat)
    requires b < 1000 && a < 4_398_046_511_104 && s == ShowNat(a) + "." + Pad(b, 3) && n == 1000 * a + b
    ensures ParseCpuMillicores(s) == Some(n)
  {
    var x := PointedIsThousandths(a, b, s, n);
    ReadsThousandths(s, n, x);
  }

  /** Cores with three decimals are that many millicores, below 2^42 of them. */
  lemma ThousandthsRead(a: nat, b: nat)
    requires b < 1000 && a < 4_398_046_511_104
    ensures ParseCpuMillicores(ShowNat(a) + "." + Pad(b, 3)) == Some(1000 * a + b)
  {
    PointedRead(a, b, ShowNat(a) + "." + Pad(b, 3), 1000 * a + b);
  }

  lemma PointedEnds(a: nat, b: nat, s: string)
    requires s == ShowNat(a) + "." + Pad(b, 3)
    ensures Unpadded(s)
  {
    ShowNatParses(a);
    assert s[|s| - 1] == Pad(b, 3)[2];
    TrimKeeps(s);
  }

  lemma Doubled(x: real, depth: nat)
    requires 0.0 <= x < TWO_52 as real && depth > 0
    ensures RoundAtUnit(x, depth) == RoundAtUnit(2.0 * x, depth - 1) / 2.0
  {
  }

  lemma DoubledFiveTimes(x: real, depth: nat)
    requires 0.0 <= x && 16.0 * x < TWO_52 as real && depth >= 5
    ensures RoundAtUnit(x, depth) == RoundAtUnit(32.0 * x, depth - 5) / 32.0
  {
    Doubled(x, depth);
    Doubled(2.0 * x, depth - 1);
    Doubled(4.0 * x, depth - 2);
    Doubled(8.0 * x, depth - 3);
    Doubled(16.0 * x, depth - 4);
  }

  /** 2^42 cores and 22 thousandths, to the nearest 1/1024. */
  lemma FirstRounding(x: real)
    requires x * 1000.0 == 4_398_046_511_104_022.0
    ensures ToF64(x) * 1024.0 == 4_503_599_627_370_519.0
  {
    DoubledFiveTimes(x, 1074);
    DoubledFiveTimes(32.0 * x, 1069);
    var y := 1024.0 * x;
    assert y.Floor == 4_503_599_627_370_518;
    assert RoundHalfEven(y) == 4_503_599_627_370_519;
  }

  /** And the product with 1000, to the nearest half. */
  lemma SecondRounding(y: real)
    requires y * 1024.0 == 4_503_599_627_370_519_000.0
    ensures RoundHalfAway(ToF64(y)) == 4_398_046_511_104_023
  {
    Doubled(y, 1074);
    assert (2.0 * y).Floor == 8_796_093_022_208_044;
    assert RoundHalfEven(2.0 * y) == 8_796_093_022_208_045;
  }

  /** From 2^42 cores on a thousandth may be added by the two roundings. */
  lemma ThousandthsEnd()
    ensures ParseCpuMillicores(ShowNat(4_398_046_511_104) + "." + Pad(22, 3)) == Some(1000 * 4_398_046_511_104 + 23)
  {
    var s := ShowNat(4_398_046_511_104) + "." + Pad(22, 3);
    PointedEnds(4_398_046_511_104, 22, s);
    var x := ThousandthsParse(4_398_046_511_104, 22, s, 4_398_046_511_104_022);
    Thousand();
    TwiceRounded(s, x);
  }

  lemma TwiceRounded(s: string, x: real)
    requires Unpadded(s) && ParseDecimal(s) == Some(x) && x * 1000.0 == 4_398_046_511_104_022.0
    ensures ParseCpuMillicores(s) == Some(4_398_046_511_104_023)
  {
    FirstRounding(x);
    FloatSteps(s, x);
    CpuSteps(s, ToF64(x));
    SecondRounding(ToF64(x) * 1000.0);
  }
}

/** Kubernetes quantities as the agent prints them and the scheduler parses
    them, with the parser's 64-bit floating point modelled exactly: every
    product and every parsed number is rounded to the nearest binary64 value,
    ties to even. */
module Quantity {
  import opened Wrappers
  import opened Text

  const U64_MAX: nat := 0xFFFF_FFFF_FFFF_FFFF
  type U64 = n: nat | n <= U64_MAX
  const TWO_52: nat := 0x10_0000_0000_0000
  const TWO_53: nat := 0x20_0000_0000_0000
  const TWO_64: nat := 0x1_0000_0000_0000_0000
  const TWO_256: nat := 0x1_0000_0000_0000_0000_0000_0000_0000_0000_0000_0000_0000_0000_0000_0000_0000_0000
  const TWO_512: nat := TWO_256 * TWO_256
  /** Every finite binary64 value is below 2^1024. */
  const F64_LIMIT: nat := TWO_512 * TWO_512

  // ---------------------------------------------------------------------
  // binary64
  // ---------------------------------------------------------------------

  function RoundHalfEven(x: real): int {
    var f := x.Floor;
    var d := x - f as real;
    if d < 0.5 then f
    else if d > 0.5 then f + 1
    else if f % 2 == 0 then f else f + 1
  }

  /** Rounding below 2^53: scale up until the unit in the last place is one
      (or the subnormal limit 2^-1074 is reached), round, scale back. */
  function RoundAtUnit(x: real, depth: nat): (r: real)
    requires 0.0 <= x
    ensures 0.0 <= r
    decreases depth
  {
    if x >= TWO_52 as real || depth == 0 then RoundHalfEven(x) as real
    else RoundAtUnit(2.0 * x, depth - 1) / 2.0
  }

  /** The binary64 value nearest to `x`, before the overflow check. */
  function ToF64(x: real): (r: real)
    requires 0.0 <= x
    ensures 0.0 <= r
    decreases x.Floor
  {
    if x >= TWO_53 as real then 2.0 * ToF64(x / 2.0) else RoundAtUnit(x, 1074)
  }

  /** Rust's `f64::round` on a non-negative number: halves go away from zero. */
  function RoundHalfAway(x: real): (r: int)
    requires 0.0 <= x
    ensures 0 <= r
  {
    (x + 0.5).Floor
  }

  /** `x` times `base` to the power `k`. */
  function Scale(x: real, binary: bool, k: nat): (r: real)
    requires 0.0 <= x
    ensures 0.0 <= r
    decreases k
  {
    if k == 0 then x else Scale(if binary then 1024.0 * x else 1000.0 * x, binary, k - 1)
  }

  /** `x` with its decimal point moved `e` places to the right. */
  function Shift(x: real, e: int): (r: real)
    requires 0.0 <= x
    ensures 0.0 <= r
    decreases if e < 0 then -e else e
  {
    if e == 0 then x else if e > 0 then Shift(10.0 * x, e - 1) else Shift(x / 10.0, e + 1)
  }

  // ---------------------------------------------------------------------
  // Numbers in text
  // ---------------------------------------------------------------------

  predicate IsWhitespace(c: char) {
    '\U{0009}' <= c <= '\U{000d}' || c == ' ' || c == '\U{0085}' || c == '\U{00a0}' || c == '\U{1680}' ||
    '\U{2000}' <= c <= '\U{200a}' || c == '\U{2028}' || c == '\U{2029}' || c == '\U{202f}' || c == '\U{205f}' ||
    c == '\U{3000}'
  }

  function TrimStart(s: string): (r: string)
    ensures |r| <= |s|
  {
    if s != [] && IsWhitespace(s[0]) then TrimStart(s[1..]) else s
  }

  function TrimEnd(s: string): (r: string)
    ensures |r| <= |s|
  {
    if s != [] && IsWhitespace(s[|s| - 1]) then TrimEnd(s[..|s| - 1]) else s
  }

  function Trim(s: string): string {
    TrimEnd(TrimStart(s))
  }

  /** The length of the longest run of digits `s` starts with. */
  function LeadingDigits(s: string): (n: nat)
    ensures n <= |s| && AllDigits(s[..n])
    ensures n < |s| ==> !IsDigit(s[n])
  {
    if s != [] && IsDigit(s[0]) then
      var n := LeadingDigits(s[1..]);
      assert s[..1 + n] == [s[0]] + s[1..][..n];
      1 + n
    else 0
  }

  /** `str::parse::<u64>`: an optional plus sign, digits, and no overflow. */
  function ParseU64(s: string): Option<U64>
  {
    var t := if s != [] && s[0] == '+' then s[1..] else s;
    if t == [] || LeadingDigits(t) != |t| then None
    else
      assert t[..|t|] == t;
      var v := DigitsValue(t);
      if v <= U64_MAX then Some(v) else None
  }

  /** `str::parse::<i64>`. */
  function ParseI64(s: string): Option<int> {
    var neg := s != [] && s[0] == '-';
    var t := if s != [] && (s[0] == '+' || s[0] == '-') then s[1..] else s;
    if t == [] || LeadingDigits(t) != |t| then None
    else
      assert t[..|t|] == t;
      var d: int := DigitsValue(t);
      var v := if neg then -d else d;
      if -0x8000_0000_0000_0000 <= v < 0x8000_0000_0000_0000 then Some(v) else None
  }

  /** What may follow the digits of a float: nothing, or a signed exponent. */
  function ParseExponent(s: string): Option<int> {
    if s == [] then Some(0)
    else if s[0] != 'e' && s[0] != 'E' then None
    else
      var neg := |s| > 1 && s[1] == '-';
      var t := if |s| > 1 && (s[1] == '+' || s[1] == '-') then s[2..] else s[1..];
      if t == [] || LeadingDigits(t) != |t| then None
      else
        assert t[..|t|] == t;
        var d: int := DigitsValue(t);
        Some(if neg then -d else d)
  }

  /** The exact value of an unsigned decimal number. */
  function ParseDecimal(s: string): (r: Option<real>)
    ensures r.Some? ==> 0.0 <= r.value
  {
    var i := LeadingDigits(s);
    var rest := s[i..];
    var dot := rest != [] && rest[0] == '.';
    var f := if dot then LeadingDigits(rest[1..]) else 0;
    var frac := if dot then rest[1..][..f] else [];
    if i + f == 0 then None
    else
      var e := ParseExponent(if dot then rest[1..][f..] else rest);
      if e.None? then None
      else
        assert AllDigits(s[..i] + frac);
        Some(Shift(DigitsValue(s[..i] + frac) as real, e.value - f))
  }

  /** `str::parse::<f64>` followed by the callers' rejection of negative and
      non-finite results ("inf" and "nan" parse in Rust and are rejected by
      both callers, so they are not numbers here). */
  function ParseF64(s: string): (r: Option<real>)
    ensures r.Some? ==> 0.0 <= r.value
  {
    var neg := s != [] && s[0] == '-';
    var t := if s != [] && (s[0] == '+' || s[0] == '-') then s[1..] else s;
    var d := ParseDecimal(t);
    if d.None? then None
    else
      var v := ToF64(d.value);
      if v >= F64_LIMIT as real || (neg && v > 0.0) then None else Some(v)
  }

  // ---------------------------------------------------------------------
  // Quantities
  // ---------------------------------------------------------------------

  function SaturatingAdd(a: U64, b: U64): U64
  {
    if a + b <= U64_MAX then a + b else U64_MAX
  }

  /** `x as u64` for a non-negative float. */
  function CastU64(x: int): U64
    requires 0 <= x
  {
    if x <= U64_MAX then x else U64_MAX
  }

  /** `(cores * 1000.0).round() as u64`. */
  function MillisOfCores(cores: real): U64
    requires 0.0 <= cores
  {
    CastU64(RoundHalfAway(ToF64(cores * 1000.0)))
  }

  /** Parse a CPU quantity into millicores. */
  function ParseCpuMillicores(s: string): Option<U64>
  {
    var t := Trim(s);
    if t != [] && t[|t| - 1] == 'm' then ParseU64(Trim(t[..|t| - 1]))
    else
      match ParseF64(t)
      case None => None
      case Some(cores) => Some(MillisOfCores(cores))
  }

  function StripSuffix(s: string, suffix: string): Option<string> {
    if |suffix| <= |s| && s[|s| - |suffix|..] == suffix then Some(s[..|s| - |suffix|]) else None
  }

  /** A suffix and the multiplier it stands for: a power of 1024 or of 1000. */
  datatype Unit = Unit(suffix: string, binary: bool, power: nat)

  /** The suffixes the parser knows, in the order they are tried. */
  const UNITS: seq<Unit> := [
    Unit("Ki", true, 1), Unit("Mi", true, 2), Unit("Gi", true, 3), Unit("Ti", true, 4), Unit("Pi", true, 5),
    Unit("Ei", true, 6), Unit("k", false, 1), Unit("M", false, 2), Unit("G", false, 3), Unit("T", false, 4),
    Unit("P", false, 5), Unit("E", false, 6)]

  /** The first unit from the `i`-th on whose suffix the text ends in. */
  function UnitFrom(s: string, i: nat): Unit
    requires i <= |UNITS|
    decreases |UNITS| - i
  {
    if i == |UNITS| then Unit("", true, 0)
    else if StripSuffix(s, UNITS[i].suffix).Some? then UNITS[i]
    else UnitFrom(s, i + 1)
  }

  function UnitOf(s: string): Unit {
    UnitFrom(s, 0)
  }

  /** `(num * mult as f64).round()` with its range check and cast. */
  function ToBytes(product: real): Option<U64>
    requires 0.0 <= product
  {
    var bytes := RoundHalfAway(ToF64(product));
    if bytes > TWO_64 then None else Some(CastU64(bytes))
  }

  /** Parse a memory quantity into bytes. */
  function ParseMemoryBytes(s: string): Option<U64>
  {
    var s := Trim(s);
    var unit := UnitOf(s);
    match ParseF64(Trim(StripSuffix(s, unit.suffix).GetOr(s)))
    case None => None
    case Some(v) => ToBytes(Scale(v, unit.binary, unit.power))
  }

  /** The largest binary unit that divides `bytes`, and its size. */
  function FormatUnit(bytes: nat): (Unit, nat) {
    if bytes % 0x100_0000_0000 == 0 then (Unit("Ti", true, 4), 0x100_0000_0000)
    else if bytes % 0x4000_0000 == 0 then (Unit("Gi", true, 3), 0x4000_0000)
    else if bytes % 0x10_0000 == 0 then (Unit("Mi", true, 2), 0x10_0000)
    else if bytes % 0x400 == 0 then (Unit("Ki", true, 1), 0x400)
    else (Unit("", true, 0), 1)
  }

  /** `q` followed by a unit suffix. */
  function Render(q: nat, unit: Unit): string {
    ShowNat(q) + unit.suffix
  }

  /** Render a byte count in the largest unit that divides it. */
  function FormatQuantity(bytes: nat): string {
    Render(bytes / FormatUnit(bytes).1, FormatUnit(bytes).0)
  }

  // ---------------------------------------------------------------------
  // Which integers binary64 holds exactly
  // ---------------------------------------------------------------------

  /** At most 53 significant bits. */
  predicate Representable(n: nat) {
    n < TWO_53 || (n % 2 == 0 && Representable(n / 2))
  }

  function Pow2(k: nat): (p: nat)
    ensures p >= 1
  {
    if k == 0 then 1 else 2 * Pow2(k - 1)
  }

  lemma {:induction false} IntegersStayAtUnit(n: nat, depth: nat)
    ensures RoundAtUnit(n as real, depth) == n as real
    decreases depth
  {
    if n < TWO_52 && depth > 0 {
      assert 2.0 * n as real == (2 * n) as real;
      IntegersStayAtUnit(2 * n, depth - 1);
    }
  }

  /** From 2^52 on, rounding yields an integer of at most 53 significant bits
      that is within a factor of two of its argument. */
  lemma {:induction false} LargeRoundsToRepresentable(x: real) returns (m: nat)
    requires TWO_52 as real <= x
    ensures ToF64(x) == m as real && Representable(m) && m as real <= 2.0 * x
    decreases x.Floor
  {
    if x >= TWO_53 as real {
      var h := LargeRoundsToRepresentable(x / 2.0);
      m := 2 * h;
    } else {
      m := RoundHalfEven(x);
      assert m == TWO_53 ==> m / 2 == TWO_52;
    }
  }

  lemma {:induction false} IntegerRoundsToRepresentable(n: nat) returns (m: nat)
    ensures ToF64(n as real) == m as real && Representable(m) && m <= 2 * n
  {
    if n < TWO_53 {
      IntegersStayAtUnit(n, 1074);
      m := n;
    } else {
      m := LargeRoundsToRepresentable(n as real);
    }
  }

  /** From 2^53 on an even number is fixed if its half is. */
  lemma EvenFixes(n: nat)
    requires n >= TWO_53 && n % 2 == 0
    ensures ToF64(n as real) == n as real <==> ToF64((n / 2) as real) == (n / 2) as real
  {
    assert n as real / 2.0 == (n / 2) as real;
    assert ToF64(n as real) == 2.0 * ToF64((n / 2) as real);
  }

  /** And an odd one moves to an even one. */
  lemma OddMoves(n: nat)
    requires n >= TWO_53 && n % 2 == 1
    ensures ToF64(n as real) != n as real
  {
    var h := LargeRoundsToRepresentable(n as real / 2.0);
    assert ToF64(n as real) == 2.0 * h as real;
    assert 2.0 * h as real == (2 * h) as real;
  }

  /** Rounding fixes exactly the representable integers. */
  lemma {:induction false} RoundingFixes(n: nat)
    ensures ToF64(n as real) == n as real <==> Representable(n)
  {
    if n < TWO_53 {
      IntegersStayAtUnit(n, 1074);
    } else if n % 2 == 0 {
      EvenFixes(n);
      RoundingFixes(n / 2);
    } else {
      OddMoves(n);
    }
  }

  function Distance(x: real, y: real): real {
    if x < y then y - x else x - y
  }

  /** No binary64 integer is nearer to a number from 2^52 on than what it rounds to. */
  lemma {:induction false} RoundsToNearest(x: real, m: nat)
    requires TWO_52 as real <= x && Representable(m)
    ensures Distance(ToF64(x), x) <= Distance(m as real, x)
    decreases x.Floor
  {
    if x < TWO_53 as real {
      NearestInteger(x, m);
    } else if m % 2 == 0 {
      RoundsToNearest(x / 2.0, m / 2);
      assert m as real == 2.0 * (m / 2) as real;
    } else {
      assert TWO_52 < TWO_53;
      RoundsToNearest(x / 2.0, TWO_52);
    }
  }

  lemma NearestInteger(x: real, m: int)
    ensures Distance(RoundHalfEven(x) as real, x) <= Distance(m as real, x)
  {
    var f := x.Floor;
    assert m <= f || m >= f + 1;
  }

  lemma RoundsHalf(k: nat)
    ensures RoundHalfEven(k as real + 0.5) == if k % 2 == 0 then k else k + 1
  {
    assert (k as real + 0.5).Floor == k;
  }

  lemma HalvesOdd(k: nat)
    ensures (2 * k + 1) as real / 2.0 == k as real + 0.5
  {
  }

  /** Half-way between two neighbours it rounds to the one divisible by four. */
  lemma TiesGoToEven(k: nat)
    requires TWO_53 <= 2 * k + 1 < 2 * TWO_53
    ensures ToF64((2 * k + 1) as real) == (if k % 2 == 0 then 2 * k else 2 * k + 2) as real
  {
    var x := (2 * k + 1) as real;
    HalvesOdd(k);
    RoundsHalf(k);
    assert ToF64(x) == 2.0 * ToF64(x / 2.0);
    assert ToF64(x / 2.0) == RoundHalfEven(x / 2.0) as real;
  }

  lemma RepresentableDoubles(m: nat)
    requires Representable(m)
    ensures Representable(2 * m)
  {
    assert 2 * m / 2 == m && 2 * m % 2 == 0;
  }

  lemma RepresentableKilo(m: nat)
    requires Representable(m)
    ensures Representable(1024 * m)
  {
    RepresentableDoubles(m);
    RepresentableDoubles(2 * m);
    RepresentableDoubles(4 * m);
    RepresentableDoubles(8 * m);
    RepresentableDoubles(16 * m);
    RepresentableDoubles(32 * m);
    RepresentableDoubles(64 * m);
    RepresentableDoubles(128 * m);
    RepresentableDoubles(256 * m);
    RepresentableDoubles(512 * m);
  }

  /** Just below 2^(53+k), rounding reaches the power of two. */
  lemma {:induction false} TopRoundsUp(x: real, k: nat)
    requires TWO_53 as real * Pow2(k) as real - 0.5 * Pow2(k) as real < x < TWO_53 as real * Pow2(k) as real
    ensures ToF64(x) == TWO_53 as real * Pow2(k) as real
  {
    if k > 0 {
      assert Pow2(k) as real == 2.0 * Pow2(k - 1) as real;
      TopRoundsUp(x / 2.0, k - 1);
    } else {
      assert x.Floor == TWO_53 - 1;
      assert RoundHalfEven(x) == TWO_53;
    }
  }

  // ---------------------------------------------------------------------
  // Printing, then parsing
  // ---------------------------------------------------------------------

  lemma {:induction false} LeadingDigitsOfDigits(s: string)
    requires AllDigits(s)
    ensures LeadingDigits(s) == |s|
  {
    if s != [] {
      LeadingDigitsOfDigits(s[1..]);
    }
  }

  lemma PrintedNumberParses(n: nat)
    ensures ParseDecimal(ShowNat(n)) == Some(n as real)
  {
    var s := ShowNat(n);
    ShowNatParses(n);
    LeadingDigitsOfDigits(s);
    assert s[..|s|] == s && s[|s|..] == [];
    assert s[..|s|] + [] == s;
  }

  lemma TrimKeeps(s: string)
    requires s != [] && !IsWhitespace(s[0]) && !IsWhitespace(s[|s| - 1])
    ensures Trim(s) == s
  {
  }

  /** The units `FormatUnit` chooses from, with their sizes. */
  predicate IsPrinted(unit: Unit, size: nat) {
    (unit == Unit("", true, 0) && size == 1) || (unit == Unit("Ki", true, 1) && size == 0x400) ||
    (unit == Unit("Mi", true, 2) && size == 0x10_0000) || (unit == Unit("Gi", true, 3) && size == 0x4000_0000) ||
    (unit == Unit("Ti", true, 4) && size == 0x100_0000_0000)
  }

  /** The suffix a quantity is printed with is the one the parser strips. */
  lemma PrintedUnitSplits(q: nat, unit: Unit, size: nat)
    requires IsPrinted(unit, size)
    ensures
      var s := Render(q, unit);
      Trim(s) == s && UnitOf(s) == unit &&
      StripSuffix(s, unit.suffix) == Some(ShowNat(q)) && Trim(ShowNat(q)) == ShowNat(q)
  {
    var digits, suffix := ShowNat(q), unit.suffix;
    var s := digits + suffix;
    ShowNatParses(q);
    TrimKeeps(digits);
    assert suffix == "" || suffix[1] == 'i';
    TrimKeeps(s);
    assert s[|s| - |suffix|..] == suffix && s[..|s| - |suffix|] == digits;
    if suffix == "" {
      DigitEndStripsNothing(s, 0);
    } else {
      BinaryEndStripsItself(s, unit, size);
    }
  }

  /** The parser takes a unit if the text ends in its suffix and in none before. */
  lemma {:induction false} FirstUnit(s: string, i: nat, k: nat)
    requires i <= k < |UNITS| && StripSuffix(s, UNITS[k].suffix).Some?
    requires forall j | i <= j < k :: StripSuffix(s, UNITS[j].suffix).None?
    ensures UnitFrom(s, i) == UNITS[k]
    decreases k - i
  {
    if i < k {
      FirstUnit(s, i + 1, k);
    }
  }

  /** Two-character suffixes do not match in each other's place. */
  lemma BinaryEndStripsItself(s: string, unit: Unit, size: nat)
    requires IsPrinted(unit, size) && unit.suffix != "" && StripSuffix(s, unit.suffix).Some?
    ensures UnitOf(s) == unit
  {
    var k := unit.power - 1;
    forall j | 0 <= j < k
      ensures StripSuffix(s, UNITS[j].suffix).None?
    {
      OtherSuffix(s, UNITS[j].suffix, unit.suffix);
    }
    FirstUnit(s, 0, k);
  }

  lemma OtherSuffix(s: string, a: string, b: string)
    requires |a| == |b| && StripSuffix(s, b).Some?
    ensures StripSuffix(s, a).Some? <==> a == b
  {
  }

  /** A suffix that does not end in a digit does not match text that does. */
  lemma NotStripped(s: string, suffix: string)
    requires s != [] && IsDigit(s[|s| - 1])
    requires suffix != [] && !IsDigit(suffix[|suffix| - 1])
    ensures StripSuffix(s, suffix).None?
  {
    if |suffix| <= |s| {
      assert s[|s| - |suffix|..][|suffix| - 1] == s[|s| - 1];
    }
  }

  lemma UnitsEndInLetters(i: nat)
    requires i < |UNITS|
    ensures
      var suffix := UNITS[i].suffix;
      suffix != [] && !IsDigit(suffix[|suffix| - 1])
  {
  }

  /** No unit matches text that ends in a digit. */
  lemma {:induction false} DigitEndStripsNothing(s: string, i: nat)
    requires s != [] && IsDigit(s[|s| - 1]) && i <= |UNITS|
    ensures UnitFrom(s, i) == Unit("", true, 0)
    decreases |UNITS| - i
  {
    if i < |UNITS| {
      UnitsEndInLetters(i);
      NotStripped(s, UNITS[i].suffix);
      DigitEndStripsNothing(s, i + 1);
    }
  }

  /** `m` units, range-checked and cast. */
  function ReadBack(m: nat, size: nat): Option<nat> {
    if m * size > TWO_64 then None else Some(CastU64(m * size))
  }

  /** What the scheduler reads when the agent printed `q` units: the number,
      rounded to binary64, times the unit. */
  lemma RenderedQuantityParse(q: nat, unit: Unit, size: nat) returns (m: nat)
    requires q <= U64_MAX && IsPrinted(unit, size)
    ensures ToF64(q as real) == m as real && Representable(m)
    ensures ParseMemoryBytes(Render(q, unit)) == ReadBack(m, size)
  {
    PrintedUnitSplits(q, unit, size);
    m := PrintedNumberReads(q);
    ScaledUnit(unit, size, m);
    ParseSteps(Render(q, unit), unit, ShowNat(q), m as real, ReadBack(m, size));
  }

  lemma ParseSteps(s: string, unit: Unit, digits: string, v: real, r: Option<nat>)
    requires Trim(s) == s && UnitOf(s) == unit
    requires StripSuffix(s, unit.suffix) == Some(digits) && Trim(digits) == digits
    requires ParseF64(digits) == Some(v) && ToBytes(Scale(v, unit.binary, unit.power)) == r
    ensures ParseMemoryBytes(s) == r
  {
  }

  /** Printing a u64 and parsing it as a float yields its rounding. */
  lemma PrintedNumberReads(q: nat) returns (m: nat)
    requires q <= U64_MAX
    ensures ToF64(q as real) == m as real && Representable(m)
    ensures ParseF64(ShowNat(q)) == Some(m as real)
  {
    PrintedNumberParses(q);
    ShowNatParses(q);
    m := IntegerRoundsToRepresentable(q);
    assert (2 * U64_MAX) as real < F64_LIMIT as real;
  }

  /** Multiplying a representable number by a printed unit is exact. */
  lemma ScaledUnit(unit: Unit, size: nat, m: nat)
    requires IsPrinted(unit, size) && Representable(m)
    ensures ToBytes(Scale(m as real, unit.binary, unit.power)) == ReadBack(m, size)
  {
    ScaleIsExact(m, unit.power);
    ExactBytes(Kilo(m, unit.power));
    KiloIsProduct(unit, size, m);
  }

  /** `m` times 1024 to the power `k`. */
  function Kilo(m: nat, k: nat): nat
    decreases k
  {
    if k == 0 then m else Kilo(1024 * m, k - 1)
  }

  lemma KiloIsProduct(unit: Unit, size: nat, m: nat)
    requires IsPrinted(unit, size)
    ensures Kilo(m, unit.power) == m * size
  {
    assert Kilo(m, 1) == Kilo(1024 * m, 0);
    assert Kilo(m, 2) == Kilo(1024 * m, 1) == Kilo(1024 * (1024 * m), 0);
    assert Kilo(m, 3) == Kilo(1024 * m, 2) == Kilo(1024 * (1024 * m), 1) == Kilo(1024 * (1024 * (1024 * m)), 0);
    assert Kilo(m, 4) == Kilo(1024 * m, 3) == Kilo(1024 * (1024 * m), 2) == Kilo(1024 * (1024 * (1024 * m)), 1);
  }

  lemma {:induction false} ScaleIsExact(m: nat, k: nat)
    requires Representable(m)
    ensures Scale(m as real, true, k) == Kilo(m, k) as real
    ensures Representable(Kilo(m, k))
    decreases k
  {
    if k > 0 {
      assert 1024.0 * m as real == (1024 * m) as real;
      RepresentableKilo(m);
      ScaleIsExact(1024 * m, k - 1);
    }
  }

  lemma ExactBytes(p: nat)
    requires Representable(p)
    ensures ToBytes(p as real) == if p > TWO_64 then None else Some(CastU64(p))
  {
    RoundingFixes(p);
    assert RoundHalfAway(p as real) == p;
  }

  /** The scheduler reads the count the agent printed. */
  predicate RoundTrips(bytes: nat) {
    ParseMemoryBytes(FormatQuantity(bytes)) == Some(bytes)
  }

  /** The agent-to-scheduler memory path is lossless exactly when the printed
      number has at most 53 significant bits, or when the count is u64::MAX
      itself (which rounds up to 2^64 and is cut back by the cast). */
  lemma MemoryRoundTrip(bytes: nat)
    requires bytes <= U64_MAX
    ensures RoundTrips(bytes) <==> Representable(bytes / FormatUnit(bytes).1) || bytes == U64_MAX
  {
    ExactQuotient(bytes);
    RenderedRoundTrip(bytes / FormatUnit(bytes).1, FormatUnit(bytes).0, FormatUnit(bytes).1);
  }

  lemma RenderedRoundTrip(q: nat, unit: Unit, size: nat)
    requires IsPrinted(unit, size) && q * size <= U64_MAX && q <= U64_MAX
    requires q * size == U64_MAX ==> size == 1
    ensures ParseMemoryBytes(Render(q, unit)) == Some(q * size) <==> Representable(q) || q * size == U64_MAX
  {
    var m := RenderedQuantityParse(q, unit, size);
    ReadBackDecides(m, q, size);
  }

  lemma ExactQuotient(bytes: nat)
    ensures IsPrinted(FormatUnit(bytes).0, FormatUnit(bytes).1)
    ensures (bytes / FormatUnit(bytes).1) * FormatUnit(bytes).1 == bytes
    ensures bytes / FormatUnit(bytes).1 <= bytes
    ensures bytes == U64_MAX ==> FormatUnit(bytes).1 == 1
  {
  }

  lemma ReadBackDecides(m: nat, q: nat, unit: nat)
    requires unit > 0 && q * unit <= U64_MAX && ToF64(q as real) == m as real
    requires q * unit == U64_MAX ==> unit == 1
    ensures ReadBack(m, unit) == Some(q * unit) <==> Representable(q) || q * unit == U64_MAX
  {
    RoundingFixes(q);
    ReadBackIsExact(m, q, unit);
    if q * unit == U64_MAX {
      MaxRoundsUp();
    }
  }

  lemma ReadBackIsExact(m: nat, q: nat, unit: nat)
    requires unit > 0 && q * unit <= U64_MAX
    ensures ReadBack(m, unit) == Some(q * unit) <==> m == q || (q * unit == U64_MAX && m * unit == TWO_64)
  {
    if m < q {
      assert (q - m) * unit > 0;
    } else if q < m {
      assert (m - q) * unit > 0;
    }
  }

  lemma MaxRoundsUp()
    ensures ToF64(U64_MAX as real) == TWO_64 as real
  {
    assert Pow2(11) == 2048;
    TopRoundsUp(U64_MAX as real, 11);
  }

  /** Every count whose quotient is at most 2^53 survives the path. */
  lemma SmallQuotientsRoundTrip(bytes: nat)
    requires bytes <= U64_MAX && bytes / FormatUnit(bytes).1 <= TWO_53
    ensures RoundTrips(bytes)
  {
    assert Representable(bytes / FormatUnit(bytes).1) by {
      UpToTwo53(bytes / FormatUnit(bytes).1);
    }
    MemoryRoundTrip(bytes);
  }

  lemma UpToTwo53(n: nat)
    requires n <= TWO_53
    ensures Representable(n)
  {
    if n == TWO_53 {
      assert n / 2 == TWO_52 && Representable(n / 2);
    }
  }

  lemma OddIsPrintedBare(bytes: nat)
    requires bytes % 2 == 1
    ensures bytes / FormatUnit(bytes).1 == bytes
  {
  }

  lemma OddNeedsEveryBit(n: nat)
    requires n % 2 == 1 && TWO_53 <= n
    ensures !Representable(n)
  {
  }

  /** The condition is not vacuous: every odd count above 2^53 short of the
      maximum fails it. */
  lemma OddCountsFail(bytes: nat)
    requires bytes % 2 == 1 && TWO_53 <= bytes < U64_MAX
    ensures !RoundTrips(bytes)
  {
    assert !Representable(bytes / FormatUnit(bytes).1) by {
      OddIsPrintedBare(bytes);
      OddNeedsEveryBit(bytes);
    }
    MemoryRoundTrip(bytes);
  }

  // ---------------------------------------------------------------------
  // CPU quantities
  // ---------------------------------------------------------------------

  lemma PrintedEnds(n: nat, suffix: string)
    requires suffix == "" || suffix == "m"
    ensures
      var s := ShowNat(n) + suffix;
      s != [] && IsDigit(s[0]) && Trim(s) == s && (suffix == "" ==> IsDigit(s[|s| - 1]))
  {
    ShowNatParses(n);
    TrimKeeps(ShowNat(n) + suffix);
  }

  /** A count of millicores survives printing with its suffix. */
  lemma MillicoresRoundTrip(n: nat)
    requires n <= U64_MAX
    ensures ParseCpuMillicores(ShowNat(n) + "m") == Some(n)
  {
    var digits := ShowNat(n);
    var s := digits + "m";
    PrintedEnds(n, "m");
    PrintedEnds(n, "");
    assert digits + "" == digits && s[..|s| - 1] == digits;
    ShowNatParses(n);
    LeadingDigitsOfDigits(digits);
    assert digits[..|digits|] == digits;
  }

  lemma ThousandTimes(n: nat)
    ensures n as real * 1000.0 == (1000 * n) as real
  {
  }

  lemma MillisAreExact(n: nat)
    requires 1000 * n <= TWO_53
    ensures MillisOfCores(n as real) == 1000 * n
  {
    ThousandTimes(n);
    assert ToF64((1000 * n) as real) == (1000 * n) as real by {
      UpToTwo53(1000 * n);
      RoundingFixes(1000 * n);
    }
  }

  lemma CoresRead(n: nat)
    requires n <= TWO_53
    ensures ParseF64(ShowNat(n)) == Some(n as real)
  {
    var m := PrintedNumberReads(n);
    UpToTwo53(n);
    RoundingFixes(n);
  }

  lemma CpuSteps(s: string, cores: real)
    requires Trim(s) == s && s != [] && s[|s| - 1] != 'm' && 0.0 <= cores && ParseF64(s) == Some(cores)
    ensures ParseCpuMillicores(s) == Some(MillisOfCores(cores))
  {
  }

  /** Whole cores read as a thousand millicores each, up to 2^53 of them. */
  lemma WholeCoresAreThousands(n: nat)
    requires 1000 * n <= TWO_53
    ensures ParseCpuMillicores(ShowNat(n)) == Some(1000 * n)
  {
    PrintedEnds(n, "");
    assert ShowNat(n) + "" == ShowNat(n);
    CoresRead(n);
    CpuSteps(ShowNat(n), n as real);
    MillisAreExact(n);
  }
}

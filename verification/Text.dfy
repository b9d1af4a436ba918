/** Decimal digits, fixed-width fields and byte-wise string order: the text
    layer under quantities, timestamps and generated pod names. */
module Text {

  predicate IsDigit(c: char) {
    '0' <= c <= '9'
  }

  predicate AllDigits(s: string) {
    forall i :: 0 <= i < |s| ==> IsDigit(s[i])
  }

  function Digit(d: nat): (c: char)
    requires d < 10
    ensures IsDigit(c) && DigitValue(c) == d
  {
    '0' + d as char
  }

  function DigitValue(c: char): (d: nat)
    requires IsDigit(c)
    ensures d < 10
  {
    c as int - '0' as int
  }

  /** Rust's `Display` for an unsigned integer. */
  function ShowNat(n: nat): string {
    if n < 10 then [Digit(n)] else ShowNat(n / 10) + [Digit(n % 10)]
  }

  /** Rust's `Display` for a signed integer. */
  function ShowInt(n: int): string {
    if n < 0 then "-" + ShowNat(-n) else ShowNat(n)
  }

  /** The number a run of digits denotes (zero for the empty run). */
  function DigitsValue(s: string): nat
    requires AllDigits(s)
  {
    if s == [] then 0 else 10 * DigitsValue(s[..|s| - 1]) + DigitValue(s[|s| - 1])
  }

  lemma {:induction false} ShowNatParses(n: nat)
    ensures AllDigits(ShowNat(n)) && ShowNat(n) != []
    ensures DigitsValue(ShowNat(n)) == n
  {
    if n < 10 {
      assert ShowNat(n)[..0] == [];
    } else {
      ShowNatParses(n / 10);
      var s := ShowNat(n);
      assert s[..|s| - 1] == ShowNat(n / 10);
    }
  }

  /** Two integers print alike only when they are equal. */
  lemma ShowIntInjective(m: int, n: int)
    ensures ShowInt(m) == ShowInt(n) <==> m == n
  {
    if ShowInt(m) == ShowInt(n) {
      ShowNatParses(if m < 0 then -m else m);
      ShowNatParses(if n < 0 then -n else n);
      assert m < 0 ==> ShowInt(m)[0] == '-' && ShowInt(m)[1..] == ShowNat(-m);
      assert n < 0 ==> ShowInt(n)[0] == '-' && ShowInt(n)[1..] == ShowNat(-n);
      assert m >= 0 ==> IsDigit(ShowInt(m)[0]);
      assert n >= 0 ==> IsDigit(ShowInt(n)[0]);
    }
  }

  function Pow10(e: nat): (p: nat)
    ensures p >= 1
  {
    if e == 0 then 1 else 10 * Pow10(e - 1)
  }

  /** `n` in exactly `w` decimal digits, leading zeros included. */
  function Pad(n: nat, w: nat): (s: string)
    ensures |s| == w && AllDigits(s)
  {
    if w == 0 then [] else Pad(n / 10, w - 1) + [Digit(n % 10)]
  }

  /** Byte-wise `<` on strings: the comparison SQL makes between two TEXT
      values under the C collation. */
  predicate TextLess(s: string, t: string) {
    if t == [] then false
    else if s == [] then true
    else s[0] < t[0] || (s[0] == t[0] && TextLess(s[1..], t[1..]))
  }

  lemma {:induction false} TextLessIrreflexive(s: string)
    ensures !TextLess(s, s)
  {
    if s != [] {
      TextLessIrreflexive(s[1..]);
    }
  }

  /** A common prefix does not affect the order. */
  lemma {:induction false} TextLessPrefix(p: string, s: string, t: string)
    ensures TextLess(p + s, p + t) <==> TextLess(s, t)
  {
    if p == [] {
      assert p + s == s && p + t == t;
    } else {
      assert (p + s)[1..] == p[1..] + s && (p + t)[1..] == p[1..] + t;
      TextLessPrefix(p[1..], s, t);
    }
  }

  /** Fixed-width fields that differ decide the order whatever follows them. */
  lemma {:induction false} PadOrders(m: nat, n: nat, w: nat, s: string, t: string)
    requires m < n < Pow10(w)
    ensures Pad(m, w) != Pad(n, w)
    ensures TextLess(Pad(m, w) + s, Pad(n, w) + t)
    ensures !TextLess(Pad(n, w) + t, Pad(m, w) + s)
    decreases w
  {
    var sm, sn := [Digit(m % 10)] + s, [Digit(n % 10)] + t;
    assert Pad(m, w) + s == Pad(m / 10, w - 1) + sm;
    assert Pad(n, w) + t == Pad(n / 10, w - 1) + sn;
    if m / 10 == n / 10 {
      TextLessPrefix(Pad(m / 10, w - 1), sm, sn);
      TextLessPrefix(Pad(m / 10, w - 1), sn, sm);
      assert Pad(m, w)[w - 1] == Digit(m % 10) && Pad(n, w)[w - 1] == Digit(n % 10);
    } else {
      PadOrders(m / 10, n / 10, w - 1, sm, sn);
      assert Pad(m, w)[..w - 1] == Pad(m / 10, w - 1) && Pad(n, w)[..w - 1] == Pad(n / 10, w - 1);
    }
  }
}

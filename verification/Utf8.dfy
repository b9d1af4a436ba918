/** The UTF-8 test of the log reader against the encoding itself, sections 3 and 4 of
    RFC 3629. */
module Utf8 {
  import opened LogText

  /** A code point that is no surrogate. */
  predicate IsScalar(u: nat) {
    u <= 0x10FFFF && !(0xD800 <= u <= 0xDFFF)
  }

  /** Six bits of a code point in a following byte. */
  function Following(bits: nat): char {
    (0x80 + bits % 64) as char
  }

  function Encode(u: nat): string
    requires IsScalar(u)
  {
    if u < 0x80 then [u as char]
    else if u < 0x800 then [(0xC0 + u / 64) as char, Following(u)]
    else if u < 0x1_0000 then [(0xE0 + u / 0x1000) as char, Following(u / 64), Following(u)]
    else [(0xF0 + u / 0x4_0000) as char, Following(u / 0x1000), Following(u / 64), Following(u)]
  }

  predicate AllScalar(us: seq<nat>) {
    forall i | 0 <= i < |us| :: IsScalar(us[i])
  }

  function EncodeAll(us: seq<nat>): string
    requires AllScalar(us)
  {
    if us == [] then "" else Encode(us[0]) + EncodeAll(us[1..])
  }

  lemma EncodedIsOne(u: nat, rest: string)
    requires IsScalar(u)
    ensures CharLength(Encode(u) + rest) == |Encode(u)|
  {
    var s := Encode(u) + rest;
    if u < 0x80 {
      assert s[0] == u as char;
    } else if u < 0x800 {
      assert s[0] == (0xC0 + u / 64) as char && s[1] == Following(u);
    } else if u < 0x1_0000 {
      assert s[0] == (0xE0 + u / 0x1000) as char && s[1] == Following(u / 64) && s[2] == Following(u);
    } else {
      assert s[0] == (0xF0 + u / 0x4_0000) as char && s[1] == Following(u / 0x1000);
      assert s[2] == Following(u / 64) && s[3] == Following(u);
    }
  }

  /** The bits a byte adds. */
  function Bits(c: char): int {
    c as int - 0x80
  }

  lemma Appended(a: nat, b: nat)
    requires b < 64
    ensures (a * 64 + b) / 64 == a && (a * 64 + b) % 64 == b
  {
  }

  lemma InSteps(u: nat)
    ensures u / 0x1000 == u / 64 / 64 && u / 0x4_0000 == u / 64 / 64 / 64
  {
  }

  lemma TwoAreEncoded(s: string) returns (u: nat)
    requires CharLength(s) == 2
    ensures 0x80 <= u < 0x800 && s[..2] == Encode(u)
  {
    var a, b := s[0] as int - 0xC0, Bits(s[1]);
    u := a * 64 + b;
    Appended(a, b);
    assert s[0] == (0xC0 + u / 64) as char && s[1] == Following(u);
  }

  lemma ThreeAreEncoded(s: string) returns (u: nat)
    requires CharLength(s) == 3
    ensures IsScalar(u) && 0x800 <= u < 0x1_0000 && s[..3] == Encode(u)
  {
    var a, b, c := s[0] as int - 0xE0, Bits(s[1]), Bits(s[2]);
    u := (a * 64 + b) * 64 + c;
    Appended(a, b);
    Appended(a * 64 + b, c);
    InSteps(u);
    assert s[0] == (0xE0 + u / 0x1000) as char && s[1] == Following(u / 64) && s[2] == Following(u);
  }

  lemma FourAreEncoded(s: string) returns (u: nat)
    requires CharLength(s) == 4
    ensures 0x1_0000 <= u <= 0x10FFFF && s[..4] == Encode(u)
  {
    var a, b, c, d := s[0] as int - 0xF0, Bits(s[1]), Bits(s[2]), Bits(s[3]);
    u := ((a * 64 + b) * 64 + c) * 64 + d;
    Appended(a, b);
    Appended(a * 64 + b, c);
    Appended((a * 64 + b) * 64 + c, d);
    InSteps(u);
    assert s[0] == (0xF0 + u / 0x4_0000) as char && s[1] == Following(u / 0x1000);
    assert s[2] == Following(u / 64) && s[3] == Following(u);
  }

  lemma OneIsEncoded(s: string) returns (u: nat)
    requires CharLength(s) > 0
    ensures IsScalar(u) && s[..CharLength(s)] == Encode(u)
  {
    match CharLength(s)
    case 2 => u := TwoAreEncoded(s);
    case 3 => u := ThreeAreEncoded(s);
    case 4 => u := FourAreEncoded(s);
    case _ => u := s[0] as int;
  }

  lemma {:induction false} EncodedIsValid(us: seq<nat>)
    requires AllScalar(us)
    ensures ValidUtf8(EncodeAll(us))
  {
    if us != [] {
      EncodedIsOne(us[0], EncodeAll(us[1..]));
      EncodedIsValid(us[1..]);
      assert EncodeAll(us)[|Encode(us[0])|..] == EncodeAll(us[1..]);
    }
  }

  ghost predicate IsEncoding(us: seq<nat>, s: string) {
    AllScalar(us) && EncodeAll(us) == s
  }

  lemma EncodingCons(s: string, n: nat, u: nat, rest: seq<nat>)
    requires n <= |s| && IsScalar(u) && s[..n] == Encode(u) && IsEncoding(rest, s[n..])
    ensures IsEncoding([u] + rest, s)
  {
    assert ([u] + rest)[1..] == rest;
    assert s[..n] + s[n..] == s;
  }

  lemma {:induction false} ValidIsEncoded(s: string) returns (us: seq<nat>)
    requires ValidUtf8(s)
    ensures IsEncoding(us, s)
  {
    if s == [] {
      return [];
    }
    var u := OneIsEncoded(s);
    var rest := ValidIsEncoded(s[CharLength(s)..]);
    us := [u] + rest;
    EncodingCons(s, CharLength(s), u, rest);
  }

  /** The test holds of the encoded texts, and of nothing else. */
  lemma ValidMeansEncoded(s: string)
    ensures ValidUtf8(s) <==> exists us :: IsEncoding(us, s)
  {
    if ValidUtf8(s) {
      var us := ValidIsEncoded(s);
    }
    if us :| IsEncoding(us, s) {
      EncodedIsValid(us);
    }
  }
}

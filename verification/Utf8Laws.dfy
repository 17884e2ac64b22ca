/** The redactor's test for UTF-8 accepts exactly the concatenations of encoded Unicode scalar values. */
module Utf8Laws {
  import opened Redact

  /** Every code point but the surrogates. */
  predicate Scalar(cp: int) {
    0 <= cp < 0xD800 || 0xE000 <= cp <= 0x10FFFF
  }

  function Byte(b: int): char
    requires 0 <= b < 256
  {
    b as char
  }

  /** The encoding of section 3 of RFC 3629. */
  function Encode(cp: int): (s: string)
    requires Scalar(cp)
    ensures s != ""
  {
    if cp < 0x80 then [Byte(cp)]
    else if cp < 0x800 then [Byte(0xC0 + cp / 64), Byte(0x80 + cp % 64)]
    else if cp < 0x1_0000 then [Byte(0xE0 + cp / 4096), Byte(0x80 + cp / 64 % 64), Byte(0x80 + cp % 64)]
    else [Byte(0xF0 + cp / 262144), Byte(0x80 + cp / 4096 % 64), Byte(0x80 + cp / 64 % 64), Byte(0x80 + cp % 64)]
  }

  lemma RunPush(s: string, c: char)
    ensures Utf8Run(s + [c]) == Utf8Step(Utf8Run(s), c as int)
  {
    assert (s + [c])[..|s|] == s;
  }

  lemma StepsOfTwo(cp: int)
    requires 0x80 <= cp < 0x800
    ensures var e := Encode(cp); |e| == 2 && Utf8Step(Utf8Step(Boundary, e[0] as int), e[1] as int) == Boundary
  {
  }

  lemma StepsOfThree(cp: int)
    requires 0x800 <= cp < 0x1_0000 && Scalar(cp)
    ensures var e := Encode(cp);
            && |e| == 3
            && Utf8Step(Utf8Step(Utf8Step(Boundary, e[0] as int), e[1] as int), e[2] as int) == Boundary
  {
    var a, b := cp / 4096, cp / 64 % 64;
    assert cp / 64 == 64 * a + b;
    assert a == 0 ==> b >= 0x20;
    assert a == 13 ==> b <= 0x1F;
  }

  lemma StepsOfFour(cp: int)
    requires 0x1_0000 <= cp && Scalar(cp)
    ensures var e := Encode(cp);
            && |e| == 4
            && Utf8Step(Utf8Step(Utf8Step(Utf8Step(Boundary, e[0] as int), e[1] as int), e[2] as int), e[3] as int)
               == Boundary
  {
    var a, b := cp / 262144, cp / 4096 % 64;
    assert cp / 4096 == 64 * a + b;
    assert 0 <= a <= 4;
    assert a == 0 ==> b >= 0x10;
    assert a == 4 ==> b <= 0x0F;
    FourSteps(0xF0 + a, 0x80 + b, 0x80 + cp / 64 % 64, 0x80 + cp % 64);
  }

  lemma FourSteps(a: int, b: int, c: int, d: int)
    requires LeadsFour(a, b) && 0x80 <= c <= 0xBF && 0x80 <= d <= 0xBF
    ensures Utf8Step(Utf8Step(Utf8Step(Utf8Step(Boundary, a), b), c), d) == Boundary
  {
    assert Utf8Step(Utf8Step(Boundary, a), b) == Need(2);
  }

  /** What the automaton does with one more encoded scalar. */
  lemma RunEncoded(s: string, cp: int)
    requires Scalar(cp) && ValidUtf8(s)
    ensures ValidUtf8(s + Encode(cp))
  {
    var e := Encode(cp);
    if cp < 0x80 {
      RunPush(s, e[0]);
    } else if cp < 0x800 {
      StepsOfTwo(cp);
      RunTwo(s, e[0], e[1]);
      assert e == [e[0], e[1]];
    } else if cp < 0x1_0000 {
      StepsOfThree(cp);
      RunThree(s, e[0], e[1], e[2]);
      assert e == [e[0], e[1], e[2]];
    } else {
      StepsOfFour(cp);
      RunFour(s, e[0], e[1], e[2], e[3]);
      assert e == [e[0], e[1], e[2], e[3]];
    }
  }

  lemma RunTwo(s: string, a: char, b: char)
    ensures Utf8Run(s + [a, b]) == Utf8Step(Utf8Step(Utf8Run(s), a as int), b as int)
  {
    RunPush(s, a);
    RunPush(s + [a], b);
    assert s + [a] + [b] == s + [a, b];
  }

  lemma RunThree(s: string, a: char, b: char, c: char)
    ensures Utf8Run(s + [a, b, c]) == Utf8Step(Utf8Step(Utf8Step(Utf8Run(s), a as int), b as int), c as int)
  {
    RunTwo(s, a, b);
    RunPush(s + [a, b], c);
    assert s + [a, b] + [c] == s + [a, b, c];
  }

  lemma RunFour(s: string, a: char, b: char, c: char, d: char)
    ensures Utf8Run(s + [a, b, c, d])
         == Utf8Step(Utf8Step(Utf8Step(Utf8Step(Utf8Run(s), a as int), b as int), c as int), d as int)
  {
    RunThree(s, a, b, c);
    RunPush(s + [a, b, c], d);
    assert s + [a, b, c] + [d] == s + [a, b, c, d];
  }

  predicate Continues(c: char) {
    0x80 <= c as int <= 0xBF
  }

  /** How the automaton got to a state inside a character: the bytes since the last boundary. */
  ghost predicate Inside(s: string, q: Utf8, t: string, part: string) {
    && s == t + part && ValidUtf8(t)
    && match q
       case Need(1) =>
         || (|part| == 1 && 0xC2 <= part[0] as int <= 0xDF)
         || (|part| == 2 && LeadsThree(part[0] as int, part[1] as int))
         || (|part| == 3 && LeadsFour(part[0] as int, part[1] as int) && Continues(part[2]))
       case Need(2) =>
         || (|part| == 1 && 0xE1 <= part[0] as int <= 0xEF && part[0] as int != 0xED)
         || (|part| == 2 && LeadsFour(part[0] as int, part[1] as int))
       case Need(n) => n == 3 && |part| == 1 && 0xF1 <= part[0] as int <= 0xF3
       case AfterE0 => |part| == 1 && part[0] as int == 0xE0
       case AfterED => |part| == 1 && part[0] as int == 0xED
       case AfterF0 => |part| == 1 && part[0] as int == 0xF0
       case AfterF4 => |part| == 1 && part[0] as int == 0xF4
       case _ => false
  }

  /** The first two bytes of a character of three bytes: neither overlong nor a surrogate. */
  predicate LeadsThree(a: int, b: int) {
    0xE0 <= a <= 0xEF && 0x80 <= b <= 0xBF && (a == 0xE0 ==> b >= 0xA0) && (a == 0xED ==> b <= 0x9F)
  }

  /** Of four bytes: neither overlong nor past the last code point. */
  predicate LeadsFour(a: int, b: int) {
    0xF0 <= a <= 0xF4 && 0x80 <= b <= 0xBF && (a == 0xF0 ==> b >= 0x90) && (a == 0xF4 ==> b <= 0x8F)
  }

  /** Every state but the two final ones is inside a character. */
  lemma {:induction false} InsideACharacter(s: string) returns (t: string, part: string)
    requires Utf8Run(s) != Boundary && Utf8Run(s) != Invalid
    ensures Inside(s, Utf8Run(s), t, part)
  {
    var n := |s| - 1;
    var init, c := s[..n], s[n];
    assert s == init + [c];
    if Utf8Run(init) == Boundary {
      t, part := init, [c];
    } else {
      t, part := InsideACharacter(init);
      part := part + [c];
      assert s == t + part;
    }
  }

  function CodePoint(part: string, c: char): int {
    var d := c as int - 0x80;
    if |part| == 1 then (part[0] as int - 0xC0) * 64 + d
    else if |part| == 2 then (part[0] as int - 0xE0) * 4096 + (part[1] as int - 0x80) * 64 + d
    else if |part| == 3 then
      (part[0] as int - 0xF0) * 262144 + (part[1] as int - 0x80) * 4096 + (part[2] as int - 0x80) * 64 + d
    else 0
  }

  lemma Decoded(s: string, t: string, part: string, c: char)
    requires Inside(s, Need(1), t, part) && Continues(c)
    ensures Scalar(CodePoint(part, c)) && part + [c] == Encode(CodePoint(part, c))
  {
    if |part| == 1 {
      DecodedTwo(part[0], c);
    } else if |part| == 2 {
      DecodedThree(part[0], part[1], c);
    } else {
      DecodedFour(part[0], part[1], part[2], c);
    }
  }

  lemma DecodedTwo(a: char, c: char)
    requires 0xC2 <= a as int <= 0xDF && Continues(c)
    ensures var cp := (a as int - 0xC0) * 64 + (c as int - 0x80); Scalar(cp) && [a, c] == Encode(cp)
  {
  }

  lemma DecodedThree(a: char, b: char, c: char)
    requires LeadsThree(a as int, b as int) && Continues(c)
    ensures var cp := (a as int - 0xE0) * 4096 + (b as int - 0x80) * 64 + (c as int - 0x80);
            Scalar(cp) && [a, b, c] == Encode(cp)
  {
  }

  /** Four digits to the base 64, taken apart again. */
  lemma FourDigits(x: int, y: int, z: int, w: int)
    requires 0 <= x && 0 <= y < 64 && 0 <= z < 64 && 0 <= w < 64
    ensures var cp := x * 262144 + y * 4096 + z * 64 + w;
            cp / 262144 == x && cp / 4096 % 64 == y && cp / 64 % 64 == z && cp % 64 == w
  {
    var cp := x * 262144 + y * 4096 + z * 64 + w;
    assert cp == 64 * (x * 4096 + y * 64 + z) + w;
    assert cp / 64 == x * 4096 + y * 64 + z == 64 * (x * 64 + y) + z;
    assert cp == 4096 * (x * 64 + y) + (z * 64 + w);
    assert cp / 4096 == x * 64 + y;
  }

  lemma DecodedFour(a: char, b: char, c: char, d: char)
    requires LeadsFour(a as int, b as int) && Continues(c) && Continues(d)
    ensures var cp := (a as int - 0xF0) * 262144 + (b as int - 0x80) * 4096 + (c as int - 0x80) * 64
                      + (d as int - 0x80);
            Scalar(cp) && [a, b, c, d] == Encode(cp)
  {
    var x, y, z, w := a as int - 0xF0, b as int - 0x80, c as int - 0x80, d as int - 0x80;
    var cp := x * 262144 + y * 4096 + z * 64 + w;
    FourDigits(x, y, z, w);
    assert 0x1_0000 <= cp <= 0x10FFFF;
  }

  /** A valid text that is not empty ends in an encoded scalar, after a valid text. */
  lemma LastScalar(s: string) returns (t: string, cp: int)
    requires ValidUtf8(s) && s != ""
    ensures Scalar(cp) && ValidUtf8(t) && s == t + Encode(cp)
  {
    var n := |s| - 1;
    var init, c := s[..n], s[n];
    assert s == init + [c];
    if Utf8Run(init) == Boundary {
      t, cp := init, c as int;
    } else {
      var part;
      t, part := InsideACharacter(init);
      Decoded(init, t, part, c);
      cp := CodePoint(part, c);
      assert t + part + [c] == t + (part + [c]);
    }
  }

  function EncodeAll(cps: seq<int>): string
    requires forall i :: 0 <= i < |cps| ==> Scalar(cps[i])
  {
    if cps == [] then "" else EncodeAll(cps[..|cps| - 1]) + Encode(cps[|cps| - 1])
  }

  lemma {:induction false} EncodedIsValid(cps: seq<int>)
    requires forall i :: 0 <= i < |cps| ==> Scalar(cps[i])
    ensures ValidUtf8(EncodeAll(cps))
  {
    if cps != [] {
      EncodedIsValid(cps[..|cps| - 1]);
      RunEncoded(EncodeAll(cps[..|cps| - 1]), cps[|cps| - 1]);
    }
  }

  lemma {:induction false} ValidIsEncoded(s: string) returns (cps: seq<int>)
    requires ValidUtf8(s)
    ensures (forall i :: 0 <= i < |cps| ==> Scalar(cps[i])) && s == EncodeAll(cps)
    decreases |s|
  {
    if s == "" {
      cps := [];
    } else {
      var t, cp := LastScalar(s);
      cps := ValidIsEncoded(t);
      assert (cps + [cp])[..|cps|] == cps;
      cps := cps + [cp];
    }
  }
}

/** UTF-8 as the spelling of Unicode scalar values, section 3 of RFC 3629. */
module ScalarText {
  import opened Octets

  type Scalar = n: int | 0 <= n <= 0x10FFFF && !(0xD800 <= n <= 0xDFFF)

  /** A scalar value in one to four octets. */
  function Spell(n: Scalar): (s: seq<Octet>)
    ensures 1 <= |s| <= 4
  {
    if n < 0x80 then [n]
    else if n < 0x800 then [0xC0 + n / 64, 0x80 + n % 64]
    else if n < 0x1_0000 then [0xE0 + n / 4096, 0x80 + n / 64 % 64, 0x80 + n % 64]
    else [0xF0 + n / 262144, 0x80 + n / 4096 % 64, 0x80 + n / 64 % 64, 0x80 + n % 64]
  }

  function SpellAll(text: seq<Scalar>): seq<Octet> {
    if text == [] then [] else Spell(text[0]) + SpellAll(text[1..])
  }

  /** What a scalar value is spelled as is one step, whatever follows. */
  lemma SpelledSteps(n: Scalar, rest: seq<Octet>)
    ensures Utf8Step(Spell(n) + rest) == |Spell(n)|
  {
    var s := Spell(n) + rest;
    assert s[..|Spell(n)|] == Spell(n);
    assert forall i | 0 <= i < |Spell(n)| :: s[i] == Spell(n)[i];
  }

  lemma Digits(a: int, b: int)
    requires 0 <= a && 0 <= b < 64
    ensures (64 * a + b) / 64 == a && (64 * a + b) % 64 == b
  {
  }

  lemma TwoOctets(a: int, b: int) returns (n: Scalar)
    requires 0xC2 <= a <= 0xDF && 0x80 <= b <= 0xBF
    ensures Spell(n) == [a, b]
  {
    Digits(a - 0xC0, b - 0x80);
    n := 64 * (a - 0xC0) + (b - 0x80);
  }

  lemma ThreeOctets(a: int, b: int, c: int) returns (n: Scalar)
    requires 0xE0 <= a <= 0xEF && 0x80 <= b <= 0xBF && 0x80 <= c <= 0xBF
    requires (a == 0xE0 ==> b >= 0xA0) && (a == 0xED ==> b < 0xA0)
    ensures Spell(n) == [a, b, c]
  {
    var high: int := 64 * (a - 0xE0) + (b - 0x80);
    Digits(a - 0xE0, b - 0x80);
    Digits(high, c - 0x80);
    n := 64 * high + (c - 0x80);
    assert n / 64 == high && high / 64 == a - 0xE0;
    Quarters(n);
  }

  lemma FourOctets(a: int, b: int, c: int, d: int) returns (n: Scalar)
    requires 0xF0 <= a <= 0xF4 && 0x80 <= b <= 0xBF && 0x80 <= c <= 0xBF && 0x80 <= d <= 0xBF
    requires (a == 0xF0 ==> b >= 0x90) && (a == 0xF4 ==> b < 0x90)
    ensures Spell(n) == [a, b, c, d]
  {
    var top: int := 64 * (a - 0xF0) + (b - 0x80);
    var high: int := 64 * top + (c - 0x80);
    Digits(a - 0xF0, b - 0x80);
    Digits(top, c - 0x80);
    Digits(high, d - 0x80);
    n := 64 * high + (d - 0x80);
    assert n / 64 == high && high / 64 == top && top / 64 == a - 0xF0;
    Quarters(n);
    Quarters(high);
  }

  /** Dividing by 64 twice is dividing by 4096. */
  lemma Quarters(n: int)
    requires 0 <= n
    ensures n / 4096 == n / 64 / 64 && n / 262144 == n / 4096 / 64
  {
  }

  /** Every step spells a scalar value. */
  lemma StepSpells(s: seq<Octet>) returns (n: Scalar)
    requires s != [] && Utf8Step(s) > 0
    ensures Spell(n) == s[..Utf8Step(s)]
  {
    var k := Utf8Step(s);
    if k == 1 {
      n := s[0];
      assert s[..1] == [s[0]];
    } else if k == 2 {
      n := TwoOctets(s[0], s[1]);
      assert s[..2] == [s[0], s[1]];
    } else if k == 3 {
      n := ThreeOctets(s[0], s[1], s[2]);
      assert s[..3] == [s[0], s[1], s[2]];
    } else {
      n := FourOctets(s[0], s[1], s[2], s[3]);
      assert s[..4] == [s[0], s[1], s[2], s[3]];
    }
    hide Spell;
  }

  lemma {:induction false} SpelledIsUtf8(text: seq<Scalar>)
    ensures Utf8(SpellAll(text))
  {
    if text != [] {
      SpelledIsUtf8(text[1..]);
      var first, rest := Spell(text[0]), SpellAll(text[1..]);
      SpelledSteps(text[0], rest);
      assert (first + rest)[|first|..] == rest;
    }
  }

  lemma {:induction false} Utf8IsSpelled(s: seq<Octet>) returns (text: seq<Scalar>)
    requires Utf8(s)
    ensures SpellAll(text) == s
    decreases |s|
  {
    if s == [] {
      text := [];
    } else {
      var n := StepSpells(s);
      var rest := Utf8IsSpelled(s[Utf8Step(s)..]);
      text := [n] + rest;
      assert text[1..] == rest;
      assert s == s[..Utf8Step(s)] + s[Utf8Step(s)..];
    }
  }

  /** Octets are well-formed text if and only if they spell a sequence of scalar values. */
  lemma Utf8Exactly(s: seq<Octet>)
    ensures Utf8(s) <==> exists text :: SpellAll(text) == s
  {
    if Utf8(s) {
      var text := Utf8IsSpelled(s);
      assert SpellAll(text) == s;
    }
    forall text | SpellAll(text) == s
      ensures Utf8(s)
    {
      SpelledIsUtf8(text);
    }
  }

  /** And no two sequences of scalar values are spelled alike. */
  lemma {:induction false} SpelledOnce(a: seq<Scalar>, b: seq<Scalar>)
    requires SpellAll(a) == SpellAll(b)
    ensures a == b
  {
    hide Spell;
    if a != [] && b != [] {
      var x, y := SpellAll(a[1..]), SpellAll(b[1..]);
      SpelledSteps(a[0], x);
      SpelledSteps(b[0], y);
      SplitAt(Spell(a[0]), x, Spell(b[0]), y);
      SpellInjective(a[0], b[0]);
      SpelledOnce(a[1..], b[1..]);
      assert a == [a[0]] + a[1..] && b == [b[0]] + b[1..];
    }
  }

  lemma SpellInjective(m: Scalar, n: Scalar)
    requires Spell(m) == Spell(n)
    ensures m == n
  {
    var s, t := Spell(m), Spell(n);
    assert forall i | 0 <= i < |s| :: s[i] == t[i];
    Whole(m);
    Whole(n);
    hide Spell;
    SpelledParts(m);
    SpelledParts(n);
  }

  lemma Whole(n: Scalar)
    ensures n == 64 * (n / 64) + n % 64
    ensures n / 64 == 64 * (n / 4096) + n / 64 % 64
    ensures n / 4096 == 64 * (n / 262144) + n / 4096 % 64
  {
    Quarters(n);
  }

  lemma SpelledParts(n: Scalar)
    ensures var s := Spell(n);
            && (|s| == 1 ==> s[0] == n) && (|s| == 2 ==> s[0] == 0xC0 + n / 64 && s[1] == 0x80 + n % 64)
            && (|s| == 3 ==> s[0] == 0xE0 + n / 4096 && s[1] == 0x80 + n / 64 % 64 && s[2] == 0x80 + n % 64)
            && (|s| == 4 ==> s[0] == 0xF0 + n / 262144 && s[1] == 0x80 + n / 4096 % 64 && s[2] == 0x80 + n / 64 % 64 && s[3] == 0x80 + n % 64)
  {
  }
}

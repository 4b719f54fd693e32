/** What the patterns of ids in payloads amount to: version 7 UUIDs, section 5.7 of RFC 9562, and the DIDs that sign. */
module PayloadTexts {
  import opened Octets
  import Cose
  import P = Payloads

  function HexDigit(n: nat): char
    requires n < 16
  {
    if n < 10 then '0' + n as char else 'a' + (n - 10) as char
  }

  function HexValue(c: char): (n: nat)
    requires P.Hex(c)
    ensures n < 16 && HexDigit(n) == c
  {
    if c <= '9' then c as int - '0' as int else c as int - 'a' as int + 10
  }

  /** The half octets of 16 octets, high ones first. */
  function Half(o: seq<Octet>, k: nat): (n: nat)
    requires |o| == 16 && k < 32
    ensures n < 16
  {
    if k % 2 == 0 then o[k / 2] / 16 else o[k / 2] % 16
  }

  predicate Hyphen(i: nat) { i == 8 || i == 13 || i == 18 || i == 23 }

  /** Which half octet stands at a place of the text, and where a half octet stands. */
  function HalfAt(i: nat): (k: nat)
    requires i < 36 && !Hyphen(i)
    ensures k < 32 && PlaceOf(k) == i
  {
    if i < 8 then i else if i < 13 then i - 1 else if i < 18 then i - 2 else if i < 23 then i - 3 else i - 4
  }

  function PlaceOf(k: nat): (i: nat)
    requires k < 32
    ensures i < 36 && !Hyphen(i)
  {
    if k < 8 then k else if k < 12 then k + 1 else if k < 16 then k + 2 else if k < 20 then k + 3 else k + 4
  }

  /** 16 octets in hexadecimal, in groups of four, two, two, two and six. */
  function SpelledUuid(o: seq<Octet>): (s: string)
    requires |o| == 16
    ensures |s| == 36
    ensures forall i | 0 <= i < 36 :: s[i] == if Hyphen(i) then '-' else HexDigit(Half(o, HalfAt(i)))
  {
    seq(36, i requires 0 <= i < 36 => if Hyphen(i) then '-' else HexDigit(Half(o, HalfAt(i))))
  }

  /** 16 octets of version 7 and of the variant that RFC 9562 describes. */
  ghost predicate VersionSeven(o: seq<Octet>) { |o| == 16 && o[6] / 16 == 7 && o[8] / 64 == 2 }

  lemma HexDigitsAre(n: nat)
    requires n < 16
    ensures P.Hex(HexDigit(n)) && HexValue(HexDigit(n)) == n
  {
  }

  /** The octets a text spells, if it spells any. */
  function Octets16(s: string): (o: seq<Octet>)
    requires |s| == 36 && forall i | 0 <= i < 36 && !Hyphen(i) :: P.Hex(s[i])
    ensures |o| == 16
    ensures forall k | 0 <= k < 32 :: Half(o, k) == HexValue(s[PlaceOf(k)])
  {
    var o := seq(16, j requires 0 <= j < 16 => 16 * HexValue(s[PlaceOf(2 * j)]) + HexValue(s[PlaceOf(2 * j + 1)]));
    assert forall k | 0 <= k < 32 :: Half(o, k) == HexValue(s[PlaceOf(k)]) by {
      hide HexValue, PlaceOf;
      forall k | 0 <= k < 32
        ensures Half(o, k) == HexValue(s[PlaceOf(k)])
      {
        var j := k / 2;
        assert k == 2 * j || k == 2 * j + 1;
        assert o[j] == 16 * HexValue(s[PlaceOf(2 * j)]) + HexValue(s[PlaceOf(2 * j + 1)]);
      }
    }
    o
  }

  /** The UUID pattern matches exactly the texts of version 7 UUIDs. */
  lemma UuidExactly(s: string)
    ensures P.Uuid(s) <==> exists o :: VersionSeven(o) && s == SpelledUuid(o)
  {
    if P.Uuid(s) {
      assert forall i | 0 <= i < 36 && !Hyphen(i) :: P.Hex(s[i]);
      var o := Octets16(s);
      assert PlaceOf(12) == 14 && PlaceOf(16) == 19;
      assert Half(o, 12) == 7 && 8 <= Half(o, 16) < 12;
      Eighths(o[8]);
      assert VersionSeven(o);
      SpelledBack(s, o);
    }
    forall o | VersionSeven(o) && s == SpelledUuid(o)
      ensures P.Uuid(s)
    {
      SpelledIsUuid(o);
    }
  }

  lemma Eighths(n: Octet)
    ensures 8 <= n / 16 < 12 <==> n / 64 == 2
  {
  }

  lemma SpelledBack(s: string, o: seq<Octet>)
    requires P.Uuid(s) && |o| == 16
    requires forall k | 0 <= k < 32 :: P.Hex(s[PlaceOf(k)]) && Half(o, k) == HexValue(s[PlaceOf(k)])
    ensures s == SpelledUuid(o)
  {
    var t := SpelledUuid(o);
    hide Half, HexDigit, HexValue, P.Hex;
    forall i | 0 <= i < 36
      ensures s[i] == t[i]
    {
      if !Hyphen(i) {
        assert PlaceOf(HalfAt(i)) == i;
      }
    }
  }

  lemma SpelledIsUuid(o: seq<Octet>)
    requires VersionSeven(o)
    ensures P.Uuid(SpelledUuid(o))
  {
    var s := SpelledUuid(o);
    Eighths(o[8]);
    assert HalfAt(14) == 12 && HalfAt(19) == 16;
    assert Half(o, 12) == 7 && 8 <= Half(o, 16) < 12;
    assert s[14] == '7' && (s[19] == '8' || s[19] == '9' || s[19] == 'a' || s[19] == 'b');
    forall i | 0 <= i < 36 && !Hyphen(i)
      ensures P.Hex(s[i])
    {
      HexDigitsAre(Half(o, HalfAt(i)));
    }
    hide Half, HexDigit, HalfAt;
  }

  /** Signed objects and payloads agree on what a DID is. */
  lemma DidsAgree(t: string)
    ensures Cose.IsDid(Cose.Ascii(t)) <==> P.Did(t)
  {
    var s := Cose.Ascii(t);
    if |t| == 32 {
      forall i | 0 <= i < 32
        ensures 97 <= s[i] <= 122 || 50 <= s[i] <= 55 <==> P.Lower(t[i]) || '2' <= t[i] <= '7'
      {
        assert s[i] == if t[i] as int < 128 then t[i] as int else 63;
      }
      assert |s[..8]| == 8 && |t[..8]| == 8;
      PrefixesAgree(t[..8], "did:plc:");
      assert s[..8] == Cose.Ascii(t[..8]);
    }
  }

  lemma PrefixesAgree(a: string, b: string)
    requires |a| == |b| && forall i | 0 <= i < |b| :: (b[i] as int) < 128 && b[i] != '?'
    ensures Cose.Ascii(a) == Cose.Ascii(b) <==> a == b
  {
    if Cose.Ascii(a) == Cose.Ascii(b) {
      forall i | 0 <= i < |a|
        ensures a[i] == b[i]
      {
        assert Cose.Ascii(a)[i] == Cose.Ascii(b)[i];
      }
    }
  }
}

/**
 * Canonical unpadded base64url (section 5 of RFC 4648), the decoder that insists on it, and the
 * attachment metadata whose digests are recognised by a character pattern alone.
 */
module Base64url {
  import opened Octets
  import opened Options

  type Bytes = seq<Octet>

  function Letter(n: nat): char
    requires n < 64
  {
    if n < 26 then 'A' + n as char
    else if n < 52 then 'a' + (n - 26) as char
    else if n < 62 then '0' + (n - 52) as char
    else if n == 62 then '-' else '_'
  }

  predicate InAlphabet(c: char) { 'A' <= c <= 'Z' || 'a' <= c <= 'z' || '0' <= c <= '9' || c == '-' || c == '_' }

  function Sextet(c: char): (n: nat)
    requires InAlphabet(c)
    ensures n < 64 && Letter(n) == c
  {
    if 'A' <= c <= 'Z' then (c - 'A') as nat
    else if 'a' <= c <= 'z' then (c - 'a') as nat + 26
    else if '0' <= c <= '9' then (c - '0') as nat + 52
    else if c == '-' then 62 else 63
  }

  lemma SextetOfLetter(n: nat)
    requires n < 64
    ensures InAlphabet(Letter(n)) && Sextet(Letter(n)) == n
  {
  }

  // The four sextets of three octets, and the three octets of four sextets.

  function First(a: Octet): (n: nat) ensures n < 64 { a / 4 }

  function Second(a: Octet, b: Octet): (n: nat) ensures n < 64 { a % 4 * 16 + b / 16 }

  function Third(b: Octet, c: Octet): (n: nat) ensures n < 64 { b % 16 * 4 + c / 64 }

  function Fourth(c: Octet): (n: nat) ensures n < 64 { c % 64 }

  function High(x: nat, y: nat): Octet requires x < 64 && y < 64 { x * 4 + y / 16 }

  function Middle(y: nat, z: nat): Octet requires y < 64 && z < 64 { y % 16 * 16 + z / 4 }

  function Low(z: nat, w: nat): Octet requires z < 64 && w < 64 { z % 4 * 64 + w }

  lemma Repacked(a: Octet, b: Octet, c: Octet)
    ensures High(First(a), Second(a, b)) == a && Middle(Second(a, b), Third(b, c)) == b && Low(Third(b, c), Fourth(c)) == c
    ensures Second(a, 0) % 16 == 0 && Third(b, 0) % 4 == 0
  {
  }

  lemma Unpacked(x: nat, y: nat, z: nat, w: nat)
    requires x < 64 && y < 64 && z < 64 && w < 64
    ensures First(High(x, y)) == x && Second(High(x, y), Middle(y, z)) == y
    ensures Third(Middle(y, z), Low(z, w)) == z && Fourth(Low(z, w)) == w
    ensures y % 16 == 0 ==> Second(High(x, y), 0) == y
    ensures z % 4 == 0 ==> Third(Middle(y, z), 0) == z
  {
  }

  /** Three octets are four letters; one or two octets at the end are two or three, with zero pad bits. */
  function EncodeBase64URL(b: Bytes): string {
    if b == [] then ""
    else if |b| == 1 then [Letter(First(b[0])), Letter(Second(b[0], 0))]
    else if |b| == 2 then [Letter(First(b[0])), Letter(Second(b[0], b[1])), Letter(Third(b[1], 0))]
    else
      [Letter(First(b[0])), Letter(Second(b[0], b[1])), Letter(Third(b[1], b[2])), Letter(Fourth(b[2]))] + EncodeBase64URL(b[3..])
  }

  /** The library's decoder skips line breaks. */
  function WithoutBreaks(s: string): string {
    if s == [] then "" else (if s[0] == '\r' || s[0] == '\n' then "" else [s[0]]) + WithoutBreaks(s[1..])
  }

  /** In strict mode it refuses pad bits that are not zero, and it knows no pad characters. */
  function StrictDecode(s: string): Option<Bytes> {
    if s == [] then Some([])
    else if |s| == 1 || !InAlphabet(s[0]) || !InAlphabet(s[1]) then None
    else
      var x, y := Sextet(s[0]), Sextet(s[1]);
      if |s| == 2 then (if y % 16 != 0 then None else Some([High(x, y)]))
      else if !InAlphabet(s[2]) then None
      else
        var z := Sextet(s[2]);
        if |s| == 3 then (if z % 4 != 0 then None else Some([High(x, y), Middle(y, z)]))
        else if !InAlphabet(s[3]) then None
        else
          match StrictDecode(s[4..])
          case None => None
          case Some(rest) => Some([High(x, y), Middle(y, z), Low(z, Sextet(s[3]))] + rest)
  }

  /** Only text that encodes back to itself is taken; a negative length means any. */
  function DecodeBase64URL(value: string, expectedLength: int): Option<Bytes> {
    match StrictDecode(WithoutBreaks(value))
    case None => None
    case Some(b) =>
      if EncodeBase64URL(b) != value then None
      else if expectedLength >= 0 && |b| != expectedLength then None
      else Some(b)
  }

  // ---------------------------------------------------------------- both directions

  lemma {:induction false} StrictDecodesEncoded(b: Bytes)
    ensures StrictDecode(EncodeBase64URL(b)) == Some(b)
    ensures forall i | 0 <= i < |EncodeBase64URL(b)| :: InAlphabet(EncodeBase64URL(b)[i])
    decreases |b|
  {
    hide Letter, Sextet, InAlphabet, First, Second, Third, Fourth, High, Middle, Low;
    if b != [] {
      var y, z := if |b| > 1 then b[1] else 0, if |b| > 2 then b[2] else 0;
      Repacked(b[0], y, z);
      SextetOfLetter(First(b[0]));
      SextetOfLetter(Second(b[0], y));
      SextetOfLetter(Third(y, z));
      SextetOfLetter(Fourth(z));
      if |b| >= 3 {
        StrictDecodesEncoded(b[3..]);
        FourLettersFirst(b[0], b[1], b[2], EncodeBase64URL(b[3..]), b[3..]);
        assert b == [b[0], b[1], b[2]] + b[3..];
      } else {
        assert b == if |b| == 1 then [b[0]] else [b[0], b[1]];
      }
    }
  }

  /** Four letters in front of a text that decodes add their three octets. */
  lemma FourLettersFirst(x: Octet, y: Octet, z: Octet, text: string, rest: Bytes)
    requires StrictDecode(text) == Some(rest)
    ensures StrictDecode([Letter(First(x)), Letter(Second(x, y)), Letter(Third(y, z)), Letter(Fourth(z))] + text) == Some([x, y, z] + rest)
  {
    hide Letter, Sextet, InAlphabet, First, Second, Third, Fourth, High, Middle, Low;
    Repacked(x, y, z);
    SextetOfLetter(First(x));
    SextetOfLetter(Second(x, y));
    SextetOfLetter(Third(y, z));
    SextetOfLetter(Fourth(z));
    var s := [Letter(First(x)), Letter(Second(x, y)), Letter(Third(y, z)), Letter(Fourth(z))] + text;
    assert s[4..] == text;
  }

  lemma {:induction false} EncodesDecoded(s: string)
    requires StrictDecode(s).Some?
    ensures EncodeBase64URL(StrictDecode(s).value) == s
    decreases |s|
  {
    hide Letter, InAlphabet, First, Second, Third, Fourth, High, Middle, Low;
    if s != [] {
      var x, y := Sextet(s[0]), Sextet(s[1]);
      var z, w := if |s| > 2 then Sextet(s[2]) else 0, if |s| > 3 then Sextet(s[3]) else 0;
      Unpacked(x, y, z, w);
      if |s| >= 4 {
        EncodesDecoded(s[4..]);
        assert StrictDecode(s).value[3..] == StrictDecode(s[4..]).value;
        assert s == [s[0], s[1], s[2], s[3]] + s[4..];
      }
    }
  }

  lemma {:induction false} NoBreaks(s: string)
    requires forall i | 0 <= i < |s| :: InAlphabet(s[i])
    ensures WithoutBreaks(s) == s
    decreases |s|
  {
    if s != [] {
      assert s == [s[0]] + s[1..];
      NoBreaks(s[1..]);
    }
  }

  /** The decoder is the exact inverse of the encoder: one text for each octet string, and no other is taken. */
  lemma DecodesExactly(value: string, expectedLength: int, b: Bytes)
    ensures DecodeBase64URL(value, expectedLength) == Some(b) <==>
              value == EncodeBase64URL(b) && (expectedLength < 0 || |b| == expectedLength)
  {
    StrictDecodesEncoded(b);
    NoBreaks(EncodeBase64URL(b));
  }

  // ---------------------------------------------------------------- the digest pattern

  /** The pattern for a 32-byte digest: 42 letters, and one more whose pad bits are zero. */
  predicate DigestPattern(s: string) {
    && |s| == 43
    && (forall i | 0 <= i < 42 :: InAlphabet(s[i]))
    && s[42] in "AEIMQUYcgkosw048"
  }

  ghost predicate CanonicalDigest(s: string) { exists b :: |b| == 32 && EncodeBase64URL(b) == s }

  lemma PadLetters(c: char)
    ensures c in "AEIMQUYcgkosw048" <==> InAlphabet(c) && Sextet(c) % 4 == 0
  {
    if InAlphabet(c) && Sextet(c) % 4 == 0 {
      var k := Sextet(c) / 4;
      assert c == Letter(4 * k) && k < 16;
      FourthLetter(k);
    }
  }

  lemma FourthLetter(k: nat)
    requires k < 16
    ensures "AEIMQUYcgkosw048"[k] == Letter(4 * k)
  {
  }

  /** The strict decoder fails on no text of letters with two octets at its end and zero pad bits. */
  lemma {:induction false} DecodesLetters(s: string)
    requires |s| % 4 == 3 && (forall i | 0 <= i < |s| :: InAlphabet(s[i])) && Sextet(s[|s| - 1]) % 4 == 0
    ensures StrictDecode(s).Some? && |StrictDecode(s).value| == |s| / 4 * 3 + 2
    decreases |s|
  {
    hide InAlphabet;
    if |s| > 3 {
      DecodesLetters(s[4..]);
    }
  }

  lemma {:induction false} EncodedLength(b: Bytes)
    requires |b| % 3 == 2
    ensures var s := EncodeBase64URL(b);
            |s| == |b| / 3 * 4 + 3 && InAlphabet(s[|s| - 1]) && Sextet(s[|s| - 1]) % 4 == 0
    decreases |b|
  {
    hide Letter, InAlphabet;
    if |b| == 2 {
      SextetOfLetter(Third(b[1], 0));
      Repacked(b[0], b[1], 0);
    } else {
      EncodedLength(b[3..]);
    }
  }

  /** The pattern recognises exactly the canonical texts of 32-octet strings. */
  lemma DigestPatternIsExact(s: string)
    ensures DigestPattern(s) <==> CanonicalDigest(s)
    ensures DigestPattern(s) <==> DecodeBase64URL(s, 32).Some?
  {
    if DigestPattern(s) {
      PadLetters(s[42]);
      DecodesLetters(s);
      EncodesDecoded(s);
      DecodesExactly(s, 32, StrictDecode(s).value);
    }
    if CanonicalDigest(s) {
      var b :| |b| == 32 && EncodeBase64URL(b) == s;
      EncodedLength(b);
      StrictDecodesEncoded(b);
      PadLetters(s[42]);
    }
    if DecodeBase64URL(s, 32).Some? {
      DecodesExactly(s, 32, DecodeBase64URL(s, 32).value);
    }
  }

  // ---------------------------------------------------------------- attachment metadata

  /** An entry whose members have the right types; the rules for names rest on the text libraries. */
  datatype Entry = Entry(filename: string, mediaType: string, size: int, algorithm: string, digest: string)

  datatype NameRules = NameRules(valid: string -> bool, media: string -> string)

  predicate ValidEntry(r: NameRules, e: Entry) {
    && r.valid(e.filename) && e.mediaType == r.media(e.filename)
    && 1 <= e.size <= 9007199254740991
    && e.algorithm == "sha-256" && DigestPattern(e.digest)
  }

  function TotalSize(entries: seq<Entry>): int {
    if entries == [] then 0 else TotalSize(entries[..|entries| - 1]) + entries[|entries| - 1].size
  }

  /** Accepted are at most 20 valid entries of at most 25 MiB together, each with a canonical 32-octet digest. */
  method ParseAttachments(r: NameRules, entries: seq<Entry>) returns (ok: bool)
    ensures ok <==>
              && |entries| <= 20
              && (forall k | 0 <= k < |entries| :: ValidEntry(r, entries[k]))
              && TotalSize(entries) <= 25 * 1024 * 1024
    ensures ok ==> forall k | 0 <= k < |entries| :: CanonicalDigest(entries[k].digest)
  {
    hide DigestPattern, CanonicalDigest;
    if |entries| > 20 { return false; }
    var total := 0;
    for i := 0 to |entries|
      invariant forall k | 0 <= k < i :: ValidEntry(r, entries[k]) && CanonicalDigest(entries[k].digest)
      invariant total == TotalSize(entries[..i])
    {
      var file := entries[i];
      if !r.valid(file.filename) { return false; }
      if file.mediaType != r.media(file.filename) || file.size < 1 || file.size > 9007199254740991 { return false; }
      total := total + file.size;
      if file.algorithm != "sha-256" || !DigestPattern(file.digest) { return false; }
      PatternIsCanonical(file.digest);
      assert entries[..i + 1][..i] == entries[..i];
    }
    assert entries[..|entries|] == entries;
    return total <= 25 * 1024 * 1024;
  }

  lemma PatternIsCanonical(s: string)
    requires DigestPattern(s)
    ensures CanonicalDigest(s)
  {
    DigestPatternIsExact(s);
  }
}

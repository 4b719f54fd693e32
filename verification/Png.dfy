/**
 * The PNG gate for bundled images: a loop over chunks with six pieces of mutable state, against
 * the chunk grammar of sections 3.2 and 4.1 of RFC 2083 as far as the gate enforces it. The CRC
 * is a parameter.
 */
module Png {
  import opened Octets
  import opened Options

  type Checksum = f: seq<Octet> -> nat | forall s :: f(s) < 0x1_0000_0000 witness (s: seq<Octet>) => 0

  const SIGNATURE: seq<Octet> := [137, 80, 78, 71, 13, 10, 26, 10]

  const IHDR: seq<Octet> := [73, 72, 68, 82]
  const PLTE: seq<Octet> := [80, 76, 84, 69]
  const IDAT: seq<Octet> := [73, 68, 65, 84]
  const IEND: seq<Octet> := [73, 69, 78, 68]
  const ACTL: seq<Octet> := [97, 99, 84, 76]

  // ---------------------------------------------------------------- the grammar

  datatype Chunk = Chunk(kind: seq<Octet>, body: seq<Octet>)

  predicate ValidChunk(c: Chunk) { |c.kind| == 4 && |c.body| < 0x1_0000_0000 }

  /** Length, type, data and CRC, section 3.2. */
  function Spell(c: Chunk, crc: Checksum): (s: seq<Octet>)
    ensures |s| == 8 + |c.kind| + |c.body|
  {
    BigEndian(|c.body|, 4) + c.kind + c.body + BigEndian(crc(c.kind + c.body), 4)
  }

  function SpellAll(cs: seq<Chunk>, crc: Checksum): seq<Octet>
    decreases cs
  {
    if cs == [] then [] else SpellAll(cs[..|cs| - 1], crc) + Spell(cs[|cs| - 1], crc)
  }

  function Width(body: seq<Octet>): nat
    requires |body| >= 13
  {
    Number(body[..4])
  }

  function Height(body: seq<Octet>): nat
    requires |body| >= 13
  {
    Number(body[4..8])
  }

  /** Bit depths each colour type allows. */
  predicate DepthFits(colour: Octet, depth: Octet) {
    || (colour == 0 && depth in {1, 2, 4, 8, 16})
    || (colour == 2 && depth in {8, 16})
    || (colour == 3 && depth in {1, 2, 4, 8})
    || (colour == 4 && depth in {8, 16})
    || (colour == 6 && depth in {8, 16})
  }

  predicate ValidHeader(body: seq<Octet>) {
    && |body| == 13
    && DepthFits(body[9], body[8])
    && body[10] == 0 && body[11] == 0 && body[12] <= 1
  }

  predicate ValidPalette(body: seq<Octet>) { 0 < |body| <= 768 && |body| % 3 == 0 }

  predicate Critical(kind: seq<Octet>)
    requires |kind| == 4
  {
    65 <= kind[0] <= 90
  }

  /** What a chunk other than the first may be on its own. */
  predicate ValidLater(c: Chunk) {
    && ValidChunk(c)
    && c.kind != IHDR && c.kind != ACTL
    && (c.kind == PLTE ==> ValidPalette(c.body))
    && (Critical(c.kind) ==> c.kind == PLTE || c.kind == IDAT || c.kind == IEND)
  }

  /** Some chunk of this type occurs. */
  ghost predicate Occurs(cs: seq<Chunk>, kind: seq<Octet>) {
    exists i :: 0 <= i < |cs| && cs[i].kind == kind
  }

  /** The header comes first and only there; every other chunk is one of those the gate knows or skips. */
  ghost predicate HeaderFirst(cs: seq<Chunk>) {
    && cs != []
    && ValidChunk(cs[0]) && cs[0].kind == IHDR && ValidHeader(cs[0].body)
    && forall i | 1 <= i < |cs| :: ValidLater(cs[i])
  }

  /** At most one palette, and no palette behind image data. */
  ghost predicate PaletteBeforeData(cs: seq<Chunk>) {
    && (forall i, j | 0 <= i < j < |cs| :: !(cs[i].kind == PLTE && cs[j].kind == PLTE))
    && (forall i, j | 0 <= i < j < |cs| :: !(cs[i].kind == IDAT && cs[j].kind == PLTE))
  }

  /** Whatever stands between two image-data chunks is image data. */
  ghost predicate DataContiguous(cs: seq<Chunk>) {
    forall i, j, k | 0 <= i < j < k < |cs| && cs[i].kind == IDAT && cs[k].kind == IDAT :: cs[j].kind == IDAT
  }

  /** The end chunk is empty, and last, and nowhere else. */
  ghost predicate EndLast(cs: seq<Chunk>) {
    && cs != []
    && cs[|cs| - 1] == Chunk(IEND, [])
    && forall i | 0 <= i < |cs| - 1 :: cs[i].kind != IEND
  }

  ghost predicate PaletteMatchesColour(cs: seq<Chunk>)
    requires cs != [] && |cs[0].body| == 13
  {
    var colour := cs[0].body[9];
    && (colour == 3 ==> Occurs(cs, PLTE))
    && (colour == 0 || colour == 4 ==> !Occurs(cs, PLTE))
  }

  ghost predicate Structure(cs: seq<Chunk>) {
    && HeaderFirst(cs)
    && PaletteBeforeData(cs)
    && DataContiguous(cs)
    && EndLast(cs)
    && Occurs(cs, IDAT)
    && PaletteMatchesColour(cs)
    && Width(cs[0].body) > 0 && Height(cs[0].body) > 0
  }

  ghost predicate IsPng(data: seq<Octet>, cs: seq<Chunk>, crc: Checksum) {
    && data == SIGNATURE + SpellAll(cs, crc)
    && Structure(cs)
  }

  // ---------------------------------------------------------------- reading chunks

  /** A whole chunk with a matching CRC stands at this offset. */
  predicate ChunkReadable(data: seq<Octet>, off: nat, crc: Checksum) {
    && off + 12 <= |data|
    && var length := Number(data[off..off + 4]);
       off + 12 + length <= |data|
       && Number(data[off + 8 + length..off + 12 + length]) == crc(data[off + 4..off + 8 + length])
  }

  function ChunkAt(data: seq<Octet>, off: nat, crc: Checksum): Chunk
    requires ChunkReadable(data, off, crc)
  {
    Chunk(data[off + 4..off + 8], data[off + 8..off + 8 + Number(data[off..off + 4])])
  }

  lemma ReadableMeans(data: seq<Octet>, off: nat, crc: Checksum)
    ensures off + 12 > |data| ==> !ChunkReadable(data, off, crc)
    ensures off + 12 <= |data| ==>
            var length := Number(data[off..off + 4]);
            && (ChunkReadable(data, off, crc) <==>
                  && off + 12 + length <= |data|
                  && Number(data[off + 8 + length..off + 12 + length]) == crc(data[off + 4..off + 8 + length]))
            && (ChunkReadable(data, off, crc) ==>
                  var c := ChunkAt(data, off, crc);
                  c.kind == data[off + 4..off + 8] && |c.body| == length && (Critical(c.kind) <==> 65 <= data[off + 4] <= 90))
  {
    hide Number;
  }

  /** A readable chunk is spelled by the octets it was read from. */
  lemma ReadableSpells(data: seq<Octet>, off: nat, crc: Checksum)
    requires ChunkReadable(data, off, crc)
    ensures ValidChunk(ChunkAt(data, off, crc))
    ensures data[off..off + 12 + |ChunkAt(data, off, crc).body|] == Spell(ChunkAt(data, off, crc), crc)
  {
    Pow256Widths();
    var c := ChunkAt(data, off, crc);
    var n := |c.body|;
    BigEndianOfNumber(data[off..off + 4]);
    BigEndianOfNumber(data[off + 8 + n..off + 12 + n]);
    assert data[off + 4..off + 8 + n] == c.kind + c.body;
    SlicesJoin(data, off, off + 4, off + 8);
    SlicesJoin(data, off, off + 8, off + 8 + n);
    SlicesJoin(data, off, off + 8 + n, off + 12 + n);
  }

  /** A chunk that is spelled at an offset is the one that is read there. */
  lemma SpelledReads(data: seq<Octet>, off: nat, c: Chunk, crc: Checksum)
    requires off <= |data| && ValidChunk(c) && Spell(c, crc) <= data[off..]
    ensures ChunkReadable(data, off, crc) && ChunkAt(data, off, crc) == c
  {
    var s, n := Spell(c, crc), |c.body|;
    SpelledParts(c, crc);
    hide Spell, Number;
    PrefixSlice(data, off, s, 0, 4);
    PrefixSlice(data, off, s, 4, 8);
    PrefixSlice(data, off, s, 8, 8 + n);
    PrefixSlice(data, off, s, 8 + n, 12 + n);
    PrefixSlice(data, off, s, 4, 8 + n);
  }

  /** The parts of a spelled chunk. */
  lemma SpelledParts(c: Chunk, crc: Checksum)
    requires ValidChunk(c)
    ensures var s, n := Spell(c, crc), |c.body|;
            && |s| == 12 + n && Number(s[0..4]) == n && s[4..8] == c.kind && s[8..8 + n] == c.body
            && s[4..8 + n] == c.kind + c.body && Number(s[8 + n..12 + n]) == crc(c.kind + c.body)
  {
    Pow256Widths();
    var n := |c.body|;
    NumberOfBigEndian(n, 4);
    NumberOfBigEndian(crc(c.kind + c.body), 4);
    var x, y := BigEndian(n, 4), BigEndian(crc(c.kind + c.body), 4);
    hide Number, BigEndian, Pow256;
    assert Spell(c, crc) == x + c.kind + c.body + y;
    FourParts(x, c.kind, c.body, y);
  }

  lemma FourParts<T>(x: seq<T>, y: seq<T>, z: seq<T>, w: seq<T>)
    ensures var s, i, j, k := x + y + z + w, |x|, |x| + |y|, |x| + |y| + |z|;
            && s[0..i] == x && s[i..j] == y && s[j..k] == z && s[i..k] == y + z && s[k..k + |w|] == w
  {
  }

  lemma PrefixSlice<T>(data: seq<T>, off: nat, s: seq<T>, i: nat, j: nat)
    requires off <= |data| && s <= data[off..] && i <= j <= |s|
    ensures off + j <= |data| && data[off + i..off + j] == s[i..j]
  {
    assert data[off..][..|s|] == s;
  }

  lemma {:induction false} SpellAllAppend(a: seq<Chunk>, b: seq<Chunk>, crc: Checksum)
    ensures SpellAll(a + b, crc) == SpellAll(a, crc) + SpellAll(b, crc)
    decreases |b|
  {
    if b == [] {
      assert a + b == a;
    } else {
      var front, last := b[..|b| - 1], b[|b| - 1];
      assert (a + b)[..|a + b| - 1] == a + front;
      SpellAllAppend(a, front, crc);
      Associative(SpellAll(a, crc), SpellAll(front, crc), Spell(last, crc));
    }
  }

  /** In a PNG that starts with the chunks read so far, the next chunk stands at the offset. */
  lemma NextChunk(data: seq<Octet>, off: nat, done: seq<Chunk>, cs: seq<Chunk>, crc: Checksum)
    requires data == SIGNATURE + SpellAll(cs, crc) && (forall i | 0 <= i < |cs| :: ValidChunk(cs[i]))
    requires done <= cs && |done| < |cs|
    requires off == 8 + |SpellAll(done, crc)|
    ensures ChunkReadable(data, off, crc) && ChunkAt(data, off, crc) == cs[|done|]
    ensures |cs| == |done| + 1 <==> off + 12 + |cs[|done|].body| == |data|
  {
    hide Spell, SpellAll, ChunkReadable, ChunkAt;
    var c, rest := cs[|done|], cs[|done| + 1..];
    assert cs == done + ([c] + rest);
    SpellAllAppend(done, [c] + rest, crc);
    SpellAllAppend([c], rest, crc);
    SpellAllShort(c, crc);
    var tail := Spell(c, crc) + SpellAll(rest, crc);
    assert data[off..] == tail;
    SpelledReads(data, off, c, crc);
    SpellAllLength(rest, crc);
  }

  lemma SpellAllShort(c: Chunk, crc: Checksum)
    ensures SpellAll([], crc) == [] && SpellAll([c], crc) == Spell(c, crc)
    ensures ValidChunk(c) ==> |Spell(c, crc)| == 12 + |c.body|
  {
    assert [c][..0] == [];
  }

  lemma {:induction false} SpellAllLength(cs: seq<Chunk>, crc: Checksum)
    ensures |SpellAll(cs, crc)| >= 8 * |cs|
    decreases |cs|
  {
    if cs != [] {
      SpellAllLength(cs[..|cs| - 1], crc);
    }
  }

  // ---------------------------------------------------------------- one chunk at a time

  /** The chunks read so far are a possible beginning, with no end chunk among them. */
  ghost predicate SoFar(done: seq<Chunk>) {
    && (done != [] ==> HeaderFirst(done))
    && PaletteBeforeData(done)
    && DataContiguous(done)
    && forall i | 0 <= i < |done| :: done[i].kind != IEND
  }

  /** What the loop demands of the next chunk. */
  ghost predicate MayFollow(done: seq<Chunk>, c: Chunk) {
    && ValidChunk(c)
    && if done == [] then c.kind == IHDR && ValidHeader(c.body)
       else
         && ValidLater(c)
         && (c.kind == PLTE ==> !Occurs(done, IDAT) && !Occurs(done, PLTE))
         && (c.kind == IDAT ==> !DataEnded(done))
         && (c.kind == IEND ==> c.body == [])
  }

  /** Image data has been seen, and something else after it. */
  ghost predicate DataEnded(done: seq<Chunk>) {
    done != [] && Occurs(done, IDAT) && done[|done| - 1].kind != IDAT
  }

  lemma StepKeeps(done: seq<Chunk>, c: Chunk)
    requires SoFar(done) && MayFollow(done, c) && c.kind != IEND
    ensures SoFar(done + [c])
  {
    ContiguousKeeps(done, c);
    PaletteKeeps(done, c);
    hide DataContiguous, PaletteBeforeData, Occurs, DataEnded, ValidHeader;
  }

  lemma PaletteKeeps(done: seq<Chunk>, c: Chunk)
    requires PaletteBeforeData(done)
    requires c.kind == PLTE ==> !Occurs(done, IDAT) && !Occurs(done, PLTE)
    ensures PaletteBeforeData(done + [c])
  {
  }

  lemma ContiguousKeeps(done: seq<Chunk>, c: Chunk)
    requires DataContiguous(done) && (c.kind == IDAT ==> !DataEnded(done))
    ensures DataContiguous(done + [c])
  {
    var cs := done + [c];
    forall i, j, k | 0 <= i < j < k < |cs| && cs[i].kind == IDAT && cs[k].kind == IDAT
      ensures cs[j].kind == IDAT
    {
      assert cs[i] == done[i] && cs[j] == done[j];
      if k == |done| {
        assert Occurs(done, IDAT);
        if j < |done| - 1 {
          assert done[|done| - 1].kind == IDAT;
        }
      }
    }
  }

  /** Every chunk of a proper PNG may follow the ones in front of it. */
  lemma StructureSteps(cs: seq<Chunk>, n: nat)
    requires Structure(cs) && n < |cs|
    ensures MayFollow(cs[..n], cs[n])
    ensures cs[n].kind == IEND <==> n == |cs| - 1
  {
    hide ValidHeader, ValidPalette, Width, Height, PaletteMatchesColour, Critical;
    var done := cs[..n];
    assert forall i | 0 <= i < n :: done[i] == cs[i];
    if cs[n].kind == IDAT && done != [] {
      if Occurs(done, IDAT) {
        var i :| 0 <= i < n && done[i].kind == IDAT;
        assert cs[n - 1].kind == IDAT;
      }
    }
  }

  lemma OccursSnoc(done: seq<Chunk>, c: Chunk, kind: seq<Octet>)
    ensures Occurs(done + [c], kind) <==> Occurs(done, kind) || c.kind == kind
  {
    var cs := done + [c];
    if Occurs(done, kind) {
      var i :| 0 <= i < |done| && done[i].kind == kind;
      assert cs[i].kind == kind;
    }
    if c.kind == kind {
      assert cs[|done|].kind == kind;
    }
  }

  /** The final check, made when the end chunk has been read, decides the whole structure. */
  lemma StructureEnds(done: seq<Chunk>)
    requires SoFar(done) && done != []
    ensures Structure(done + [Chunk(IEND, [])]) <==>
            && Occurs(done, IDAT) && PaletteMatchesColour(done)
            && Width(done[0].body) > 0 && Height(done[0].body) > 0
  {
    var c := Chunk(IEND, []);
    var cs := done + [c];
    OccursSnoc(done, c, IDAT);
    OccursSnoc(done, c, PLTE);
    hide Occurs;
    EndsWell(done);
    hide HeaderFirst, PaletteBeforeData, DataContiguous, EndLast;
    SoFarHeader(done);
    assert cs[0] == done[0];
  }

  lemma KindsDiffer()
    ensures IHDR != PLTE && IHDR != IDAT && IHDR != IEND && IHDR != ACTL
    ensures PLTE != IDAT && PLTE != IEND && PLTE != ACTL
    ensures IDAT != IEND && IDAT != ACTL && IEND != ACTL
    ensures Critical(IHDR) && Critical(PLTE) && Critical(IDAT) && Critical(IEND) && !Critical(ACTL)
  {
    assert IHDR[1] != PLTE[1] && IHDR[1] != IEND[1] && PLTE[1] != IDAT[1] && PLTE[1] != IEND[1] && IDAT[1] != IEND[1];
    assert IHDR[3] != IDAT[3] && ACTL[0] != IHDR[0] && ACTL[0] != PLTE[0] && ACTL[0] != IDAT[0] && ACTL[0] != IEND[0];
  }

  lemma SoFarHeader(done: seq<Chunk>)
    requires SoFar(done) && done != []
    ensures |done[0].body| == 13
  {
  }

  lemma EndsWell(done: seq<Chunk>)
    requires SoFar(done) && done != []
    ensures HeaderFirst(done + [Chunk(IEND, [])]) && PaletteBeforeData(done + [Chunk(IEND, [])])
    ensures DataContiguous(done + [Chunk(IEND, [])]) && EndLast(done + [Chunk(IEND, [])])
  {
    KindsDiffer();
    EndIsLater();
    PaletteKeeps(done, Chunk(IEND, []));
    ContiguousKeeps(done, Chunk(IEND, []));
    hide DataContiguous, PaletteBeforeData, ValidLater, ValidHeader, ValidChunk;
  }

  lemma EndIsLater()
    ensures ValidLater(Chunk(IEND, []))
  {
    KindsDiffer();
  }

  // ---------------------------------------------------------------- the gate

  /** The six pieces of mutable state, as a value. */
  datatype Flags = Flags(header: bool, imageData: bool, palette: bool, dataEnded: bool, colorType: Octet, width: nat, height: nat)

  /** The state says what there is to say about the chunks read so far. */
  ghost predicate Reflects(f: Flags, done: seq<Chunk>) {
    && (f.header <==> done != [])
    && (f.imageData <==> Occurs(done, IDAT))
    && (f.palette <==> Occurs(done, PLTE))
    && (f.dataEnded <==> DataEnded(done))
    && (done != [] ==> |done[0].body| == 13 && f.colorType == done[0].body[9]
                       && f.width == Width(done[0].body) && f.height == Height(done[0].body))
  }

  /** The loop invariant: the chunks read fill the data up to the offset and start every reading of it. */
  ghost predicate AtOffset(data: seq<Octet>, off: nat, done: seq<Chunk>, crc: Checksum) {
    && off == 8 + |SpellAll(done, crc)| <= |data|
    && data[..off] == SIGNATURE + SpellAll(done, crc)
    && SoFar(done)
    && forall cs: seq<Chunk> | IsPng(data, cs, crc) :: done <= cs && |done| < |cs|
  }

  ghost predicate NoPng(data: seq<Octet>, crc: Checksum) { forall cs: seq<Chunk> :: !IsPng(data, cs, crc) }

  lemma ValidChunks(cs: seq<Chunk>)
    requires Structure(cs)
    ensures forall i | 0 <= i < |cs| :: ValidChunk(cs[i])
  {
  }

  /** A PNG is at least the signature, a header, one image-data chunk and the end chunk long. */
  lemma StartState(data: seq<Octet>, crc: Checksum)
    ensures |data| < 45 || data[..8] != SIGNATURE ==> NoPng(data, crc)
    ensures |data| >= 45 && data[..8] == SIGNATURE ==> InStep(data, 8, [], crc, Flags(false, false, false, false, 255, 0, 0))
  {
    var start: seq<Chunk> := [];
    forall cs: seq<Chunk> | IsPng(data, cs, crc)
      ensures |data| >= 45 && data[..8] == SIGNATURE && start <= cs && 0 < |cs|
    {
      NoShorterPng(cs, crc);
    }
    SpellAllShort(Chunk(IEND, []), crc);
    NothingReflected();
    hide SpellAll, Structure, Reflects;
    assert [] + SIGNATURE == SIGNATURE + [] == SIGNATURE;
  }

  lemma NothingReflected()
    ensures Reflects(Flags(false, false, false, false, 255, 0, 0), []) && SoFar([])
  {
  }

  lemma NoShorterPng(cs: seq<Chunk>, crc: Checksum)
    requires Structure(cs)
    ensures cs != [] && |SpellAll(cs, crc)| >= 49
  {
    var i :| 0 <= i < |cs| && cs[i].kind == IDAT;
    assert i != 0 && i != |cs| - 1;
    hide SpellAll;
    ThreeChunks(cs, crc);
  }

  lemma ThreeChunks(cs: seq<Chunk>, crc: Checksum)
    requires |cs| >= 3 && |cs[0].kind| == 4 && |cs[0].body| == 13
    requires forall i | 0 <= i < |cs| :: ValidChunk(cs[i])
    ensures |SpellAll(cs, crc)| >= 49
  {
    hide Spell;
    var rest := cs[1..];
    assert cs == [cs[0]] + rest;
    SpellAllAppend([cs[0]], rest, crc);
    assert [cs[0]][..0] == [];
    assert SpellAll([cs[0]], crc) == Spell(cs[0], crc);
    SpellAllLength(rest, crc);
    var n := |rest|;
    assert rest[..n - 1][..n - 2] == rest[..n - 2];
    assert SpellAll(rest, crc) == SpellAll(rest[..n - 1], crc) + Spell(rest[n - 1], crc);
    assert SpellAll(rest[..n - 1], crc) == SpellAll(rest[..n - 2], crc) + Spell(rest[n - 2], crc);
    assert rest[n - 1] == cs[n] && rest[n - 2] == cs[n - 1];
  }

  /** Where no chunk can be read, or one that may not follow, there is no PNG. */
  lemma StuckIsNoPng(data: seq<Octet>, off: nat, done: seq<Chunk>, crc: Checksum)
    requires AtOffset(data, off, done, crc)
    requires !ChunkReadable(data, off, crc)
             || !MayFollow(done, ChunkAt(data, off, crc))
             || (ChunkAt(data, off, crc).kind == IEND && off + 12 + |ChunkAt(data, off, crc).body| != |data|)
    ensures NoPng(data, crc)
  {
    hide ChunkReadable, MayFollow, Spell, Structure, SoFar;
    forall cs: seq<Chunk> | IsPng(data, cs, crc)
      ensures false
    {
      ValidChunks(cs);
      assert cs[..|done|] == done;
      NextChunk(data, off, done, cs, crc);
      StructureSteps(cs, |done|);
    }
  }

  /** One more chunk, which is not the end chunk. */
  lemma Advance(data: seq<Octet>, off: nat, end: nat, done: seq<Chunk>, c: Chunk, crc: Checksum)
    requires AtOffset(data, off, done, crc)
    requires ChunkReadable(data, off, crc) && c == ChunkAt(data, off, crc) && MayFollow(done, c)
    requires c.kind != IEND && end == off + 12 + |c.body|
    ensures end <= |data| && AtOffset(data, end, done + [c], crc)
  {
    hide MayFollow, IsPng, SoFar, ChunkReadable, ChunkAt, SpellAll;
    StepKeeps(done, c);
    FrontGrows(data, off, done, crc);
    forall cs: seq<Chunk> | IsPng(data, cs, crc)
      ensures done + [c] <= cs && |done| + 1 < |cs|
    {
      AllAdvance(data, off, done, c, cs, crc);
    }
  }

  /** Every reading goes on with the chunk that is read, and does not end with it. */
  lemma AllAdvance(data: seq<Octet>, off: nat, done: seq<Chunk>, c: Chunk, cs: seq<Chunk>, crc: Checksum)
    requires IsPng(data, cs, crc) && done <= cs && |done| < |cs| && off == 8 + |SpellAll(done, crc)|
    requires ChunkReadable(data, off, crc) && c == ChunkAt(data, off, crc) && c.kind != IEND
    ensures done + [c] <= cs && |done| + 1 < |cs|
  {
    hide MayFollow, Structure, ChunkReadable, ChunkAt, SpellAll;
    ValidChunks(cs);
    NextChunk(data, off, done, cs, crc);
    PrefixSnoc(done, c, cs);
    StructureSteps(cs, |done|);
  }

  lemma FrontGrows(data: seq<Octet>, off: nat, done: seq<Chunk>, crc: Checksum)
    requires off == 8 + |SpellAll(done, crc)| <= |data|
    requires data[..off] == SIGNATURE + SpellAll(done, crc)
    requires ChunkReadable(data, off, crc)
    ensures var end := off + 12 + |ChunkAt(data, off, crc).body|;
            end == 8 + |SpellAll(done + [ChunkAt(data, off, crc)], crc)| <= |data|
            && data[..end] == SIGNATURE + SpellAll(done + [ChunkAt(data, off, crc)], crc)
  {
    hide Spell;
    var c := ChunkAt(data, off, crc);
    var end := off + 12 + |c.body|;
    ReadableSpells(data, off, crc);
    assert (done + [c])[..|done|] == done;
    assert SpellAll(done + [c], crc) == SpellAll(done, crc) + Spell(c, crc);
    SlicesJoin(data, 0, off, end);
    Associative(SIGNATURE, SpellAll(done, crc), Spell(c, crc));
  }

  /** The end chunk, read at the end of the data: the final check decides. */
  lemma Finish(data: seq<Octet>, off: nat, done: seq<Chunk>, crc: Checksum)
    requires AtOffset(data, off, done, crc)
    requires ChunkReadable(data, off, crc) && ChunkAt(data, off, crc) == Chunk(IEND, []) && off + 12 == |data|
    requires done != []
    ensures IsPng(data, done + [Chunk(IEND, [])], crc) <==>
            && Occurs(done, IDAT) && PaletteMatchesColour(done)
            && Width(done[0].body) > 0 && Height(done[0].body) > 0
    ensures forall cs: seq<Chunk> | IsPng(data, cs, crc) :: cs == done + [Chunk(IEND, [])]
  {
    hide Structure, SoFar, ChunkReadable, Occurs, PaletteMatchesColour;
    var c := Chunk(IEND, []);
    FrontGrows(data, off, done, crc);
    assert data[..|data|] == data;
    SoFarHeader(done);
    StructureEnds(done);
    forall cs: seq<Chunk> | IsPng(data, cs, crc)
      ensures cs == done + [c]
    {
      ValidChunks(cs);
      NextChunk(data, off, done, cs, crc);
      PrefixSnoc(done, c, cs);
    }
  }

  /** What a round of the loop asks of the chunk it has read, in the order in which it asks. */
  predicate Passes(f: Flags, c: Chunk)
    requires |c.kind| == 4
  {
    if !f.header then c.kind == IHDR && ValidHeader(c.body)
    else if c.kind == IHDR || c.kind == ACTL then false
    else if c.kind == PLTE then !f.imageData && !f.palette && ValidPalette(c.body)
    else if c.kind == IDAT then !f.dataEnded
    else if c.kind == IEND then c.body == []
    else !Critical(c.kind)
  }

  /** The state after a chunk that is not the end chunk. */
  function After(f: Flags, c: Chunk): Flags
    requires !f.header ==> |c.body| == 13
  {
    if !f.header then
      f.(header := true, colorType := c.body[9], width := Width(c.body), height := Height(c.body))
    else if c.kind == PLTE then f.(palette := true)
    else if c.kind == IDAT then f.(imageData := true)
    else f.(dataEnded := f.dataEnded || f.imageData)
  }

  /** What the test behind the loop asks of the state, once the end chunk has been read. */
  predicate Complete(f: Flags) {
    && f.imageData && f.width > 0 && f.height > 0
    && !(f.colorType == 3 && !f.palette) && !((f.colorType == 0 || f.colorType == 4) && f.palette)
  }

  /** The loop is at this offset with these chunks behind it, and its state reflects them. */
  ghost predicate InStep(data: seq<Octet>, off: nat, done: seq<Chunk>, crc: Checksum, f: Flags) {
    AtOffset(data, off, done, crc) && Reflects(f, done)
  }

  /** The tests of a round are exactly what the grammar asks of the next chunk. */
  lemma PassesIsMayFollow(f: Flags, done: seq<Chunk>, c: Chunk)
    requires Reflects(f, done) && ValidChunk(c)
    ensures MayFollow(done, c) <==> Passes(f, c)
  {
    hide Occurs, DataEnded, ValidHeader, ValidPalette;
    KindsDiffer();
  }

  /** How the state changes with a chunk that may follow. */
  lemma AfterReflects(f: Flags, done: seq<Chunk>, c: Chunk)
    requires Reflects(f, done) && ValidChunk(c) && Passes(f, c) && c.kind != IEND
    ensures !f.header ==> |c.body| == 13
    ensures Reflects(After(f, c), done + [c])
  {
    OccursSnoc(done, c, IDAT);
    OccursSnoc(done, c, PLTE);
    KindsDiffer();
    if f.header {
      HeaderStays(done, c);
      LaterReflects(f, done, c);
    } else {
      assert done + [c] == [c] && !Occurs(done, IDAT) && !Occurs(done, PLTE);
      hide Occurs;
    }
  }

  lemma HeaderStays(done: seq<Chunk>, c: Chunk)
    requires done != []
    ensures (done + [c])[0] == done[0] && (done + [c])[|done + [c]| - 1] == c
  {
  }

  lemma LaterReflects(f: Flags, done: seq<Chunk>, c: Chunk)
    requires Reflects(f, done) && ValidChunk(c) && Passes(f, c) && c.kind != IEND && f.header
    ensures Reflects(After(f, c), done + [c])
  {
    OccursSnoc(done, c, IDAT);
    OccursSnoc(done, c, PLTE);
    HeaderStays(done, c);
    KindsDiffer();
    hide Occurs, Width, Height, ValidPalette;
  }

  lemma UnreadableIsNoPng(data: seq<Octet>, off: nat, done: seq<Chunk>, crc: Checksum, f: Flags)
    requires InStep(data, off, done, crc, f) && !ChunkReadable(data, off, crc)
    ensures NoPng(data, crc)
  {
    hide AtOffset, Reflects, ChunkReadable, NoPng;
    StuckIsNoPng(data, off, done, crc);
  }

  /** A chunk that fails a test rules out every PNG that starts as the data does. */
  lemma RefusedIsNoPng(data: seq<Octet>, off: nat, done: seq<Chunk>, crc: Checksum, f: Flags)
    requires InStep(data, off, done, crc, f) && ChunkReadable(data, off, crc)
    requires var c := ChunkAt(data, off, crc); !Passes(f, c) || (c.kind == IEND && off + 12 + |c.body| != |data|)
    ensures NoPng(data, crc)
  {
    hide AtOffset, Reflects, MayFollow, Passes, ChunkReadable, NoPng;
    ReadableSpells(data, off, crc);
    PassesIsMayFollow(f, done, ChunkAt(data, off, crc));
    StuckIsNoPng(data, off, done, crc);
  }

  /** A chunk that passes keeps the loop in step. */
  lemma PassedKeeps(data: seq<Octet>, off: nat, done: seq<Chunk>, crc: Checksum, f: Flags, c: Chunk)
    requires InStep(data, off, done, crc, f) && ChunkReadable(data, off, crc) && c == ChunkAt(data, off, crc)
    requires Passes(f, c) && c.kind != IEND
    ensures !f.header ==> |c.body| == 13
    ensures off + 12 + |c.body| <= |data| && InStep(data, off + 12 + |c.body|, done + [c], crc, After(f, c))
  {
    hide AtOffset, Reflects, MayFollow, Passes, ChunkReadable, After;
    ReadableSpells(data, off, crc);
    PassesIsMayFollow(f, done, c);
    AfterReflects(f, done, c);
    Advance(data, off, off + 12 + |c.body|, done, c, crc);
  }

  /** The end chunk at the end of the data: the test behind the loop decides. */
  lemma EndDecides(data: seq<Octet>, off: nat, done: seq<Chunk>, crc: Checksum, f: Flags)
    requires InStep(data, off, done, crc, f) && f.header
    requires ChunkReadable(data, off, crc) && ChunkAt(data, off, crc) == Chunk(IEND, []) && off + 12 == |data|
    ensures Complete(f) <==> exists cs: seq<Chunk> :: IsPng(data, cs, crc)
    ensures forall cs: seq<Chunk> | IsPng(data, cs, crc) :: f.width == Width(cs[0].body) && f.height == Height(cs[0].body)
  {
    hide AtOffset, IsPng, Occurs, ChunkReadable, ChunkAt, Width, Height, DataEnded;
    Finish(data, off, done, crc);
  }

  /** The header chunk: its dimensions and colour type, if its profile is one of the permitted ones. */
  method ReadHeader(data: seq<Octet>, offset: nat, crc: Checksum) returns (ok: bool, width: nat, height: nat, colorType: Octet)
    requires ChunkReadable(data, offset, crc)
    ensures ok <==> ValidHeader(ChunkAt(data, offset, crc).body)
    ensures ok ==>
              var body := ChunkAt(data, offset, crc).body;
              |body| == 13 && width == Width(body) && height == Height(body) && colorType == body[9]
  {
    hide Number, DepthFits;
    ok, width, height, colorType := false, 0, 0, 255;
    if Number(data[offset..offset + 4]) != 13 { return; }
    HeaderSlices(data, offset, crc);
    width := Number(data[offset + 8..offset + 12]);
    height := Number(data[offset + 12..offset + 16]);
    var depth, color := data[offset + 16], data[offset + 17];
    if !DepthFits(color, depth) || data[offset + 18] != 0 || data[offset + 19] != 0 || data[offset + 20] > 1 { return; }
    ok, colorType := true, color;
  }

  /**
   * The gate accepts exactly the PNG files of the grammar, and returns the dimensions their
   * header states.
   */
  method PngDimensions(data: seq<Octet>, crc: Checksum) returns (r: Option<(nat, nat)>)
    ensures r.Some? <==> exists cs: seq<Chunk> :: IsPng(data, cs, crc)
    ensures forall cs: seq<Chunk> | IsPng(data, cs, crc) :: r == Some((Width(cs[0].body), Height(cs[0].body)))
  {
    hide InStep, AtOffset, IsPng, Number, Width, Height, ChunkReadable, ChunkAt, ValidHeader, Critical;
    StartState(data, crc);
    if |data| < 45 || data[..8] != SIGNATURE {
      return None;
    }
    var offset, width, height := 8, 0, 0;
    var header, imageData, endChunk, palette, dataEnded := false, false, false, false, false;
    var colorType: Octet := 255;
    ghost var done: seq<Chunk> := [];
    while offset + 12 <= |data|
      invariant InStep(data, offset, done, crc, Flags(header, imageData, palette, dataEnded, colorType, width, height))
      invariant !endChunk
      decreases |data| - offset
    {
      ghost var before := Flags(header, imageData, palette, dataEnded, colorType, width, height);
      var length := Number(data[offset..offset + 4]);
      var end := offset + 12 + length;
      ReadableMeans(data, offset, crc);
      if end > |data| {
        UnreadableIsNoPng(data, offset, done, crc, before);
        return None;
      }
      var chunkType := data[offset + 4..offset + 8];
      if Number(data[offset + 8 + length..end]) != crc(data[offset + 4..offset + 8 + length]) {
        UnreadableIsNoPng(data, offset, done, crc, before);
        return None;
      }
      ghost var c := ChunkAt(data, offset, crc);
      if !header && chunkType != IHDR {
        RefusedIsNoPng(data, offset, done, crc, before);
        return None;
      }
      if chunkType == IHDR {
        var valid := false;
        if !header {
          valid, width, height, colorType := ReadHeader(data, offset, crc);
        }
        if !valid {
          RefusedIsNoPng(data, offset, done, crc, before);
          return None;
        }
        header := true;
      } else if chunkType == ACTL {
        RefusedIsNoPng(data, offset, done, crc, before);
        return None;
      } else if chunkType == PLTE {
        if imageData || palette || length == 0 || length % 3 != 0 || length > 768 {
          RefusedIsNoPng(data, offset, done, crc, before);
          return None;
        }
        palette := true;
      } else if chunkType == IDAT {
        if dataEnded {
          RefusedIsNoPng(data, offset, done, crc, before);
          return None;
        }
        imageData := true;
      } else if chunkType == IEND {
        if length != 0 || end != |data| {
          RefusedIsNoPng(data, offset, done, crc, before);
          return None;
        }
        endChunk := true;
      } else {
        if imageData {
          dataEnded := true;
        }
        if 65 <= data[offset + 4] <= 90 {
          RefusedIsNoPng(data, offset, done, crc, before);
          return None;
        }
      }
      if endChunk {
        assert c == Chunk(IEND, []);
        EndDecides(data, offset, done, crc, before);
        break;
      }
      PassedKeeps(data, offset, done, crc, before, c);
      done := done + [c];
      offset := end;
    }
    if !endChunk {
      ReadableMeans(data, offset, crc);
      UnreadableIsNoPng(data, offset, done, crc, Flags(header, imageData, palette, dataEnded, colorType, width, height));
    }
    if !header || !imageData || !endChunk || width == 0 || height == 0
       || (colorType == 3 && !palette) || ((colorType == 0 || colorType == 4) && palette) {
      return None;
    }
    return Some((width, height));
  }

  lemma HeaderSlices(data: seq<Octet>, off: nat, crc: Checksum)
    requires ChunkReadable(data, off, crc) && |ChunkAt(data, off, crc).body| == 13
    ensures var body := ChunkAt(data, off, crc).body;
            && (ValidHeader(body) <==> DepthFits(data[off + 17], data[off + 16]) && data[off + 18] == 0 && data[off + 19] == 0 && data[off + 20] <= 1)
            && body[9] == data[off + 17]
            && Width(body) == Number(data[off + 8..off + 12]) && Height(body) == Number(data[off + 12..off + 16])
  {
    hide DepthFits, Number;
    assert ChunkAt(data, off, crc).body == data[off + 8..off + 8 + 13];
    HeaderOctets(data, off + 8);
  }

  lemma HeaderOctets(data: seq<Octet>, at: nat)
    requires at + 13 <= |data|
    ensures var body := data[at..at + 13];
            && body[..4] == data[at..at + 4] && body[4..8] == data[at + 4..at + 8]
            && body[8] == data[at + 8] && body[9] == data[at + 9]
            && body[10] == data[at + 10] && body[11] == data[at + 11] && body[12] == data[at + 12]
  {
    SliceOfSlice(data, at, 13, 0, 4);
    SliceOfSlice(data, at, 13, 4, 8);
  }

  lemma SliceOfSlice<T>(s: seq<T>, at: nat, n: nat, i: nat, j: nat)
    requires at + n <= |s| && i <= j <= n
    ensures s[at..at + n][i..j] == s[at + i..at + j]
  {
    var x, y := s[at..at + n][i..j], s[at + i..at + j];
    assert forall k | 0 <= k < |x| :: x[k] == y[k];
  }
}

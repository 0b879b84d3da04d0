/** The files of a sealed segment: what they hold, as records, and the bytes
    that stand for it. */
module SegmentFormat {
  import opened Base
  import opened PostingFormat
  import LittleEndian
  import VarByte

  const MAGIC: nat := 0x5350_5031
  const QUALITY_MAGIC: nat := 0x4451_5031
  const VERSION: nat := 2
  const FINGERPRINT: string := "standard:v1+keyword:v1"

  const INFO_EXT: string := ".si"
  const TERMS_EXT: string := ".tim"
  const POSTINGS_EXT: string := ".doc"
  const STORED_EXT: string := ".fdt"
  const STORED_INDEX_EXT: string := ".fdx"
  const QUALITY_EXT: string := ".dvq"

  /** A term of the dictionary with the bytes of its posting list. */
  datatype TermRecord = TermRecord(term: string, df: nat, totalTf: nat, list: string)

  /** A field.  boost and positionDecay are 32-bit patterns of floats. */
  datatype FieldRecord = FieldRecord(
    name: string, docCount: nat, sumFieldLength: nat, boost: nat, positionDecay: nat, layout: Layout,
    terms: seq<TermRecord>)

  datatype Content = Content(
    docCount: nat, fields: seq<FieldRecord>, blobs: seq<string>, quality: Option<seq<nat>>)

  /** AppendStr: the length as a 32-bit number, then the bytes. */
  function Str(s: string): string
  {
    VarByte.Encoding(Mod32(|s|)) + s
  }

  /** A dictionary entry; offset is relative to the field's posting bytes. */
  function TermBytes(t: TermRecord, offset: nat): string
  {
    Str(t.term) + (VarByte.Encoding(t.df) + (VarByte.Encoding(t.totalTf)
    + (VarByte.Encoding(offset) + VarByte.Encoding(|t.list|))))
  }

  function Dictionary(terms: seq<TermRecord>, offset: nat): string
  {
    if terms == [] then "" else TermBytes(terms[0], offset) + Dictionary(terms[1..], offset + |terms[0].list|)
  }

  /** The posting lists one after the other. */
  function Lists(terms: seq<TermRecord>): string
  {
    if terms == [] then "" else terms[0].list + Lists(terms[1..])
  }

  /** The .tim file. */
  function Dictionaries(fields: seq<FieldRecord>): string
  {
    if fields == [] then "" else Dictionary(fields[0].terms, 0) + Dictionaries(fields[1..])
  }

  /** The .doc file. */
  function Postings(fields: seq<FieldRecord>): string
  {
    if fields == [] then "" else Lists(fields[0].terms) + Postings(fields[1..])
  }

  /** Where a field's parts are. */
  datatype FieldStats = FieldStats(
    name: string, docCount: nat, sumFieldLength: nat, termCount: nat, timOffset: nat, timSize: nat,
    docOffset: nat, docSize: nat, boost: nat, positionDecay: nat, layout: Layout)

  function StatsOf(f: FieldRecord, timOffset: nat, docOffset: nat): FieldStats
  {
    FieldStats(f.name, f.docCount, f.sumFieldLength, |f.terms|, timOffset, |Dictionary(f.terms, 0)|,
               docOffset, |Lists(f.terms)|, f.boost, f.positionDecay, f.layout)
  }

  function AllStats(fields: seq<FieldRecord>, timOffset: nat, docOffset: nat): (stats: seq<FieldStats>)
    ensures |stats| == |fields|
  {
    if fields == [] then []
    else
      [StatsOf(fields[0], timOffset, docOffset)]
      + AllStats(fields[1..], timOffset + |Dictionary(fields[0].terms, 0)|, docOffset + |Lists(fields[0].terms)|)
  }

  function Flag(b: bool): char
  {
    if b then 1 as char else 0 as char
  }

  /** The boost, the decay and the two flags. */
  function FieldTail(fs: FieldStats): string
  {
    LittleEndian.Word(fs.boost, 4) + (LittleEndian.Word(fs.positionDecay, 4)
    + [Flag(fs.layout.hasPositions), Flag(fs.layout.hasTokenWeights)])
  }

  function FieldBytes(fs: FieldStats): string
  {
    Str(fs.name) + (VarByte.Encoding(fs.docCount) + (VarByte.Encoding(fs.sumFieldLength)
    + (VarByte.Encoding(fs.termCount) + (VarByte.Encoding(fs.timOffset) + (VarByte.Encoding(fs.timSize)
    + (VarByte.Encoding(fs.docOffset) + (VarByte.Encoding(fs.docSize) + FieldTail(fs))))))))
  }

  function FieldTable(stats: seq<FieldStats>): string
  {
    if stats == [] then "" else FieldBytes(stats[0]) + FieldTable(stats[1..])
  }

  /** The .si file. */
  function Info(docCount: nat, stats: seq<FieldStats>): string
  {
    LittleEndian.Word(MAGIC, 4) + (LittleEndian.Word(VERSION, 4) + (LittleEndian.Word(docCount, 8)
    + (Str(FINGERPRINT) + (VarByte.Encoding(Mod32(|stats|)) + FieldTable(stats)))))
  }

  /** The .fdt file. */
  function StoredBytes(blobs: seq<string>): string
  {
    if blobs == [] then "" else Str(blobs[0]) + StoredBytes(blobs[1..])
  }

  function Offsets(blobs: seq<string>, start: nat): (offsets: seq<nat>)
    ensures |offsets| == |blobs|
  {
    if blobs == [] then [] else [start] + Offsets(blobs[1..], start + |Str(blobs[0])|)
  }

  function Words(values: seq<nat>, n: nat): string
  {
    if values == [] then "" else LittleEndian.Word(values[0], n) + Words(values[1..], n)
  }

  /** The .fdx file. */
  function StoredIndex(blobs: seq<string>): string
  {
    LittleEndian.Word(|blobs|, 8) + Words(Offsets(blobs, 0), 8)
  }

  /** The .dvq file. */
  function QualityBytes(docCount: nat, quality: seq<nat>): string
  {
    LittleEndian.Word(QUALITY_MAGIC, 4) + (LittleEndian.Word(docCount, 4) + Words(quality, 4))
  }

  /** Where the fixed parts of the files are: the magic numbers "1PPS" and
      "1PQD", the version, the counts and the fingerprint. */
  lemma {:induction false} FixedParts(c: Content, q: seq<nat>)
    ensures var si := Info(c.docCount, AllStats(c.fields, 0, 0));
      && |si| >= 39 && si[..4] == "1PPS" && si[4..8] == [2 as char, 0 as char, 0 as char, 0 as char]
      && si[8..16] == LittleEndian.Word(c.docCount, 8) && si[16..39] == [22 as char] + "standard:v1+keyword:v1"
    ensures var dvq := QualityBytes(c.docCount, q);
      |dvq| >= 8 && dvq[..4] == "1PQD" && dvq[4..8] == LittleEndian.Word(c.docCount, 4)
    ensures var fdx := StoredIndex(c.blobs);
      |fdx| == 8 + 8 * |c.blobs| && fdx[..8] == LittleEndian.Word(|c.blobs|, 8)
  {
    hide LittleEndian.Word, VarByte.Encoding, AllStats, FieldTable, Words, Offsets, Str;
    MagicBytes();
    WordsLength(Offsets(c.blobs, 0), 8);
    PrintStr();
    var rest := VarByte.Encoding(Mod32(|AllStats(c.fields, 0, 0)|)) + FieldTable(AllStats(c.fields, 0, 0));
    Pieces(LittleEndian.Word(MAGIC, 4), LittleEndian.Word(VERSION, 4), LittleEndian.Word(c.docCount, 8), Str(FINGERPRINT), rest);
  }

  lemma {:induction false} PrintStr()
    ensures Str(FINGERPRINT) == [22 as char] + "standard:v1+keyword:v1"
  {
    assert |FINGERPRINT| == 22;
    assert VarByte.Encoding(22) == [22 as char];
  }

  lemma {:induction false} Pieces(a: string, b: string, c: string, d: string, rest: string)
    requires |a| == 4 && |b| == 4 && |c| == 8 && |d| == 23
    ensures var s := a + (b + (c + (d + rest)));
      |s| >= 39 && s[..4] == a && s[4..8] == b && s[8..16] == c && s[16..39] == d
  {
  }

  lemma {:induction false} MagicBytes()
    ensures LittleEndian.Word(MAGIC, 4) == "1PPS" && LittleEndian.Word(QUALITY_MAGIC, 4) == "1PQD"
    ensures LittleEndian.Word(VERSION, 4) == [2 as char, 0 as char, 0 as char, 0 as char]
  {
    assert LittleEndian.Word(MAGIC, 4) == [(MAGIC % 256) as char] + LittleEndian.Word(MAGIC / 256, 3);
    assert LittleEndian.Word(MAGIC / 256, 3) == [(MAGIC / 256 % 256) as char] + LittleEndian.Word(MAGIC / 65536, 2);
    assert LittleEndian.Word(MAGIC / 65536, 2) == [(MAGIC / 65536 % 256) as char, (MAGIC / 0x100_0000 % 256) as char];
    assert LittleEndian.Word(QUALITY_MAGIC, 4) == [(QUALITY_MAGIC % 256) as char] + LittleEndian.Word(QUALITY_MAGIC / 256, 3);
    assert LittleEndian.Word(QUALITY_MAGIC / 256, 3)
        == [(QUALITY_MAGIC / 256 % 256) as char] + LittleEndian.Word(QUALITY_MAGIC / 65536, 2);
    assert LittleEndian.Word(QUALITY_MAGIC / 65536, 2)
        == [(QUALITY_MAGIC / 65536 % 256) as char, (QUALITY_MAGIC / 0x100_0000 % 256) as char];
    assert LittleEndian.Word(0, 3) == [0 as char] + LittleEndian.Word(0, 2);
  }

  lemma {:induction false} WordsLength(values: seq<nat>, n: nat)
    ensures |Words(values, n)| == n * |values|
  {
    if values != [] {
      WordsLength(values[1..], n);
      assert n * |values| == n + n * |values[1..]|;
    }
  }

  /** The directory holds the files of a segment under this stem. */
  ghost predicate Holds(files: map<string, string>, stem: string, c: Content)
  {
    && stem + INFO_EXT in files && files[stem + INFO_EXT] == Info(c.docCount, AllStats(c.fields, 0, 0))
    && stem + TERMS_EXT in files && files[stem + TERMS_EXT] == Dictionaries(c.fields)
    && stem + POSTINGS_EXT in files && files[stem + POSTINGS_EXT] == Postings(c.fields)
    && stem + STORED_EXT in files && files[stem + STORED_EXT] == StoredBytes(c.blobs)
    && stem + STORED_INDEX_EXT in files && files[stem + STORED_INDEX_EXT] == StoredIndex(c.blobs)
    && match c.quality
       case Some(q) => stem + QUALITY_EXT in files && files[stem + QUALITY_EXT] == QualityBytes(c.docCount, q)
       case None => stem + QUALITY_EXT !in files
  }

  /** Terms in strictly ascending order. */
  ghost predicate InOrder(terms: seq<TermRecord>)
  {
    forall i, j :: 0 <= i < j < |terms| ==> Less(terms[i].term, terms[j].term)
  }

  ghost predicate AllInOrder(fields: seq<FieldRecord>)
  {
    forall i :: 0 <= i < |fields| ==> InOrder(fields[i].terms)
  }

  // ----- contents that the widths of the format can hold -----

  ghost predicate TermFits(t: TermRecord)
  {
    |t.term| < U32 && t.df < U32 && t.totalTf < U64
  }

  ghost predicate FieldFits(f: FieldRecord)
  {
    && |f.name| < U32 && f.docCount < U32 && f.sumFieldLength < U64 && |f.terms| < U64
    && f.boost < U32 && f.positionDecay < U32
    && forall k :: 0 <= k < |f.terms| ==> TermFits(f.terms[k])
  }

  ghost predicate Fits(c: Content)
  {
    && c.docCount < U32 && |c.blobs| == c.docCount && |c.fields| < U32
    && (forall i :: 0 <= i < |c.fields| ==> FieldFits(c.fields[i]))
    && |Dictionaries(c.fields)| < U64 && |Postings(c.fields)| < U64 && |StoredBytes(c.blobs)| < U64
    && (forall d :: 0 <= d < |c.blobs| ==> |c.blobs[d]| < U32)
    && (c.quality.Some? ==> |c.quality.value| == c.docCount && forall d :: 0 <= d < c.docCount ==> c.quality.value[d] < U32)
  }
}

/** Opening what was sealed gives back every record. */
module SegmentRoundTrip {
  import opened Base
  import opened PostingFormat
  import opened SegmentFormat
  import opened SegmentReaders
  import LittleEndian
  import VarByte

  // ----- the reader that should come out -----

  function Entries(terms: seq<TermRecord>, offset: nat): (es: seq<TermEntry>)
    ensures |es| == |terms|
  {
    if terms == [] then []
    else
      var t := terms[0];
      [TermEntry(t.term, t.df, t.totalTf, offset, |t.list|)] + Entries(terms[1..], offset + |t.list|)
  }

  function FieldReads(fields: seq<FieldRecord>, timOffset: nat, docOffset: nat): (r: seq<FieldRead>)
    ensures |r| == |fields|
  {
    if fields == [] then []
    else
      var f := fields[0];
      [FieldRead(StatsOf(f, timOffset, docOffset), Entries(f.terms, 0))]
      + FieldReads(fields[1..], timOffset + |Dictionary(f.terms, 0)|, docOffset + |Lists(f.terms)|)
  }

  function ReaderOf(c: Content): SegmentReader
  {
    SegmentReader(c.docCount, FieldReads(c.fields, 0, 0), Postings(c.fields), StoredBytes(c.blobs), Offsets(c.blobs, 0),
                  if c.quality.Some? then c.quality.value else [])
  }

  // ----- single reads -----

  lemma {:induction false} Shrink(s: string, pos: nat, end: nat, e: string)
    requires At(s, pos, end, e)
    ensures At(s, pos, pos + |e|, e)
  {
    AtSlice(s, pos, end, e);
    AtSlice(s, pos, pos + |e|, e);
  }

  lemma {:induction false} WordBack(v: nat, n: nat, s: string, pos: nat)
    requires At(s, pos, |s|, LittleEndian.Word(v, n)) && v < LittleEndian.Capacity(n)
    ensures ReadWord(s, pos, n) == Some((v, pos + n))
  {
    LittleEndian.ValueOfWord(v, n, s, pos, |s|);
  }

  lemma {:induction false} VarBack(v: nat, s: string, pos: nat, end: nat, width: VarByte.Width)
    requires At(s, pos, end, VarByte.Encoding(v)) && VarByte.Fits(v, width)
    ensures ReadVar(s, pos, end, width) == Some((v, pos + |VarByte.Encoding(v)|))
  {
    VarByte.RoundTrip(v, s, pos, end, width);
  }

  lemma {:induction false} StrBack(t: string, s: string, pos: nat, end: nat)
    requires At(s, pos, end, Str(t)) && |t| < U32
    ensures ReadStr(s, pos, end) == Some((t, pos + |Str(t)|))
  {
    AtSplit(s, pos, end, VarByte.Encoding(|t|), t);
    VarBack(|t|, s, pos, end, VarByte.W32);
    AtSlice(s, pos + |VarByte.Encoding(|t|)|, end, t);
  }

  /** A string is read back exactly when its length fits 32 bits. */
  lemma {:induction false} StringLimit(t: string)
    ensures ReadStr(Str(t), 0, |Str(t)|) == Some((t, |Str(t)|)) <==> |t| < U32
  {
    var s := Str(t);
    AtWhole(s);
    if |t| < U32 {
      StrBack(t, s, 0, |s|);
    } else {
      var n := Mod32(|t|);
      AtSplit(s, 0, |s|, VarByte.Encoding(n), t);
      VarBack(n, s, 0, |s|, VarByte.W32);
    }
  }

  /** The shortest such string is read back as the empty one. */
  lemma {:induction false} LongString()
    ensures var t := seq(U32, _ => 'a'); ReadStr(Str(t), 0, |Str(t)|) == Some(("", 1))
  {
    var t := seq(U32, _ => 'a');
    var s := Str(t);
    AtWhole(s);
    assert Mod32(|t|) == 0 && VarByte.Encoding(0) == [0 as char];
    AtSplit(s, 0, |s|, VarByte.Encoding(0), t);
    VarBack(0, s, 0, |s|, VarByte.W32);
    assert s[1..1] == "";
  }

  lemma {:induction false} TailBack(fs: FieldStats, s: string, pos: nat)
    requires At(s, pos, |s|, FieldTail(fs)) && fs.boost < U32 && fs.positionDecay < U32
    ensures ReadTail(s, pos) == Some(((fs.boost, fs.positionDecay, fs.layout), pos + |FieldTail(fs)|))
  {
    LittleEndian.Capacities();
    var flags := [Flag(fs.layout.hasPositions), Flag(fs.layout.hasTokenWeights)];
    AtSplit(s, pos, |s|, LittleEndian.Word(fs.boost, 4), LittleEndian.Word(fs.positionDecay, 4) + flags);
    AtSplit(s, pos + 4, |s|, LittleEndian.Word(fs.positionDecay, 4), flags);
    WordBack(fs.boost, 4, s, pos);
    WordBack(fs.positionDecay, 4, s, pos + 4);
    AtChar(s, pos + 8, |s|, flags, 0);
    AtChar(s, pos + 8, |s|, flags, 1);
  }

  ghost predicate StatsFit(fs: FieldStats)
  {
    && |fs.name| < U32 && fs.docCount < U32 && fs.sumFieldLength < U64 && fs.termCount < U64
    && fs.timOffset < U64 && fs.timSize < U64 && fs.docOffset < U64 && fs.docSize < U64
    && fs.boost < U32 && fs.positionDecay < U32
  }

  /** One encoded number in front of a rest. */
  lemma {:induction false} NumberBack(v: nat, rest: string, s: string, pos: nat, end: nat, width: VarByte.Width) returns (next: nat)
    requires At(s, pos, end, VarByte.Encoding(v) + rest) && VarByte.Fits(v, width)
    ensures next == pos + |VarByte.Encoding(v)| <= end <= |s|
    ensures ReadVar(s, pos, end, width) == Some((v, next)) && At(s, next, end, rest)
    ensures next + |rest| == pos + |VarByte.Encoding(v) + rest|
  {
    AtSplit(s, pos, end, VarByte.Encoding(v), rest);
    VarBack(v, s, pos, end, width);
    next := pos + |VarByte.Encoding(v)|;
  }

  lemma {:induction false} FieldBack(fs: FieldStats, s: string, pos: nat)
    requires At(s, pos, |s|, FieldBytes(fs)) && StatsFit(fs)
    ensures ReadField(s, pos) == Some((fs, pos + |FieldBytes(fs)|))
  {
    hide At, VarByte.Encoding, VarByte.DecodeSpec, FieldTail, ReadTail, ReadVar, ReadStr, Str;
    var r7 := VarByte.Encoding(fs.docSize) + FieldTail(fs);
    var r6 := VarByte.Encoding(fs.docOffset) + r7;
    var r5 := VarByte.Encoding(fs.timSize) + r6;
    var r4 := VarByte.Encoding(fs.timOffset) + r5;
    var r3 := VarByte.Encoding(fs.termCount) + r4;
    var r2 := VarByte.Encoding(fs.sumFieldLength) + r3;
    var r1 := VarByte.Encoding(fs.docCount) + r2;
    AtSplit(s, pos, |s|, Str(fs.name), r1);
    StrBack(fs.name, s, pos, |s|);
    var p1 := NumberBack(fs.docCount, r2, s, pos + |Str(fs.name)|, |s|, VarByte.W32);
    var p2 := NumberBack(fs.sumFieldLength, r3, s, p1, |s|, VarByte.W64);
    var p3 := NumberBack(fs.termCount, r4, s, p2, |s|, VarByte.W64);
    var p4 := NumberBack(fs.timOffset, r5, s, p3, |s|, VarByte.W64);
    var p5 := NumberBack(fs.timSize, r6, s, p4, |s|, VarByte.W64);
    var p6 := NumberBack(fs.docOffset, r7, s, p5, |s|, VarByte.W64);
    var p7 := NumberBack(fs.docSize, FieldTail(fs), s, p6, |s|, VarByte.W64);
    TailBack(fs, s, p7);
  }

  // One step of each reading loop.

  lemma {:induction false} FieldsStep(s: string, pos: nat, count: nat, done: seq<FieldStats>, fs: FieldStats, p: nat)
    requires pos <= |s| && count > 0 && ReadField(s, pos) == Some((fs, p))
    ensures p <= |s| && ReadFields(s, pos, count, done) == ReadFields(s, p, count - 1, done + [fs])
  {
    assert ReadField(s, pos).value == (fs, p);
  }

  lemma {:induction false} TermsStep(s: string, pos: nat, end: nat, done: seq<TermEntry>, te: TermEntry, p: nat)
    requires pos < end <= |s| && ReadTerm(s, pos, end) == Some((te, p))
    ensures p <= end && ReadTerms(s, pos, end, done) == ReadTerms(s, p, end, done + [te])
  {
    assert ReadTerm(s, pos, end).value == (te, p);
  }

  lemma {:induction false} DictionariesStep(s: string, stats: seq<FieldStats>, done: seq<FieldRead>, f: FieldRead)
    requires stats != [] && ReadDictionary(s, stats[0]) == Some(f)
    ensures ReadDictionaries(s, stats, done) == ReadDictionaries(s, stats[1..], done + [f])
  {
  }

  lemma {:induction false} FieldsBack(stats: seq<FieldStats>, done: seq<FieldStats>, s: string, pos: nat)
    requires At(s, pos, |s|, FieldTable(stats)) && forall i :: 0 <= i < |stats| ==> StatsFit(stats[i])
    ensures ReadFields(s, pos, |stats|, done) == Some(done + stats)
    decreases stats
  {
    hide FieldBytes, ReadField, StatsFit;
    if stats == [] {
      assert done + stats == done;
    } else {
      hide ReadFields;
      AtSplit(s, pos, |s|, FieldBytes(stats[0]), FieldTable(stats[1..]));
      FieldBack(stats[0], s, pos);
      FieldsStep(s, pos, |stats|, done, stats[0], pos + |FieldBytes(stats[0])|);
      FirstMoved(done, stats);
      FieldsBack(stats[1..], done + [stats[0]], s, pos + |FieldBytes(stats[0])|);
    }
  }

  lemma {:induction false} InfoBack(docCount: nat, stats: seq<FieldStats>)
    requires docCount < U32 && |stats| < U32 && forall i :: 0 <= i < |stats| ==> StatsFit(stats[i])
    ensures ReadInfo(Info(docCount, stats)) == Some((docCount, stats))
  {
    hide At, VarByte.Encoding, VarByte.DecodeSpec, FieldTable, ReadFields, ReadVar, ReadStr, Str, LittleEndian.Word, LittleEndian.Value, ReadWord;
    LittleEndian.Capacities();
    var s := Info(docCount, stats);
    AtWhole(s);
    var count := VarByte.Encoding(|stats|);
    var r3 := Str(FINGERPRINT) + (count + FieldTable(stats));
    var r2 := LittleEndian.Word(docCount, 8) + r3;
    var r1 := LittleEndian.Word(VERSION, 4) + r2;
    AtSplit(s, 0, |s|, LittleEndian.Word(MAGIC, 4), r1);
    AtSplit(s, 4, |s|, LittleEndian.Word(VERSION, 4), r2);
    AtSplit(s, 8, |s|, LittleEndian.Word(docCount, 8), r3);
    AtSplit(s, 16, |s|, Str(FINGERPRINT), count + FieldTable(stats));
    WordBack(MAGIC, 4, s, 0);
    WordBack(VERSION, 4, s, 4);
    WordBack(docCount, 8, s, 8);
    StrBack(FINGERPRINT, s, 16, |s|);
    var p := NumberBack(|stats|, FieldTable(stats), s, 16 + |Str(FINGERPRINT)|, |s|, VarByte.W32);
    FieldsBack(stats, [], s, p);
    assert [] + stats == stats;
  }

  // ----- dictionaries -----

  lemma {:induction false} TermBack(t: TermRecord, offset: nat, s: string, pos: nat, end: nat)
    requires At(s, pos, end, TermBytes(t, offset)) && TermFits(t) && offset < U64 && |t.list| < U64
    ensures ReadTerm(s, pos, end)
         == Some((TermEntry(t.term, t.df, t.totalTf, offset, |t.list|), pos + |TermBytes(t, offset)|))
  {
    hide At, VarByte.Encoding, VarByte.DecodeSpec, ReadVar, ReadStr, Str;
    var size := VarByte.Encoding(|t.list|);
    var r3 := VarByte.Encoding(offset) + size;
    var r2 := VarByte.Encoding(t.totalTf) + r3;
    var r1 := VarByte.Encoding(t.df) + r2;
    AtSplit(s, pos, end, Str(t.term), r1);
    StrBack(t.term, s, pos, end);
    var p1 := NumberBack(t.df, r2, s, pos + |Str(t.term)|, end, VarByte.W32);
    var p2 := NumberBack(t.totalTf, r3, s, p1, end, VarByte.W64);
    var p3 := NumberBack(offset, size, s, p2, end, VarByte.W64);
    VarBack(|t.list|, s, p3, end, VarByte.W64);
  }

  lemma {:induction false} TermsBack(terms: seq<TermRecord>, offset: nat, done: seq<TermEntry>, s: string, pos: nat, end: nat)
    requires At(s, pos, end, Dictionary(terms, offset)) && pos + |Dictionary(terms, offset)| == end
    requires offset + |Lists(terms)| < U64 && forall k :: 0 <= k < |terms| ==> TermFits(terms[k])
    ensures ReadTerms(s, pos, end, done) == Some(done + Entries(terms, offset))
    decreases terms
  {
    hide TermBytes, ReadTerm, TermFits;
    if terms == [] {
      assert done + Entries(terms, offset) == done;
    } else {
      hide ReadTerms;
      AtSplit(s, pos, end, TermBytes(terms[0], offset), Dictionary(terms[1..], offset + |terms[0].list|));
      TermBack(terms[0], offset, s, pos, end);
      TermsStep(s, pos, end, done, Entries(terms, offset)[0], pos + |TermBytes(terms[0], offset)|);
      FirstMoved(done, Entries(terms, offset));
      TermsBack(terms[1..], offset + |terms[0].list|, done + [Entries(terms, offset)[0]],
                s, pos + |TermBytes(terms[0], offset)|, end);
    }
  }

  lemma {:induction false} SliceOfSlice(s: string, a: nat, b: nat, t: string, i: nat, j: nat)
    requires a <= b <= |s| && s[a..b] == t && i <= j <= |t|
    ensures s[a + i..a + j] == t[i..j]
  {
    var x, y := s[a + i..a + j], t[i..j];
    forall k | 0 <= k < j - i ensures x[k] == y[k] {
      assert s[a..b][i + k] == s[a + i + k];
    }
  }

  lemma {:induction false} AfterPrefix(a: string, b: string, i: nat, j: nat)
    requires i <= j <= |b|
    ensures (a + b)[|a| + i..|a| + j] == b[i..j]
  {
  }

  lemma {:induction false} EntryAt(terms: seq<TermRecord>, offset: nat, k: nat)
    requires k < |terms|
    ensures var e := Entries(terms, offset)[k];
      && e.term == terms[k].term && e.df == terms[k].df && e.totalTf == terms[k].totalTf && e.size == |terms[k].list|
  {
    if k > 0 { EntryAt(terms[1..], offset + |terms[0].list|, k - 1); }
  }

  lemma {:induction false} EntryStep(terms: seq<TermRecord>, offset: nat, k: nat) returns (e: TermEntry)
    requires 0 < k < |terms|
    ensures Lists(terms) == terms[0].list + Lists(terms[1..])
    ensures e == Entries(terms, offset)[k] == Entries(terms[1..], offset + |terms[0].list|)[k - 1]
  {
    e := Entries(terms, offset)[k];
  }

  lemma {:induction false} FirstPlace(terms: seq<TermRecord>, offset: nat)
    requires terms != []
    ensures Entries(terms, offset)[0].offset == offset && Entries(terms, offset)[0].size == |terms[0].list| <= |Lists(terms)|
    ensures Lists(terms)[0..|terms[0].list|] == terms[0].list
  {
  }

  /** The entry's range in the field's posting bytes. */
  lemma {:induction false} EntryPlace(terms: seq<TermRecord>, offset: nat, k: nat)
    requires k < |terms|
    ensures var e := Entries(terms, offset)[k];
      && offset <= e.offset && e.offset + e.size <= offset + |Lists(terms)|
      && Lists(terms)[e.offset - offset..e.offset - offset + e.size] == terms[k].list
  {
    hide Entries, Lists;
    if k == 0 {
      FirstPlace(terms, offset);
    } else {
      var first, rest := terms[0].list, Lists(terms[1..]);
      var e := EntryStep(terms, offset, k);
      EntryPlace(terms[1..], offset + |first|, k - 1);
      var at := e.offset - offset - |first|;
      AfterPrefix(first, rest, at, at + e.size);
    }
  }

  /** A dictionary in order needs no sorting. */
  lemma {:induction false} NoSorting(terms: seq<TermRecord>, n: nat)
    requires InOrder(terms) && n <= |terms|
    ensures IsSorted(Entries(terms, 0)[..n])
  {
    var es := Entries(terms, 0);
    if n >= 2 {
      NoSorting(terms, n - 1);
      EntryAt(terms, 0, n - 1);
      EntryAt(terms, 0, n - 2);
      assert es[..n][..n - 1] == es[..n - 1];
      var a, b := terms[n - 2].term, terms[n - 1].term;
      assert Less(a, b);
      if Less(b, a) {
        LessTransitive(a, b, a);
        LessIrreflexive(a);
      }
    }
  }

  lemma {:induction false} DictionaryBack(f: FieldRecord, s: string, timOffset: nat, docOffset: nat)
    requires At(s, timOffset, |s|, Dictionary(f.terms, 0)) && FieldFits(f) && InOrder(f.terms)
    requires |Lists(f.terms)| < U64
    ensures ReadDictionary(s, StatsOf(f, timOffset, docOffset))
         == Some(FieldRead(StatsOf(f, timOffset, docOffset), Entries(f.terms, 0)))
  {
    hide ReadTerms, Dictionary, Lists, InOrder, TermFits, IsSorted, SortTerms;
    Shrink(s, timOffset, |s|, Dictionary(f.terms, 0));
    TermsBack(f.terms, 0, [], s, timOffset, timOffset + |Dictionary(f.terms, 0)|);
    var es := Entries(f.terms, 0);
    assert [] + es == es;
    NoSorting(f.terms, |f.terms|);
    assert es[..|f.terms|] == es;
  }

  lemma {:induction false} DictionariesBack(fields: seq<FieldRecord>, done: seq<FieldRead>, s: string, timOffset: nat, docOffset: nat)
    requires At(s, timOffset, |s|, Dictionaries(fields)) && AllInOrder(fields)
    requires forall i :: 0 <= i < |fields| ==> FieldFits(fields[i])
    requires |Postings(fields)| < U64
    ensures ReadDictionaries(s, AllStats(fields, timOffset, docOffset), done)
         == Some(done + FieldReads(fields, timOffset, docOffset))
    decreases fields
  {
    hide ReadDictionary, Dictionary, Lists, InOrder, FieldFits, StatsOf;
    var wanted := FieldReads(fields, timOffset, docOffset);
    if fields == [] {
      assert done + wanted == done;
    } else {
      hide ReadDictionaries;
      var f, rest := fields[0], fields[1..];
      AtSplit(s, timOffset, |s|, Dictionary(f.terms, 0), Dictionaries(rest));
      DictionaryBack(f, s, timOffset, docOffset);
      DictionariesStep(s, AllStats(fields, timOffset, docOffset), done, wanted[0]);
      FirstMoved(done, wanted);
      DictionariesBack(rest, done + [wanted[0]], s, timOffset + |Dictionary(f.terms, 0)|, docOffset + |Lists(f.terms)|);
    }
  }

  // ----- the other files -----

  lemma {:induction false} WordsBack(values: seq<nat>, n: nat, done: seq<nat>, s: string, pos: nat)
    requires At(s, pos, |s|, Words(values, n)) && forall i :: 0 <= i < |values| ==> values[i] < LittleEndian.Capacity(n)
    ensures ReadWords(s, pos, n, |values|, done) == Some(done + values)
    decreases values
  {
    if values == [] {
      assert done + values == done;
    } else {
      AtSplit(s, pos, |s|, LittleEndian.Word(values[0], n), Words(values[1..], n));
      WordBack(values[0], n, s, pos);
      FirstMoved(done, values);
      WordsBack(values[1..], n, done + [values[0]], s, pos + n);
    }
  }

  lemma {:induction false} OffsetBelow(blobs: seq<string>, start: nat, d: nat)
    requires d < |blobs|
    ensures Offsets(blobs, start)[d] < start + |StoredBytes(blobs)|
  {
    if d > 0 { OffsetBelow(blobs[1..], start + |Str(blobs[0])|, d - 1); }
  }

  lemma {:induction false} StoredIndexBack(blobs: seq<string>)
    requires |StoredBytes(blobs)| < U64 && |blobs| < U32
    ensures ReadStoredIndex(StoredIndex(blobs), |blobs|) == Some(Offsets(blobs, 0))
  {
    hide Words, ReadWords, Offsets;
    LittleEndian.Capacities();
    var s, offsets := StoredIndex(blobs), Offsets(blobs, 0);
    AtWhole(s);
    AtSplit(s, 0, |s|, LittleEndian.Word(|blobs|, 8), Words(offsets, 8));
    WordBack(|blobs|, 8, s, 0);
    forall d | 0 <= d < |offsets| ensures offsets[d] < LittleEndian.Capacity(8) { OffsetBelow(blobs, 0, d); }
    WordsBack(offsets, 8, [], s, 8);
    assert [] + offsets == offsets;
  }

  lemma {:induction false} QualityBack(docCount: nat, quality: seq<nat>)
    requires docCount < U32 && |quality| == docCount && forall d :: 0 <= d < |quality| ==> quality[d] < U32
    ensures ReadQuality(Some(QualityBytes(docCount, quality)), docCount) == Some(quality)
  {
    hide Words, ReadWords;
    LittleEndian.Capacities();
    var s := QualityBytes(docCount, quality);
    AtWhole(s);
    AtSplit(s, 0, |s|, LittleEndian.Word(QUALITY_MAGIC, 4), LittleEndian.Word(docCount, 4) + Words(quality, 4));
    AtSplit(s, 4, |s|, LittleEndian.Word(docCount, 4), Words(quality, 4));
    WordBack(QUALITY_MAGIC, 4, s, 0);
    WordBack(docCount, 4, s, 4);
    WordsBack(quality, 4, [], s, 8);
    assert [] + quality == quality;
  }

  lemma {:induction false} StatsFitAll(fields: seq<FieldRecord>, timOffset: nat, docOffset: nat, i: nat)
    requires i < |fields| && FieldFits(fields[i])
    requires timOffset + |Dictionaries(fields)| < U64 && docOffset + |Postings(fields)| < U64
    ensures StatsFit(AllStats(fields, timOffset, docOffset)[i])
  {
    if i > 0 {
      StatsFitAll(fields[1..], timOffset + |Dictionary(fields[0].terms, 0)|, docOffset + |Lists(fields[0].terms)|, i - 1);
    }
  }

  /** Opening the files of a segment gives the reader with all its records. */
  lemma {:induction false} OpenBack(files: map<string, string>, stem: string, c: Content)
    requires Holds(files, stem, c) && Fits(c) && AllInOrder(c.fields)
    ensures OpenSpec(files, stem) == Opened(ReaderOf(c))
  {
    hide ReadInfo, ReadDictionaries, ReadStoredIndex, ReadQuality, Info, Dictionaries, Postings, StoredBytes, StoredIndex,
         QualityBytes, FieldFits, AllStats, FieldReads, Offsets, StatsFit;
    var stats := AllStats(c.fields, 0, 0);
    forall i | 0 <= i < |stats| ensures StatsFit(stats[i]) { StatsFitAll(c.fields, 0, 0, i); }
    InfoBack(c.docCount, stats);
    AtWhole(Dictionaries(c.fields));
    DictionariesBack(c.fields, [], Dictionaries(c.fields), 0, 0);
    assert [] + FieldReads(c.fields, 0, 0) == FieldReads(c.fields, 0, 0);
    StoredIndexBack(c.blobs);
    if c.quality.Some? {
      QualityBack(c.docCount, c.quality.value);
    } else {
      NoQuality(c.docCount);
    }
  }

  lemma {:induction false} NoQuality(docCount: nat)
    ensures ReadQuality(None, docCount) == Some([])
  {
  }

  // ----- what can be looked up in it -----

  /** Field i of the reader: its statistics and where its lists are. */
  lemma {:induction false} FieldAt(fields: seq<FieldRecord>, timOffset: nat, docOffset: nat, i: nat)
    requires i < |fields|
    ensures var r, f := FieldReads(fields, timOffset, docOffset)[i], fields[i];
      && r.terms == Entries(f.terms, 0) && r.stats == StatsOf(f, r.stats.timOffset, r.stats.docOffset)
      && docOffset <= r.stats.docOffset && r.stats.docOffset + |Lists(f.terms)| <= docOffset + |Postings(fields)|
      && Postings(fields)[r.stats.docOffset - docOffset..r.stats.docOffset - docOffset + |Lists(f.terms)|] == Lists(f.terms)
  {
    hide Entries, Lists, Dictionary;
    if i > 0 {
      var rest := fields[1..];
      var tim, doc := timOffset + |Dictionary(fields[0].terms, 0)|, docOffset + |Lists(fields[0].terms)|;
      FieldAt(rest, tim, doc, i - 1);
      var at := FieldReads(rest, tim, doc)[i - 1].stats.docOffset - doc;
      AfterPrefix(Lists(fields[0].terms), Postings(rest), at, at + |Lists(fields[i].terms)|);
    }
  }

  /** The dictionary entry of a record, and its posting bytes. */
  lemma {:induction false} TermLookUp(c: Content, i: nat, k: nat)
    requires i < |c.fields| && k < |c.fields[i].terms|
    ensures var t, es := c.fields[i].terms[k], ReaderOf(c).fields[i].terms;
      && |es| == |c.fields[i].terms| && es[k].term == t.term && es[k].df == t.df && es[k].totalTf == t.totalTf
      && ReaderOf(c).PostingBytes(i, es[k]) == t.list
  {
    hide Lists, Postings, Dictionary, Dictionaries, Offsets, StoredBytes, Str, FieldReads, Entries;
    FieldAt(c.fields, 0, 0, i);
    EntryAt(c.fields[i].terms, 0, k);
    EntryPlace(c.fields[i].terms, 0, k);
    var r, e := FieldReads(c.fields, 0, 0)[i], Entries(c.fields[i].terms, 0)[k];
    var all := Lists(c.fields[i].terms);
    var start := r.stats.docOffset;
    assert Postings(c.fields)[start..start + |all|] == all;
    SliceOfSlice(Postings(c.fields), start, start + |all|, all, e.offset, e.offset + e.size);
    assert ReaderOf(c).PostingBytes(i, e) == Postings(c.fields)[start + e.offset..start + e.offset + e.size];
  }

  lemma {:induction false} BlobAt(blobs: seq<string>, start: nat, s: string, pos: nat, d: nat)
    requires d < |blobs| && At(s, pos, |s|, StoredBytes(blobs))
    ensures start <= Offsets(blobs, start)[d]
    ensures At(s, pos + (Offsets(blobs, start)[d] - start), |s|, Str(blobs[d]))
    decreases d
  {
    hide Str;
    AtSplit(s, pos, |s|, Str(blobs[0]), StoredBytes(blobs[1..]));
    if d > 0 {
      BlobAt(blobs[1..], start + |Str(blobs[0])|, s, pos + |Str(blobs[0])|, d - 1);
    }
  }

  /** Every stored blob and every quality comes back. */
  lemma {:induction false} DocumentLookUp(c: Content, d: nat)
    requires Fits(c) && d < c.docCount
    ensures ReaderOf(c).StoredFields(d) == c.blobs[d]
    ensures ReaderOf(c).DocQuality(d) == if c.quality.Some? then c.quality.value[d] else 0
  {
    hide FieldReads, Postings, FieldFits, ReadStr, Str;
    var s := StoredBytes(c.blobs);
    AtWhole(s);
    BlobAt(c.blobs, 0, s, 0, d);
    OffsetBelow(c.blobs, 0, d);
    StrBack(c.blobs[d], s, Offsets(c.blobs, 0)[d], |s|);
  }
}

/** Opening a sealed segment: what the reader makes of any files, and the
    look-ups on what it has read. */
module SegmentReaders {
  import opened Base
  import opened PostingFormat
  import opened SegmentFormat
  import LittleEndian
  import VarByte

  datatype TermEntry = TermEntry(term: string, df: nat, totalTf: nat, offset: nat, size: nat)

  datatype FieldRead = FieldRead(stats: FieldStats, terms: seq<TermEntry>)

  // ----- reading at a position; None is a corrupt file -----

  function ReadWord(s: string, pos: nat, n: nat): (r: Option<(nat, nat)>)
    requires pos <= |s|
    ensures r.Some? ==> pos <= r.value.1 <= |s|
  {
    if |s| - pos < n then None else Some((LittleEndian.Value(s, pos, n), pos + n))
  }

  function ReadVar(s: string, pos: nat, end: nat, width: VarByte.Width): (r: Option<(nat, nat)>)
    requires pos <= end <= |s|
    ensures r.Some? ==> pos < r.value.1 <= end
  {
    var d := VarByte.DecodeSpec(s, pos, end, width);
    match d.value case None => None case Some(v) => Some((v, d.pos))
  }

  /** ReadStrView. */
  function ReadStr(s: string, pos: nat, end: nat): (r: Option<(string, nat)>)
    requires pos <= end <= |s|
    ensures r.Some? ==> pos < r.value.1 <= end
  {
    var (n, p) :- ReadVar(s, pos, end, VarByte.W32);
    if end - p < n then None else Some((s[p..p + n], p + n))
  }

  /** The boost, the decay and the two flags. */
  function ReadTail(s: string, pos: nat): (r: Option<((nat, nat, Layout), nat)>)
    requires pos <= |s|
    ensures r.Some? ==> pos <= r.value.1 <= |s|
  {
    var (boost, p) :- ReadWord(s, pos, 4);
    var (decay, q) :- ReadWord(s, p, 4);
    if |s| - q < 2 then None
    else Some(((boost, decay, Layout(s[q] != 0 as char, s[q + 1] != 0 as char)), q + 2))
  }

  function ReadField(s: string, pos: nat): (r: Option<(FieldStats, nat)>)
    requires pos <= |s|
    ensures r.Some? ==> pos <= r.value.1 <= |s|
  {
    var (name, p0) :- ReadStr(s, pos, |s|);
    var (docCount, p1) :- ReadVar(s, p0, |s|, VarByte.W32);
    var (length, p2) :- ReadVar(s, p1, |s|, VarByte.W64);
    var (termCount, p3) :- ReadVar(s, p2, |s|, VarByte.W64);
    var (timOffset, p4) :- ReadVar(s, p3, |s|, VarByte.W64);
    var (timSize, p5) :- ReadVar(s, p4, |s|, VarByte.W64);
    var (docOffset, p6) :- ReadVar(s, p5, |s|, VarByte.W64);
    var (docSize, p7) :- ReadVar(s, p6, |s|, VarByte.W64);
    var (tail, p8) :- ReadTail(s, p7);
    Some((FieldStats(name, docCount, length, termCount, timOffset, timSize, docOffset, docSize,
                     tail.0, tail.1, tail.2), p8))
  }

  /** The next count fields. */
  function ReadFields(s: string, pos: nat, count: nat, done: seq<FieldStats>): Option<seq<FieldStats>>
    requires pos <= |s|
    decreases count
  {
    if count == 0 then Some(done)
    else
      var (fs, p) :- ReadField(s, pos);
      ReadFields(s, p, count - 1, done + [fs])
  }

  /** The .si file: the document count and the fields.  Bytes after the last
      field are ignored. */
  function ReadInfo(s: string): Option<(nat, seq<FieldStats>)>
  {
    var (magic, p) :- ReadWord(s, 0, 4);
    if magic != MAGIC then None else
    var (version, q) :- ReadWord(s, p, 4);
    if version != VERSION then None else
    var (docCount, a) :- ReadWord(s, q, 8);
    var (fingerprint, b) :- ReadStr(s, a, |s|);
    var (count, c) :- ReadVar(s, b, |s|, VarByte.W32);
    var fields :- ReadFields(s, c, count, []);
    Some((Mod32(docCount), fields))
  }

  function ReadTerm(s: string, pos: nat, end: nat): (r: Option<(TermEntry, nat)>)
    requires pos <= end <= |s|
    ensures r.Some? ==> pos < r.value.1 <= end
  {
    var (term, p0) :- ReadStr(s, pos, end);
    var (df, p1) :- ReadVar(s, p0, end, VarByte.W32);
    var (totalTf, p2) :- ReadVar(s, p1, end, VarByte.W64);
    var (offset, p3) :- ReadVar(s, p2, end, VarByte.W64);
    var (size, p4) :- ReadVar(s, p3, end, VarByte.W64);
    Some((TermEntry(term, df, totalTf, offset, size), p4))
  }

  /** The dictionary entries up to end. */
  function ReadTerms(s: string, pos: nat, end: nat, done: seq<TermEntry>): Option<seq<TermEntry>>
    requires pos <= end <= |s|
    decreases end - pos
  {
    if pos == end then Some(done)
    else
      var (te, p) :- ReadTerm(s, pos, end);
      ReadTerms(s, p, end, done + [te])
  }

  predicate IsSorted(terms: seq<TermEntry>)
  {
    var n := |terms|;
    n < 2 || (!Less(terms[n - 1].term, terms[n - 2].term) && IsSorted(terms[..n - 1]))
  }

  function InsertTerm(te: TermEntry, sorted: seq<TermEntry>): seq<TermEntry>
  {
    if sorted == [] then [te]
    else if Less(te.term, sorted[0].term) then [te] + sorted
    else [sorted[0]] + InsertTerm(te, sorted[1..])
  }

  /** The dictionary in order. */
  function SortTerms(terms: seq<TermEntry>): seq<TermEntry>
  {
    if terms == [] then [] else InsertTerm(terms[|terms| - 1], SortTerms(terms[..|terms| - 1]))
  }

  /** The writer's order is trusted only if it checks out. */
  function Arranged(terms: seq<TermEntry>): seq<TermEntry>
  {
    if IsSorted(terms) then terms else SortTerms(terms)
  }

  /** A field's part of the .tim file. */
  function ReadDictionary(s: string, fs: FieldStats): Option<FieldRead>
  {
    if fs.timOffset + fs.timSize > |s| then None
    else
      var terms :- ReadTerms(s, fs.timOffset, fs.timOffset + fs.timSize, []);
      Some(FieldRead(fs, Arranged(terms)))
  }

  function ReadDictionaries(s: string, stats: seq<FieldStats>, done: seq<FieldRead>): Option<seq<FieldRead>>
  {
    if stats == [] then Some(done)
    else
      var f :- ReadDictionary(s, stats[0]);
      ReadDictionaries(s, stats[1..], done + [f])
  }

  /** The next count words of n bytes. */
  function ReadWords(s: string, pos: nat, n: nat, count: nat, done: seq<nat>): Option<seq<nat>>
    requires pos <= |s|
    decreases count
  {
    if count == 0 then Some(done)
    else
      var (v, p) :- ReadWord(s, pos, n);
      ReadWords(s, p, n, count - 1, done + [v])
  }

  /** The .fdx file, whose count must be that of the .si file. */
  function ReadStoredIndex(s: string, docCount: nat): Option<seq<nat>>
  {
    var (count, p) :- ReadWord(s, 0, 8);
    var offsets :- ReadWords(s, p, 8, count, []);
    if count != docCount then None else Some(offsets)
  }

  /** The .dvq file; a segment without one has no qualities. */
  function ReadQuality(file: Option<string>, docCount: nat): Option<seq<nat>>
  {
    if file.None? then Some([]) else
    var s := file.value;
    var (magic, p) :- ReadWord(s, 0, 4);
    if magic != QUALITY_MAGIC then None else
    var (count, q) :- ReadWord(s, p, 4);
    if count != docCount then None else ReadWords(s, q, 4, count, [])
  }

  // ----- an opened segment -----

  datatype SegmentReader = SegmentReader(
    docCount: nat, fields: seq<FieldRead>, docBuf: string, fdtBuf: string, fdxOffsets: seq<nat>, docQuality: seq<nat>)
  {
    /** What Open leaves: dictionaries in order. */
    ghost predicate Valid()
    {
      forall i :: 0 <= i < |fields| ==> Ascending(fields[i].terms)
    }

    /** GetFieldId. */
    method GetFieldId(name: string) returns (id: Option<nat>)
      ensures id.Some? ==> id.value < |fields| && fields[id.value].stats.name == name
      ensures id.Some? ==> forall i :: 0 <= i < id.value ==> fields[i].stats.name != name
      ensures id.None? ==> forall i :: 0 <= i < |fields| ==> fields[i].stats.name != name
    {
      for i := 0 to |fields|
        invariant forall k :: 0 <= k < i ==> fields[k].stats.name != name
      {
        if fields[i].stats.name == name { return Some(i); }
      }
      return None;
    }

    /** FindTerm: binary search for the first entry that is not below the
        term. */
    method FindTerm(fieldId: nat, term: string) returns (r: Option<TermEntry>)
      requires Valid()
      ensures r.Some? ==> fieldId < |fields| && r.value in fields[fieldId].terms && r.value.term == term
      ensures r.None? && fieldId < |fields| ==>
        forall k :: 0 <= k < |fields[fieldId].terms| ==> fields[fieldId].terms[k].term != term
    {
      if fieldId >= |fields| { return None; }
      var terms := fields[fieldId].terms;
      var lo, hi := 0, |terms|;
      while lo < hi
        invariant 0 <= lo <= hi <= |terms|
        invariant forall k :: 0 <= k < lo ==> Less(terms[k].term, term)
        invariant forall k :: hi <= k < |terms| ==> !Less(terms[k].term, term)
      {
        var mid := lo + (hi - lo) / 2;
        if Less(terms[mid].term, term) {
          BelowAll(terms, mid, term);
          lo := mid + 1;
        } else {
          AboveAll(terms, mid, term);
          hi := mid;
        }
      }
      if lo == |terms| || terms[lo].term != term {
        NotFound(terms, lo, term);
        return None;
      }
      return Some(terms[lo]);
    }

    /** PostingBytes: nothing for an entry that points outside the file. */
    function PostingBytes(fieldId: nat, te: TermEntry): string
    {
      if fieldId >= |fields| then ""
      else
        var start := fields[fieldId].stats.docOffset + te.offset;
        if start + te.size > |docBuf| then "" else docBuf[start..start + te.size]
    }

    function DocQuality(id: nat): nat
    {
      if id >= |docQuality| then 0 else docQuality[id]
    }

    /** StoredFields: nothing when the document or its bytes are missing. */
    function StoredFields(id: nat): string
    {
      if id >= |fdxOffsets| || fdxOffsets[id] >= |fdtBuf| then ""
      else match ReadStr(fdtBuf, fdxOffsets[id], |fdtBuf|)
        case None => ""
        case Some(r) => r.0
    }
  }

  ghost predicate Ascending(terms: seq<TermEntry>)
  {
    forall i, j :: 0 <= i < j < |terms| ==> !Less(terms[j].term, terms[i].term)
  }

  lemma {:induction false} BelowAll(terms: seq<TermEntry>, mid: nat, term: string)
    requires Ascending(terms) && mid < |terms| && Less(terms[mid].term, term)
    ensures forall k :: 0 <= k <= mid ==> Less(terms[k].term, term)
  {
    forall k | 0 <= k < mid ensures Less(terms[k].term, term) {
      LessTotal(terms[k].term, terms[mid].term);
      if terms[k].term != terms[mid].term { LessTransitive(terms[k].term, terms[mid].term, term); }
    }
  }

  lemma {:induction false} AboveAll(terms: seq<TermEntry>, mid: nat, term: string)
    requires Ascending(terms) && mid < |terms| && !Less(terms[mid].term, term)
    ensures forall k :: mid <= k < |terms| ==> !Less(terms[k].term, term)
  {
    forall k | mid < k < |terms| ensures !Less(terms[k].term, term) {
      if Less(terms[k].term, term) {
        BelowAll(terms, k, term);
      }
    }
  }

  lemma {:induction false} NotFound(terms: seq<TermEntry>, lo: nat, term: string)
    requires Ascending(terms) && lo <= |terms| && (lo < |terms| ==> terms[lo].term != term)
    requires forall k :: 0 <= k < lo ==> Less(terms[k].term, term)
    requires forall k :: lo <= k < |terms| ==> !Less(terms[k].term, term)
    ensures forall k :: 0 <= k < |terms| ==> terms[k].term != term
  {
    LessIrreflexive(term);
    forall k | lo < k < |terms| ensures terms[k].term != term {
      LessTotal(terms[lo].term, term);
      assert !Less(terms[k].term, terms[lo].term);
    }
  }

  datatype Opened = Opened(reader: SegmentReader) | Missing | Corrupt

  function FileOf(files: map<string, string>, name: string): Option<string>
  {
    if name in files then Some(files[name]) else None
  }

  /** What Open returns for any directory. */
  function OpenSpec(files: map<string, string>, stem: string): Opened
  {
    var si, tim, doc := FileOf(files, stem + INFO_EXT), FileOf(files, stem + TERMS_EXT), FileOf(files, stem + POSTINGS_EXT);
    var fdt, fdx := FileOf(files, stem + STORED_EXT), FileOf(files, stem + STORED_INDEX_EXT);
    if si == None || tim == None || doc == None || fdt == None || fdx == None then Missing
    else match ReadFiles(si.value, tim.value, doc.value, fdt.value, fdx.value, FileOf(files, stem + QUALITY_EXT))
      case None => Corrupt
      case Some(r) => Opened(r)
  }

  function ReadFiles(si: string, tim: string, doc: string, fdt: string, fdx: string, dvq: Option<string>): Option<SegmentReader>
  {
    var info :- ReadInfo(si);
    var fields :- ReadDictionaries(tim, info.1, []);
    var offsets :- ReadStoredIndex(fdx, info.0);
    var quality :- ReadQuality(dvq, info.0);
    Some(SegmentReader(info.0, fields, doc, fdt, offsets, quality))
  }

  // ----- the dictionary is in order -----

  lemma {:induction false} NotBelow(x: string, y: string, z: string)
    requires !Less(x, y) && Less(z, y)
    ensures !Less(x, z)
  {
    if Less(x, z) { LessTransitive(x, z, y); }
  }

  lemma {:induction false} InsertTermKeeps(te: TermEntry, sorted: seq<TermEntry>)
    requires Ascending(sorted)
    ensures Ascending(InsertTerm(te, sorted))
    ensures multiset(InsertTerm(te, sorted)) == multiset(sorted) + multiset{te}
  {
    if sorted == [] {
    } else if Less(te.term, sorted[0].term) {
      var r := [te] + sorted;
      forall i, j | 0 <= i < j < |r| ensures !Less(r[j].term, r[i].term) {
        if i == 0 {
          if j == 1 { LessIrreflexive(sorted[0].term); } else { assert !Less(sorted[j - 1].term, sorted[0].term); }
          NotBelow(sorted[j - 1].term, sorted[0].term, te.term);
        }
      }
    } else {
      var rest := sorted[1..];
      assert sorted == [sorted[0]] + rest;
      InsertTermKeeps(te, rest);
      var tail := InsertTerm(te, rest);
      var r := [sorted[0]] + tail;
      forall i, j | 0 <= i < j < |r| ensures !Less(r[j].term, r[i].term) {
        if i == 0 {
          assert r[j] in multiset(tail);
          if r[j] != te {
            assert r[j] in rest;
            var k :| 0 <= k < |rest| && rest[k] == r[j];
            assert rest[k] == sorted[k + 1];
          }
        }
      }
    }
  }

  lemma {:induction false} SortTermsKeeps(terms: seq<TermEntry>)
    ensures Ascending(SortTerms(terms)) && multiset(SortTerms(terms)) == multiset(terms)
  {
    if terms != [] {
      var n := |terms| - 1;
      SortTermsKeeps(terms[..n]);
      InsertTermKeeps(terms[n], SortTerms(terms[..n]));
      assert terms == terms[..n] + [terms[n]];
    }
  }

  lemma {:induction false} SortedAscends(terms: seq<TermEntry>)
    requires IsSorted(terms)
    ensures Ascending(terms)
  {
    var n := |terms|;
    if n >= 2 {
      var rest := terms[..n - 1];
      SortedAscends(rest);
      forall i, j | 0 <= i < j < n ensures !Less(terms[j].term, terms[i].term) {
        if j == n - 1 {
          assert i < n - 2 ==> !Less(rest[n - 2].term, rest[i].term);
          if i < n - 2 { NotBelowTwice(terms[j].term, terms[n - 2].term, terms[i].term); }
        } else {
          assert !Less(rest[j].term, rest[i].term);
        }
      }
    }
  }

  lemma {:induction false} NotBelowTwice(x: string, y: string, z: string)
    requires !Less(x, y) && !Less(y, z)
    ensures !Less(x, z)
  {
    LessTotal(y, z);
    if y != z { NotBelow(x, y, z); }
  }

  lemma {:induction false} InArrangement(terms: seq<TermEntry>)
    ensures Ascending(Arranged(terms)) && multiset(Arranged(terms)) == multiset(terms)
  {
    hide Ascending, SortTerms;
    SortTermsKeeps(terms);
    if IsSorted(terms) { SortedAscends(terms); }
  }

  /** Whatever the .tim file holds, the dictionary ends up in order with the
      entries that were read. */
  lemma {:induction false} DictionaryInOrder(s: string, fs: FieldStats)
    requires ReadDictionary(s, fs).Some?
    ensures Ascending(ReadDictionary(s, fs).value.terms)
    ensures multiset(ReadDictionary(s, fs).value.terms)
         == multiset(ReadTerms(s, fs.timOffset, fs.timOffset + fs.timSize, []).value)
  {
    hide ReadTerms, Ascending, Arranged;
    InArrangement(ReadTerms(s, fs.timOffset, fs.timOffset + fs.timSize, []).value);
  }

  lemma {:induction false} DictionariesInOrder(s: string, stats: seq<FieldStats>, done: seq<FieldRead>)
    requires ReadDictionaries(s, stats, done).Some?
    requires forall i :: 0 <= i < |done| ==> Ascending(done[i].terms)
    ensures forall i :: 0 <= i < |ReadDictionaries(s, stats, done).value|
              ==> Ascending(ReadDictionaries(s, stats, done).value[i].terms)
  {
    if stats != [] {
      DictionaryInOrder(s, stats[0]);
      DictionariesInOrder(s, stats[1..], done + [ReadDictionary(s, stats[0]).value]);
    }
  }

  /** A reader that Open returns is ready for look-ups. */
  lemma {:induction false} OpenedIsValid(files: map<string, string>, stem: string)
    requires OpenSpec(files, stem).Opened?
    ensures OpenSpec(files, stem).reader.Valid()
  {
    var si, tim := FileOf(files, stem + INFO_EXT).value, FileOf(files, stem + TERMS_EXT).value;
    DictionariesInOrder(tim, ReadInfo(si).value.1, []);
  }

  // ----- the code of Open -----

  /** ReadU32LE, ReadU64LE and ReadF32LE. */
  method TakeWord(s: string, pos: nat, n: nat) returns (r: Option<(nat, nat)>)
    requires pos <= |s|
    ensures r == ReadWord(s, pos, n)
  {
    var v, p := LittleEndian.Read(s, pos, |s|, n);
    return if v.None? then None else Some((v.value, p));
  }

  method TakeVar(s: string, pos: nat, end: nat, width: VarByte.Width) returns (r: Option<(nat, nat)>)
    requires pos <= end <= |s|
    ensures r == ReadVar(s, pos, end, width)
  {
    var v, p := VarByte.Decode(s, pos, end, width);
    return if v.None? then None else Some((v.value, p));
  }

  method TakeStr(s: string, pos: nat, end: nat) returns (r: Option<(string, nat)>)
    requires pos <= end <= |s|
    ensures r == ReadStr(s, pos, end)
  {
    var n :- TakeVar(s, pos, end, VarByte.W32);
    if end - n.1 < n.0 { return None; }
    return Some((s[n.1..n.1 + n.0], n.1 + n.0));
  }

  method TakeTail(s: string, pos: nat) returns (r: Option<((nat, nat, Layout), nat)>)
    requires pos <= |s|
    ensures r == ReadTail(s, pos)
  {
    var boost :- TakeWord(s, pos, 4);
    var decay :- TakeWord(s, boost.1, 4);
    var q := decay.1;
    if |s| - q < 2 { return None; }
    return Some(((boost.0, decay.0, Layout(s[q] != 0 as char, s[q + 1] != 0 as char)), q + 2));
  }

  method TakeField(s: string, pos: nat) returns (r: Option<(FieldStats, nat)>)
    requires pos <= |s|
    ensures r == ReadField(s, pos)
  {
    var name :- TakeStr(s, pos, |s|);
    var docCount :- TakeVar(s, name.1, |s|, VarByte.W32);
    var length :- TakeVar(s, docCount.1, |s|, VarByte.W64);
    var termCount :- TakeVar(s, length.1, |s|, VarByte.W64);
    var timOffset :- TakeVar(s, termCount.1, |s|, VarByte.W64);
    var timSize :- TakeVar(s, timOffset.1, |s|, VarByte.W64);
    var docOffset :- TakeVar(s, timSize.1, |s|, VarByte.W64);
    var docSize :- TakeVar(s, docOffset.1, |s|, VarByte.W64);
    var tail :- TakeTail(s, docSize.1);
    return Some((FieldStats(name.0, docCount.0, length.0, termCount.0, timOffset.0, timSize.0, docOffset.0, docSize.0,
                            tail.0.0, tail.0.1, tail.0.2), tail.1));
  }

  method TakeInfo(s: string) returns (r: Option<(nat, seq<FieldStats>)>)
    ensures r == ReadInfo(s)
  {
    hide ReadField, VarByte.DecodeSpec, LittleEndian.Value;
    var magic :- TakeWord(s, 0, 4);
    if magic.0 != MAGIC { return None; }
    var version :- TakeWord(s, magic.1, 4);
    if version.0 != VERSION { return None; }
    var docCount :- TakeWord(s, version.1, 8);
    var fingerprint :- TakeStr(s, docCount.1, |s|);
    var count :- TakeVar(s, fingerprint.1, |s|, VarByte.W32);
    var fields: seq<FieldStats>, pos: nat := [], count.1;
    for i := 0 to count.0
      invariant pos <= |s|
      invariant ReadFields(s, pos, count.0 - i, fields) == ReadFields(s, count.1, count.0, [])
    {
      var fs :- TakeField(s, pos);
      fields, pos := fields + [fs.0], fs.1;
    }
    return Some((Mod32(docCount.0), fields));
  }

  method TakeTerm(s: string, pos: nat, end: nat) returns (r: Option<(TermEntry, nat)>)
    requires pos <= end <= |s|
    ensures r == ReadTerm(s, pos, end)
  {
    var term :- TakeStr(s, pos, end);
    var df :- TakeVar(s, term.1, end, VarByte.W32);
    var totalTf :- TakeVar(s, df.1, end, VarByte.W64);
    var offset :- TakeVar(s, totalTf.1, end, VarByte.W64);
    var size :- TakeVar(s, offset.1, end, VarByte.W64);
    return Some((TermEntry(term.0, df.0, totalTf.0, offset.0, size.0), size.1));
  }

  method TakeDictionary(s: string, fs: FieldStats) returns (r: Option<FieldRead>)
    ensures r == ReadDictionary(s, fs)
  {
    hide Arranged, ReadTerm;
    if fs.timOffset + fs.timSize > |s| { return None; }
    var p: nat, end: nat := fs.timOffset, fs.timOffset + fs.timSize;
    var terms: seq<TermEntry> := [];
    while p < end
      invariant fs.timOffset <= p <= end
      invariant ReadTerms(s, p, end, terms) == ReadTerms(s, fs.timOffset, end, [])
    {
      var te :- TakeTerm(s, p, end);
      terms, p := terms + [te.0], te.1;
    }
    return Some(FieldRead(fs, Arranged(terms)));
  }

  method TakeWords(s: string, pos: nat, n: nat, count: nat) returns (r: Option<seq<nat>>)
    requires pos <= |s|
    ensures r == ReadWords(s, pos, n, count, [])
  {
    var values: seq<nat>, p: nat := [], pos;
    for i := 0 to count
      invariant p <= |s|
      invariant ReadWords(s, p, n, count - i, values) == ReadWords(s, pos, n, count, [])
    {
      var v :- TakeWord(s, p, n);
      values, p := values + [v.0], v.1;
    }
    return Some(values);
  }

  method TakeStoredIndex(s: string, docCount: nat) returns (r: Option<seq<nat>>)
    ensures r == ReadStoredIndex(s, docCount)
  {
    var count :- TakeWord(s, 0, 8);
    var offsets :- TakeWords(s, count.1, 8, count.0);
    if count.0 != docCount { return None; }
    return Some(offsets);
  }

  method TakeQuality(file: Option<string>, docCount: nat) returns (r: Option<seq<nat>>)
    ensures r == ReadQuality(file, docCount)
  {
    if file.None? { return Some([]); }
    var s := file.value;
    var magic :- TakeWord(s, 0, 4);
    if magic.0 != QUALITY_MAGIC { return None; }
    var count :- TakeWord(s, magic.1, 4);
    if count.0 != docCount { return None; }
    r := TakeWords(s, count.1, 4, count.0);
  }

  method TakeDictionaries(s: string, stats: seq<FieldStats>) returns (r: Option<seq<FieldRead>>)
    ensures r == ReadDictionaries(s, stats, [])
  {
    var fields: seq<FieldRead> := [];
    for i := 0 to |stats|
      invariant ReadDictionaries(s, stats[i..], fields) == ReadDictionaries(s, stats, [])
    {
      assert stats[i..][1..] == stats[i + 1..];
      var f :- TakeDictionary(s, stats[i]);
      fields := fields + [f];
    }
    return Some(fields);
  }

  /** SegmentReader::Open. */
  method Open(files: map<string, string>, stem: string) returns (r: Opened)
    ensures r == OpenSpec(files, stem)
    ensures r.Opened? ==> r.reader.Valid()
  {
    var si, tim, doc := FileOf(files, stem + INFO_EXT), FileOf(files, stem + TERMS_EXT), FileOf(files, stem + POSTINGS_EXT);
    var fdt, fdx := FileOf(files, stem + STORED_EXT), FileOf(files, stem + STORED_INDEX_EXT);
    if si == None || tim == None || doc == None || fdt == None || fdx == None { return Missing; }
    var reader := Assemble(si.value, tim.value, doc.value, fdt.value, fdx.value, FileOf(files, stem + QUALITY_EXT));
    if reader.Some? { OpenedIsValid(files, stem); }
    return if reader.None? then Corrupt else Opened(reader.value);
  }

  method Assemble(si: string, tim: string, doc: string, fdt: string, fdx: string, dvq: Option<string>)
    returns (r: Option<SegmentReader>)
    ensures r == ReadFiles(si, tim, doc, fdt, fdx, dvq)
  {
    var info :- TakeInfo(si);
    var fields :- TakeDictionaries(tim, info.1);
    var offsets :- TakeStoredIndex(fdx, info.0);
    var quality :- TakeQuality(dvq, info.0);
    return Some(SegmentReader(info.0, fields, doc, fdt, offsets, quality));
  }
}

/** Sealing a segment: from the in-memory index to the bytes of its files. */
module SegmentWriter {
  import opened Base
  import opened Documents
  import opened MutableSegments
  import opened PostingFormat
  import opened SegmentFormat
  import LittleEndian
  import TokenWeight
  import VarByte

  /** A directory: file names and their bytes. */
  class Directory {
    var files: map<string, string>

    constructor ()
      ensures files == map[]
    {
      files := map[];
    }

    /** Creates or replaces a file. */
    method Write(name: string, bytes: string)
      modifies this
      ensures files == old(files)[name := bytes]
    {
      files := files[name := bytes];
    }
  }

  // ----- what a sealed segment holds -----

  function LayoutOf(f: FieldMapping): Layout
  {
    Layout(Positive(f.positionDecay), f.storeTokenWeights)
  }

  function TermNames(terms: seq<TermRecord>): seq<string>
  {
    seq(|terms|, k requires 0 <= k < |terms| => terms[k].term)
  }

  /** The record is the term's posting list, found by scanning the documents. */
  ghost predicate TermRepresents(t: TermRecord, f: FieldMapping, docs: seq<Document>)
    requires |docs| <= NO_MORE
  {
    var list := ListFor(f, docs, t.term);
    ListIsValid(f, docs, t.term);
    list != [] && t.df == |list| && t.totalTf == SumTf(list) && t.list == List(EntriesOf(list), LayoutOf(f))
  }

  /** The record has exactly the terms of the field, in order. */
  ghost predicate FieldRepresents(r: FieldRecord, f: FieldMapping, docs: seq<Document>)
    requires |docs| <= NO_MORE
  {
    && r.name == f.name && r.boost == f.boost && r.positionDecay == f.positionDecay && r.layout == LayoutOf(f)
    && r.docCount == DocsWith(f, docs) && r.sumFieldLength == Mod64(TotalLength(f, docs))
    && InOrder(r.terms)
    && (forall k :: 0 <= k < |r.terms| ==> TermRepresents(r.terms[k], f, docs))
    && (forall term :: ListFor(f, docs, term) != [] ==> term in TermNames(r.terms))
  }

  ghost predicate Represents(c: Content, schema: Schema, docs: seq<Document>)
  {
    && c.docCount == |docs| <= NO_MORE && |c.fields| == |schema.fields|
    && (forall i :: 0 <= i < |c.fields| ==> FieldRepresents(c.fields[i], schema.fields[i], docs))
    && c.blobs == Blobs(schema, docs)
    && c.quality == if schema.storeDocQuality then Some(Qualities(schema, docs)) else None
  }

  // ----- posting lists -----

  /** std::sort of a posting list by document. */
  function InsertByDoc(p: Posting, sorted: seq<Posting>): seq<Posting>
  {
    if sorted == [] || sorted[|sorted| - 1].doc <= p.doc then sorted + [p]
    else InsertByDoc(p, sorted[..|sorted| - 1]) + [sorted[|sorted| - 1]]
  }

  function SortByDoc(list: seq<Posting>): seq<Posting>
  {
    if list == [] then [] else InsertByDoc(list[|list| - 1], SortByDoc(list[..|list| - 1]))
  }

  /** The lists of a segment are in order already. */
  lemma {:induction false} AlreadySorted(list: seq<Posting>)
    requires forall i, j :: 0 <= i < j < |list| ==> list[i].doc < list[j].doc
    ensures SortByDoc(list) == list
  {
    if list != [] {
      var n := |list| - 1;
      AlreadySorted(list[..n]);
      assert list == list[..n] + [list[n]];
    }
  }

  lemma {:induction false} SumTfBound(list: seq<Posting>)
    requires forall i :: 0 <= i < |list| ==> list[i].tf < U32
    ensures SumTf(list) <= |list| * 0xFFFF_FFFF
  {
    if list != [] { SumTfBound(list[..|list| - 1]); }
  }

  method TotalTf(list: seq<Posting>) returns (total: nat)
    ensures total == Mod64(SumTf(list))
  {
    total := 0;
    for i := 0 to |list|
      invariant total == Mod64(SumTf(list[..i]))
    {
      assert list[..i + 1][..i] == list[..i];
      Mod64Twice(SumTf(list[..i]), list[i].tf);
      total := Mod64(total + list[i].tf);
    }
    assert list[..|list|] == list;
  }

  method AppendEntry(p: Posting, delta: nat, layout: Layout, out: string, ghost prev: nat) returns (r: string)
    requires prev + delta == p.doc
    ensures r == out + EntryBytes(EntryOf(p), prev, layout)
  {
    r := VarByte.Encode(delta, out);
    r := VarByte.Encode(p.tf, r);
    ghost var payload := Payload(EntryOf(p), layout);
    ghost var word := if layout.hasPositions then LittleEndian.Word(p.pos, 2) else "";
    if layout.hasPositions { r := LittleEndian.Append(p.pos, 2, r); }
    if layout.hasTokenWeights { r := r + [TokenWeight.Quantize(p.weight) as char]; }
    assert r == out + (VarByte.Encoding(delta) + (VarByte.Encoding(p.tf) + payload));
  }

  method WritePostings(list: seq<Posting>, layout: Layout, out: string) returns (r: string)
    requires PostingFormat.Valid(EntriesOf(list))
    ensures r == out + List(EntriesOf(list), layout)
  {
    hide EntryBytes, VarByte.Encoding;
    ghost var es := EntriesOf(list);
    CountFits(es);
    r := VarByte.Encode(Mod32(|list|), out);
    var prev := 0;
    for i := 0 to |list|
      invariant Ascends(es[..i], 0) && prev == Last(es[..i], 0)
      invariant r == out + VarByte.Encoding(|list|) + PostingFormat.Entries(es[..i], 0, layout)
    {
      assert es[..i + 1] == es[..i] + [es[i]];
      PrefixAscends(es, i + 1);
      EntriesSnoc(es[..i], es[i], 0, layout);
      var delta := if i == 0 then list[i].doc else list[i].doc - prev;
      ghost var was := r;
      r := AppendEntry(list[i], delta, layout, r, prev);
      Join3(out + VarByte.Encoding(|list|), PostingFormat.Entries(es[..i], 0, layout), EntryBytes(es[i], prev, layout));
      prev := list[i].doc;
    }
    assert es[..|list|] == es;
    Join3(out, VarByte.Encoding(|list|), PostingFormat.Entries(es, 0, layout));
  }

  lemma {:induction false} PrefixAscends(es: seq<Entry>, n: nat)
    requires Ascends(es, 0) && n <= |es|
    ensures Ascends(es[..n], 0)
    decreases |es| - n
  {
    if n == |es| {
      assert es[..n] == es;
    } else {
      PrefixAscends(es, n + 1);
      assert es[..n + 1] == es[..n] + [es[n]];
      AscendsSnoc(es[..n], es[n], 0);
    }
  }

  lemma {:induction false} Join3<T>(a: seq<T>, b: seq<T>, c: seq<T>)
    ensures (a + b) + c == a + (b + c)
  {
  }

  // ----- the dictionary -----

  /** Strings in strictly ascending order. */
  ghost predicate Ascend(terms: seq<string>)
  {
    forall i, j :: 0 <= i < j < |terms| ==> Less(terms[i], terms[j])
  }

  function InsertTerm(term: string, sorted: seq<string>): seq<string>
  {
    if sorted == [] || Less(term, sorted[0]) then [term] + sorted else [sorted[0]] + InsertTerm(term, sorted[1..])
  }

  lemma {:induction false} InsertKeepsOrder(term: string, sorted: seq<string>)
    requires Ascend(sorted) && term !in sorted
    ensures Ascend(InsertTerm(term, sorted))
    ensures forall t :: t in InsertTerm(term, sorted) <==> t == term || t in sorted
  {
    if sorted == [] {
    } else if Less(term, sorted[0]) {
      PrependAscends(term, sorted);
    } else {
      var rest := sorted[1..];
      assert forall i, j :: 0 <= i < j < |rest| ==> rest[i] == sorted[i + 1] && rest[j] == sorted[j + 1];
      InsertKeepsOrder(term, rest);
      LessTotal(sorted[0], term);
      var tail := InsertTerm(term, rest);
      assert Less(sorted[0], tail[0]);
      PrependAscends(sorted[0], tail);
      assert sorted == [sorted[0]] + rest;
    }
  }

  lemma {:induction false} PrependAscends(term: string, sorted: seq<string>)
    requires Ascend(sorted) && (sorted != [] ==> Less(term, sorted[0]))
    ensures Ascend([term] + sorted)
  {
    var r := [term] + sorted;
    forall i, j | 0 <= i < j < |r| ensures Less(r[i], r[j]) {
      if i == 0 && j > 1 { LessTransitive(term, sorted[0], sorted[j - 1]); }
    }
  }

  /** The terms of a field in byte order. */
  method SortedTerms(keys: set<string>) returns (terms: seq<string>)
    ensures Ascend(terms) && forall t :: t in terms <==> t in keys
  {
    terms := [];
    var todo := keys;
    while todo != {}
      invariant todo <= keys && Ascend(terms)
      invariant forall t :: t in terms <==> t in keys && t !in todo
      decreases |todo|
    {
      var term :| term in todo;
      InsertKeepsOrder(term, terms);
      terms := InsertTerm(term, terms);
      todo := todo - {term};
    }
  }

  method AppendStr(s: string, out: string) returns (r: string)
    ensures r == out + Str(s)
  {
    r := VarByte.Encode(Mod32(|s|), out);
    r := r + s;
  }

  method AppendTerm(term: string, df: nat, totalTf: nat, offset: nat, size: nat, out: string, ghost t: TermRecord)
    returns (r: string)
    requires t.term == term && t.df == df && t.totalTf == totalTf && |t.list| == size
    ensures r == out + TermBytes(t, offset)
  {
    r := AppendStr(term, out);
    r := VarByte.Encode(df, r);
    r := VarByte.Encode(totalTf, r);
    r := VarByte.Encode(offset, r);
    r := VarByte.Encode(size, r);
    Regroup5(out, Str(term), VarByte.Encoding(df), VarByte.Encoding(totalTf), VarByte.Encoding(offset),
             VarByte.Encoding(size));
  }

  lemma {:induction false} Regroup5(o: string, a: string, b: string, c: string, d: string, e: string)
    ensures ((((o + a) + b) + c) + d) + e == o + (a + (b + (c + (d + e))))
  {
    Join3(o + a + b + c, d, e);
    Join3(o + a + b, c, d + e);
    Join3(o + a, b, c + (d + e));
    Join3(o, a, b + (c + (d + e)));
  }

  lemma {:induction false} DictionarySnoc(terms: seq<TermRecord>, t: TermRecord, offset: nat)
    ensures Dictionary(terms + [t], offset) == Dictionary(terms, offset) + TermBytes(t, offset + |Lists(terms)|)
    ensures Lists(terms + [t]) == Lists(terms) + t.list
  {
    hide TermBytes;
    var all := terms + [t];
    if terms == [] {
      assert all[1..] == [];
      assert Dictionary(all, offset) == TermBytes(t, offset) + "" && Lists(all) == t.list + "";
    } else {
      var first, rest := terms[0], terms[1..];
      assert all[0] == first && all[1..] == rest + [t];
      DictionarySnoc(rest, t, offset + |first.list|);
      Join3(TermBytes(first, offset), Dictionary(rest, offset + |first.list|), TermBytes(t, offset + |Lists(terms)|));
      Join3(first.list, Lists(rest), t.list);
    }
  }

  /** A list of the index is in order and within the widths of the format. */
  lemma {:induction false} ListFits(f: FieldMapping, docs: seq<Document>, term: string)
    requires |docs| <= NO_MORE
    ensures var list := ListFor(f, docs, term);
      && PostingFormat.Valid(EntriesOf(list)) && |list| < U32 && SortByDoc(list) == list && SumTf(list) < U64
  {
    var list := ListFor(f, docs, term);
    ListIsValid(f, docs, term);
    CountFits(EntriesOf(list));
    forall i, j | 0 <= i < j < |list| ensures list[i].doc < list[j].doc { ListAscends(f, docs, term, i, j); }
    AlreadySorted(list);
    forall i | 0 <= i < |list| ensures list[i].tf < U32 {
      Element(EntriesOf(list), 0, i);
      assert EntriesOf(list)[i].tf == list[i].tf;
    }
    SumTfBound(list);
  }

  /** What is written for one term: its list goes to the posting bytes, its
      entry to the dictionary.  base is where the field's posting bytes begin. */
  method SealTerm(list: seq<Posting>, f: FieldMapping, term: string, base: nat, tim: string, doc: string,
                  ghost docs: seq<Document>) returns (tim': string, doc': string, ghost t: TermRecord)
    requires |docs| <= NO_MORE && list == ListFor(f, docs, term) != [] && base <= |doc|
    ensures t.term == term && TermRepresents(t, f, docs)
    ensures tim' == tim + TermBytes(t, |doc| - base) && doc' == doc + t.list
  {
    hide ListFor, SumTf, SortByDoc, EntriesOf, TermBytes, Ascends;
    ListFits(f, docs, term);
    var pl := SortByDoc(list);
    var offset := |doc|;
    var total := TotalTf(pl);
    doc' := WritePostings(pl, LayoutOf(f), doc);
    t := TermRecord(term, |pl|, total, List(EntriesOf(list), LayoutOf(f)));
    tim' := AppendTerm(term, Mod32(|pl|), total, offset - base, |doc'| - offset, tim, t);
  }

  /** The loop over the terms of a field. */
  method SealTerms(fd: FieldData, f: FieldMapping, tim: string, doc: string, ghost docs: seq<Document>)
    returns (tim': string, doc': string, ghost terms: seq<TermRecord>)
    requires |docs| <= NO_MORE && Indexes(fd, f, docs)
    ensures tim' == tim + Dictionary(terms, 0) && doc' == doc + Lists(terms)
    ensures InOrder(terms) && |terms| == |fd.postings|
    ensures forall k :: 0 <= k < |terms| ==> TermRepresents(terms[k], f, docs)
    ensures forall term :: ListFor(f, docs, term) != [] ==> term in TermNames(terms)
  {
    hide TermRepresents, Indexes, Dictionary, Lists;
    var sorted := SortedTerms(fd.postings.Keys);
    tim', doc', terms := tim, doc, [];
    NoTerms(tim);
    NoTerms(doc);
    for k := 0 to |sorted|
      invariant |terms| == k && forall i :: 0 <= i < k ==> terms[i].term == sorted[i] && TermRepresents(terms[i], f, docs)
      invariant tim' == tim + Dictionary(terms, 0) && doc' == doc + Lists(terms)
    {
      ghost var t;
      assert sorted[k] in sorted;
      tim', doc', t := SealNext(fd, f, sorted[k], |doc|, tim', doc', docs);
      DictionarySnoc(terms, t, 0);
      Join3(tim, Dictionary(terms, 0), TermBytes(t, |Lists(terms)|));
      Join3(doc, Lists(terms), t.list);
      terms := terms + [t];
    }
    SortedCount(sorted, fd.postings.Keys);
    EveryTerm(fd, f, docs, sorted, terms);
  }

  lemma {:induction false} NoTerms(out: string)
    ensures out + Dictionary([], 0) == out && out + Lists([]) == out
  {
  }

  lemma {:induction false} EveryTerm(fd: FieldData, f: FieldMapping, docs: seq<Document>, sorted: seq<string>, terms: seq<TermRecord>)
    requires Indexes(fd, f, docs) && |terms| == |sorted| && forall i :: 0 <= i < |terms| ==> terms[i].term == sorted[i]
    requires forall t :: t in sorted <==> t in fd.postings.Keys
    ensures forall term :: ListFor(f, docs, term) != [] ==> term in TermNames(terms)
  {
    assert TermNames(terms) == sorted;
  }

  method SealNext(fd: FieldData, f: FieldMapping, term: string, base: nat, tim: string, doc: string, ghost docs: seq<Document>)
    returns (tim': string, doc': string, ghost t: TermRecord)
    requires |docs| <= NO_MORE && Indexes(fd, f, docs) && term in fd.postings && base <= |doc|
    ensures t.term == term && TermRepresents(t, f, docs)
    ensures tim' == tim + TermBytes(t, |doc| - base) && doc' == doc + t.list
  {
    assert ListFor(f, docs, term) != [];
    tim', doc', t := SealTerm(fd.postings[term], f, term, base, tim, doc, docs);
  }

  lemma {:induction false} SortedCount(terms: seq<string>, keys: set<string>)
    requires Ascend(terms) && forall t :: t in terms <==> t in keys
    ensures |terms| == |keys|
  {
    if terms == [] {
      assert keys == {};
    } else {
      var first, rest := terms[0], terms[1..];
      assert terms == [first] + rest;
      assert forall i, j :: 0 <= i < j < |rest| ==> rest[i] == terms[i + 1] && rest[j] == terms[j + 1];
      if first in rest {
        var j :| 0 <= j < |rest| && rest[j] == first;
        assert Less(terms[0], terms[j + 1]);
        LessIrreflexive(first);
        assert false;
      }
      SortedCount(rest, keys - {first});
    }
  }

  // ----- fields -----

  lemma {:induction false} FieldsSnoc(fields: seq<FieldRecord>, f: FieldRecord, timOffset: nat, docOffset: nat)
    ensures Dictionaries(fields + [f]) == Dictionaries(fields) + Dictionary(f.terms, 0)
    ensures Postings(fields + [f]) == Postings(fields) + Lists(f.terms)
    ensures AllStats(fields + [f], timOffset, docOffset)
         == AllStats(fields, timOffset, docOffset)
            + [StatsOf(f, timOffset + |Dictionaries(fields)|, docOffset + |Postings(fields)|)]
  {
    hide Dictionary, Lists, StatsOf;
    var all := fields + [f];
    var dict, lists := Dictionary(f.terms, 0), Lists(f.terms);
    if fields == [] {
      assert all[1..] == [];
      assert Dictionaries([]) == "" && Postings([]) == "" && AllStats([], timOffset + |dict|, docOffset + |lists|) == [];
      assert dict + "" == dict && lists + "" == lists && "" + dict == dict && "" + lists == lists;
    } else {
      var first, rest := fields[0], fields[1..];
      assert all[0] == first && all[1..] == rest + [f];
      FieldsSnoc(rest, f, timOffset + |Dictionary(first.terms, 0)|, docOffset + |Lists(first.terms)|);
      Join3(Dictionary(first.terms, 0), Dictionaries(rest), dict);
      Join3(Lists(first.terms), Postings(rest), lists);
    }
  }

  /** The loop over the fields: dictionary bytes, posting bytes and the table of
      field statistics. */
  method SealFields(fieldData: seq<FieldData>, fields: seq<FieldMapping>, ghost docs: seq<Document>)
    returns (tim: string, doc: string, stats: seq<FieldStats>, ghost records: seq<FieldRecord>)
    requires |docs| <= NO_MORE && |fieldData| == |fields|
    requires forall i :: 0 <= i < |fields| ==> Indexes(fieldData[i], fields[i], docs)
    ensures tim == Dictionaries(records) && doc == Postings(records) && stats == AllStats(records, 0, 0)
    ensures |records| == |fields| && forall i :: 0 <= i < |fields| ==> FieldRepresents(records[i], fields[i], docs)
  {
    hide FieldRepresents, Indexes, Dictionary, Lists;
    tim, doc, stats, records := "", "", [], [];
    for fi := 0 to |fields|
      invariant |records| == fi && forall i :: 0 <= i < fi ==> FieldRepresents(records[i], fields[i], docs)
      invariant tim == Dictionaries(records) && doc == Postings(records) && stats == AllStats(records, 0, 0)
    {
      ghost var r;
      var fs;
      tim, doc, fs, r := SealField(fieldData[fi], fields[fi], tim, doc, docs);
      FieldsSnoc(records, r, 0, 0);
      stats, records := stats + [fs], records + [r];
    }
  }

  method SealField(fd: FieldData, f: FieldMapping, tim: string, doc: string, ghost docs: seq<Document>)
    returns (tim': string, doc': string, fs: FieldStats, ghost r: FieldRecord)
    requires |docs| <= NO_MORE && Indexes(fd, f, docs)
    ensures FieldRepresents(r, f, docs) && fs == StatsOf(r, |tim|, |doc|)
    ensures tim' == tim + Dictionary(r.terms, 0) && doc' == doc + Lists(r.terms)
  {
    hide Dictionary, Lists, ListFor, TermRepresents;
    ghost var terms;
    tim', doc', terms := SealTerms(fd, f, tim, doc, docs);
    fs := FieldStats(f.name, fd.docCount, fd.sumFieldLength, |fd.postings|, |tim|, |tim'| - |tim|, |doc|, |doc'| - |doc|,
                     f.boost, f.positionDecay, LayoutOf(f));
    r := FieldRecord(f.name, fd.docCount, fd.sumFieldLength, f.boost, f.positionDecay, LayoutOf(f), terms);
  }

  // ----- the other files -----

  method AppendField(fs: FieldStats, out: string) returns (r: string)
    ensures r == out + FieldBytes(fs)
  {
    r := AppendStr(fs.name, out);
    ghost var start := r;
    r := VarByte.Encode(fs.docCount, r);
    r := VarByte.Encode(fs.sumFieldLength, r);
    r := VarByte.Encode(fs.termCount, r);
    ghost var middle := r;
    r := VarByte.Encode(fs.timOffset, r);
    r := VarByte.Encode(fs.timSize, r);
    r := VarByte.Encode(fs.docOffset, r);
    r := VarByte.Encode(fs.docSize, r);
    r := AppendTail(fs, r);
    Regroup5(middle, VarByte.Encoding(fs.timOffset), VarByte.Encoding(fs.timSize), VarByte.Encoding(fs.docOffset),
             VarByte.Encoding(fs.docSize), FieldTail(fs));
    ghost var tail := VarByte.Encoding(fs.timOffset) + (VarByte.Encoding(fs.timSize) + (VarByte.Encoding(fs.docOffset)
                      + (VarByte.Encoding(fs.docSize) + FieldTail(fs))));
    Regroup5(out, Str(fs.name), VarByte.Encoding(fs.docCount), VarByte.Encoding(fs.sumFieldLength),
             VarByte.Encoding(fs.termCount), tail);
  }

  method AppendTail(fs: FieldStats, out: string) returns (r: string)
    ensures r == out + FieldTail(fs)
  {
    r := LittleEndian.Append(fs.boost, 4, out);
    r := LittleEndian.Append(fs.positionDecay, 4, r);
    r := r + [Flag(fs.layout.hasPositions)];
    r := r + [Flag(fs.layout.hasTokenWeights)];
    assert r == out + (LittleEndian.Word(fs.boost, 4) + (LittleEndian.Word(fs.positionDecay, 4)
                + [Flag(fs.layout.hasPositions), Flag(fs.layout.hasTokenWeights)]));
  }

  method InfoBytes(docCount: nat, stats: seq<FieldStats>) returns (si: string)
    ensures si == Info(docCount, stats)
  {
    si := LittleEndian.Append(MAGIC, 4, "");
    si := LittleEndian.Append(VERSION, 4, si);
    si := LittleEndian.Append(docCount, 8, si);
    si := AppendStr(FINGERPRINT, si);
    si := VarByte.Encode(Mod32(|stats|), si);
    ghost var head := si;
    for i := 0 to |stats|
      invariant si + FieldTable(stats[i..]) == head + FieldTable(stats)
    {
      assert stats[i..][0] == stats[i] && stats[i..][1..] == stats[i + 1..];
      Join3(si, FieldBytes(stats[i]), FieldTable(stats[i + 1..]));
      si := AppendField(stats[i], si);
    }
    assert stats[|stats|..] == [];
    assert si + "" == si;
    Regroup5("", LittleEndian.Word(MAGIC, 4), LittleEndian.Word(VERSION, 4), LittleEndian.Word(docCount, 8),
             Str(FINGERPRINT), VarByte.Encoding(Mod32(|stats|)) + FieldTable(stats));
    Join3("" + LittleEndian.Word(MAGIC, 4) + LittleEndian.Word(VERSION, 4) + LittleEndian.Word(docCount, 8) + Str(FINGERPRINT),
          VarByte.Encoding(Mod32(|stats|)), FieldTable(stats));
    assert "" + Info(docCount, stats) == Info(docCount, stats);
  }

  method StoredFiles(blobs: seq<string>) returns (fdt: string, fdx: string)
    ensures fdt == StoredBytes(blobs) && fdx == StoredIndex(blobs)
  {
    fdt := "";
    fdx := LittleEndian.Append(|blobs|, 8, "");
    for i := 0 to |blobs|
      invariant fdt + StoredBytes(blobs[i..]) == StoredBytes(blobs)
      invariant fdx + Words(Offsets(blobs[i..], |fdt|), 8) == StoredIndex(blobs)
    {
      StoredStep(blobs, i, fdt, fdx);
      fdx := LittleEndian.Append(|fdt|, 8, fdx);
      fdt := AppendStr(blobs[i], fdt);
    }
    assert blobs[|blobs|..] == [];
    assert fdt + "" == fdt && fdx + "" == fdx;
  }

  lemma {:induction false} StoredStep(blobs: seq<string>, i: nat, fdt: string, fdx: string)
    requires i < |blobs|
    ensures fdt + StoredBytes(blobs[i..]) == (fdt + Str(blobs[i])) + StoredBytes(blobs[i + 1..])
    ensures fdx + Words(Offsets(blobs[i..], |fdt|), 8)
         == (fdx + LittleEndian.Word(|fdt|, 8)) + Words(Offsets(blobs[i + 1..], |fdt + Str(blobs[i])|), 8)
  {
    hide Str, LittleEndian.Word;
    var rest := blobs[i + 1..];
    assert blobs[i..][0] == blobs[i] && blobs[i..][1..] == rest;
    Join3(fdt, Str(blobs[i]), StoredBytes(rest));
    var offsets := Offsets(rest, |fdt| + |Str(blobs[i])|);
    assert Offsets(blobs[i..], |fdt|)[1..] == offsets;
    Join3(fdx, LittleEndian.Word(|fdt|, 8), Words(offsets, 8));
  }

  method QualityFile(docCount: nat, quality: seq<nat>) returns (dvq: string)
    requires |quality| == docCount < U32
    ensures dvq == QualityBytes(docCount, quality)
  {
    hide LittleEndian.Word;
    dvq := LittleEndian.Append(QUALITY_MAGIC, 4, "");
    dvq := LittleEndian.Append(Mod32(docCount), 4, dvq);
    assert quality[0..] == quality;
    Join3("" + LittleEndian.Word(QUALITY_MAGIC, 4), LittleEndian.Word(docCount, 4), Words(quality, 4));
    assert "" + LittleEndian.Word(QUALITY_MAGIC, 4) == LittleEndian.Word(QUALITY_MAGIC, 4);
    Join3(LittleEndian.Word(QUALITY_MAGIC, 4), LittleEndian.Word(docCount, 4), Words(quality, 4));
    for i := 0 to docCount
      invariant dvq + Words(quality[i..], 4) == QualityBytes(docCount, quality)
    {
      assert quality[i..][0] == quality[i] && quality[i..][1..] == quality[i + 1..];
      Join3(dvq, LittleEndian.Word(quality[i], 4), Words(quality[i + 1..], 4));
      var v := if i < |quality| then quality[i] else 0;
      dvq := LittleEndian.Append(v, 4, dvq);
    }
    assert quality[docCount..] == [];
    assert dvq + "" == dvq;
  }

  /** SealSegment: the files hold what a scan of the documents finds. */
  method SealSegment(segment: MutableSegment, dir: Directory, stem: string) returns (ghost c: Content)
    requires segment.Valid()
    modifies dir
    ensures Represents(c, segment.schema, segment.docs)
    ensures segment.schema.storeDocQuality || stem + QUALITY_EXT !in old(dir.files) ==> Holds(dir.files, stem, c)
    ensures forall name :: name in old(dir.files) && !(stem <= name) ==>
      name in dir.files && dir.files[name] == old(dir.files)[name]
  {
    hide Indexes, Blobs, Qualities, FieldRepresents, WithFiles, Holds, Info, AllStats, Dictionaries, Postings, StoredBytes,
         StoredIndex, QualityBytes;
    var schema := segment.schema;
    ghost var records;
    var tim, doc, stats;
    tim, doc, stats, records := SealFields(segment.fieldData, schema.fields, segment.docs);
    var fdt, fdx := StoredFiles(segment.storedBlobs);
    var si := InfoBytes(segment.nextDocId, stats);
    ghost var quality := if schema.storeDocQuality then Some(segment.docQuality) else None;
    c := Content(segment.nextDocId, records, segment.storedBlobs, quality);
    var dvq := None;
    if schema.storeDocQuality {
      QualityLength(schema, segment.docs);
      var bytes := QualityFile(segment.nextDocId, segment.docQuality);
      dvq := Some(bytes);
    }
    WriteFiles(dir, stem, doc, tim, fdt, fdx, si, dvq);
    OtherFiles(old(dir.files), stem, doc, tim, fdt, fdx, si, dvq);
    if dvq.Some? || stem + QUALITY_EXT !in old(dir.files) {
      Written(old(dir.files), stem, doc, tim, fdt, fdx, si, dvq, c);
    }
  }

  lemma {:induction false} Suffix(stem: string, a: string, b: string)
    requires stem + a == stem + b
    ensures a == b
  {
    assert (stem + a)[|stem|..] == a && (stem + b)[|stem|..] == b;
  }

  /** The names of the files differ, so each keeps its bytes. */
  lemma {:induction false} Written(files: map<string, string>, stem: string, doc: string, tim: string, fdt: string, fdx: string,
                                   si: string, dvq: Option<string>, c: Content)
    requires si == Info(c.docCount, AllStats(c.fields, 0, 0)) && tim == Dictionaries(c.fields) && doc == Postings(c.fields)
    requires fdt == StoredBytes(c.blobs) && fdx == StoredIndex(c.blobs) && dvq.Some? == c.quality.Some?
    requires if dvq.Some? then dvq.value == QualityBytes(c.docCount, c.quality.value) else stem + QUALITY_EXT !in files
    ensures Holds(WithFiles(files, stem, doc, tim, fdt, fdx, si, dvq), stem, c)
  {
    hide Info, AllStats, Dictionaries, Postings, StoredBytes, StoredIndex, QualityBytes;
    forall a: string, b: string | stem + a == stem + b ensures a == b { Suffix(stem, a, b); }
  }

  lemma {:induction false} OtherFiles(files: map<string, string>, stem: string, doc: string, tim: string, fdt: string, fdx: string,
                                      si: string, dvq: Option<string>)
    ensures forall name :: name in files && !(stem <= name) ==>
      name in WithFiles(files, stem, doc, tim, fdt, fdx, si, dvq)
      && WithFiles(files, stem, doc, tim, fdt, fdx, si, dvq)[name] == files[name]
  {
    forall ext ensures stem <= stem + ext {}
  }

  lemma {:induction false} QualityLength(schema: Schema, docs: seq<Document>)
    requires schema.storeDocQuality
    ensures |Qualities(schema, docs)| == |docs|
  {
  }

  method WriteFiles(dir: Directory, stem: string, doc: string, tim: string, fdt: string, fdx: string, si: string, dvq: Option<string>)
    modifies dir
    ensures dir.files == WithFiles(old(dir.files), stem, doc, tim, fdt, fdx, si, dvq)
  {
    dir.Write(stem + POSTINGS_EXT, doc);
    dir.Write(stem + TERMS_EXT, tim);
    dir.Write(stem + STORED_EXT, fdt);
    dir.Write(stem + STORED_INDEX_EXT, fdx);
    dir.Write(stem + INFO_EXT, si);
    if dvq.Some? { dir.Write(stem + QUALITY_EXT, dvq.value); }
  }

  function WithFiles(files: map<string, string>, stem: string, doc: string, tim: string, fdt: string, fdx: string, si: string,
                     dvq: Option<string>): map<string, string>
  {
    var five := files[stem + POSTINGS_EXT := doc][stem + TERMS_EXT := tim][stem + STORED_EXT := fdt]
                [stem + STORED_INDEX_EXT := fdx][stem + INFO_EXT := si];
    if dvq.Some? then five[stem + QUALITY_EXT := dvq.value] else five
  }
}

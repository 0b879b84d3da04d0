/** What holds after every run of an index, whatever crashes it went through. */
module CrashSafety {
  import opened Base
  import opened Documents
  import opened IndexWriters
  import opened LogRecords
  import opened Translogs
  import opened EndToEnd
  import Json

  // ----- publication: segments are only ever added -----

  /** The manifest lists one segment per generation, under that generation's
      name, and its files are there; a running writer knows just that. */
  ghost predicate Orderly(s: State)
  {
    var d := s.disk;
    && d.generation == |d.listed|
    && (forall k :: 0 <= k < |d.listed| ==> Named(d.listed[k], k + 1) && d.listed[k] in d.segments)
    && (s.memory.Some? ==> var m := s.memory.value;
          m.generation == d.generation && m.sealed == d.listed && m.published == d.listed)
  }

  ghost predicate Named(stem: string, generation: nat)
  {
    exists id :: stem == Stem(generation, id)
  }

  /** A new segment's name is not in the manifest. */
  lemma {:induction false} NextIsNew(d: Disk, m: Memory)
    requires Orderly(State(d, Some(m)))
    ensures NextStem(m) !in d.listed && Named(NextStem(m), m.generation + 1)
  {
    forall k | 0 <= k < |d.listed| ensures d.listed[k] != NextStem(m) {
      assert Named(d.listed[k], k + 1);
      var id :| d.listed[k] == Stem(k + 1, id);
      if d.listed[k] == NextStem(m) { StemsDiffer(k + 1, id, m.generation + 1, m.nextId); }
    }
  }

  /** Listed segments stay listed, in place, with the same contents. */
  ghost predicate Extends(a: Disk, b: Disk)
  {
    && a.listed <= b.listed && a.generation <= b.generation
    && forall stem :: stem in a.listed && stem in a.segments ==> stem in b.segments && b.segments[stem] == a.segments[stem]
  }

  /** Every step keeps the order and only adds.  The generation rises by one
      exactly when a segment is added to the manifest. */
  lemma {:induction false} StepKeepsOrder(s: State, e: Event)
    requires Orderly(s)
    ensures Orderly(Step(s, e)) && Extends(s.disk, Step(s, e).disk)
    ensures var d, r := s.disk, Step(s, e).disk;
      r.generation - d.generation == |r.listed| - |d.listed| <= 1
    ensures e.Refresh? && s.memory.Some? ==>
      var r := Step(s, e).memory;
      r.Some? && (s.memory.value.pending == [] ==> r.value.generation == s.memory.value.generation)
      && (s.memory.value.pending != [] ==> r.value.generation == s.memory.value.generation + 1)
  {
    hide Stem, Logged;
    if s.memory.Some? {
      NextIsNew(s.disk, s.memory.value);
    }
  }

  lemma {:induction false} RunKeepsOrder(events: seq<Event>)
    ensures Orderly(Run(events))
  {
    if events != [] {
      hide Step;
      RunKeepsOrder(events[..|events| - 1]);
      StepKeepsOrder(Run(events[..|events| - 1]), events[|events| - 1]);
    }
  }

  /** Over any run, and whatever happens afterwards, crashes and reopenings
      included, the segments that the manifest lists keep their places and their
      files are never written again. */
  lemma {:induction false} ListedSegmentsStay(before: seq<Event>, after: seq<Event>)
    ensures Extends(Run(before).disk, Run(before + after).disk)
  {
    if after == [] {
      assert before + after == before;
    } else {
      hide Step, Orderly, Extends;
      var n := |after| - 1;
      var all := before + after;
      assert all[..|all| - 1] == before + after[..n];
      ListedSegmentsStay(before, after[..n]);
      RunKeepsOrder(before);
      RunKeepsOrder(before + after[..n]);
      StepKeepsOrder(Run(before + after[..n]), after[n]);
      ExtendsTwice(Run(before).disk, Run(before + after[..n]).disk, Run(all).disk);
    }
  }

  lemma {:induction false} ExtendsTwice(a: Disk, b: Disk, c: Disk)
    requires Extends(a, b) && Extends(b, c)
    ensures Extends(a, c)
  {
  }

  /** While one writer stays open, each published list is a prefix of every
      later one. */
  lemma {:induction false} PublishedGrows(before: seq<Event>, after: seq<Event>)
    requires Run(before).memory.Some? && Run(before + after).memory.Some?
    ensures Run(before).memory.value.published <= Run(before + after).memory.value.published
    ensures Run(before).memory.value.generation <= Run(before + after).memory.value.generation
  {
    RunKeepsOrder(before);
    RunKeepsOrder(before + after);
    ListedSegmentsStay(before, after);
  }

  // ----- durability: every document is kept -----

  /** Documents of the kind the log can write down: no field named like the
      identifier, text fields only, and a record shorter than 4 GiB. */
  ghost predicate TextOnly(doc: Document)
  {
    ID_FIELD !in doc.fields && doc.tokenWeights == map[] && doc.quality == None && |Encode(doc)| < U32
  }

  /** The event concerns text-only documents, and a crash leaves no torn record
      behind. */
  ghost predicate Clean(e: Event)
  {
    match e
    case Add(doc) => TextOnly(doc)
    case AddCrash(doc, cut) => TextOnly(doc) && (cut == 0 || cut >= |Frame(Encode(doc))|)
    case _ => true
  }

  ghost predicate AllClean(events: seq<Event>)
  {
    forall k :: 0 <= k < |events| ==> Clean(events[k])
  }

  ghost function Payloads(docs: seq<Document>): (p: seq<string>)
    ensures |p| == |docs|
  {
    if docs == [] then [] else Payloads(docs[..|docs| - 1]) + [Encode(docs[|docs| - 1])]
  }

  /** What one event does to the records. */
  ghost function NextRecords(s: State, records: seq<Document>, e: Event): seq<Document>
  {
    if s.memory.None? then records
    else match e
      case Add(doc) => records + [doc]
      case AddCrash(doc, cut) => if cut == 0 then records else records + [doc]
      case Refresh => if s.memory.value.pending == [] then records else []
      case RefreshCrash(point) => if s.memory.value.pending != [] && point.Truncated? then [] else records
      case _ => records
  }

  /** The documents whose records are in the log. */
  ghost function Records(events: seq<Event>): seq<Document>
  {
    if events == [] then []
    else
      var before := events[..|events| - 1];
      NextRecords(Run(before), Records(before), events[|events| - 1])
  }

  ghost predicate AllTextOnly(docs: seq<Document>)
  {
    docs == [] || (TextOnly(docs[|docs| - 1]) && AllTextOnly(docs[..|docs| - 1]))
  }

  /** Records without an identifier are skipped when the log is replayed. */
  function Identified(docs: seq<Document>): seq<Document>
  {
    if docs == [] then []
    else Identified(docs[..|docs| - 1]) + if docs[|docs| - 1].id == "" then [] else [docs[|docs| - 1]]
  }

  lemma {:induction false} DecodedSnoc(p: seq<string>, last: string)
    ensures Decoded(p + [last]) == match Decode(last) case None => Decoded(p) case Some(doc) => Decoded(p) + [doc]
    ensures Short(p) && |last| < U32 ==> Short(p + [last])
  {
    hide Decode;
    assert (p + [last])[..|p|] == p;
  }

  lemma {:induction false} NothingDecoded()
    ensures Decoded([]) == [] && Short([])
  {
  }

  lemma {:induction false} DecodedBack(docs: seq<Document>)
    requires AllTextOnly(docs)
    ensures Decoded(Payloads(docs)) == Identified(docs) && Short(Payloads(docs))
  {
    hide TextOnly, Encode, Decode, Short, Decoded;
    if docs == [] {
      NothingDecoded();
    } else {
      var n := |docs| - 1;
      DecodedBack(docs[..n]);
      TextBack(docs[n]);
      DecodedSnoc(Payloads(docs[..n]), Encode(docs[n]));
    }
  }

  lemma {:induction false} TextBack(doc: Document)
    requires TextOnly(doc)
    ensures |Encode(doc)| < U32 && Decode(Encode(doc)) == if doc.id == "" then None else Some(doc)
  {
    RecordBack(doc);
  }

  /** Skipping them does not change what the segment accepts. */
  lemma {:induction false} AcceptedNamed(docs: seq<Document>)
    ensures Accepted(Identified(docs)) == Accepted(docs)
  {
    if docs != [] {
      var n := |docs| - 1;
      AcceptedNamed(docs[..n]);
      var before := Identified(docs[..n]);
      assert before + [] == before && (before + [docs[n]])[..|before|] == before;
    }
  }

  /** The log holds exactly the records, so a replay accepts what the writer
      accepted. */
  ghost predicate LogHolds(s: State, records: seq<Document>)
  {
    && AllTextOnly(records) && s.disk.log == Frames(Payloads(records))
    && (s.memory.Some? ==> s.memory.value.pending == Accepted(records))
  }

  lemma {:induction false} ReplayedLog(s: State, records: seq<Document>)
    requires LogHolds(s, records)
    ensures Logged(s.disk) == Identified(records) && Accepted(Logged(s.disk)) == Accepted(records)
  {
    hide TextOnly, Encode, Decode;
    DecodedBack(records);
    WholeLog(Payloads(records));
    AcceptedNamed(records);
  }

  lemma {:induction false} RecordAppended(records: seq<Document>, doc: Document)
    requires AllTextOnly(records) && TextOnly(doc)
    ensures AllTextOnly(records + [doc])
    ensures Frames(Payloads(records + [doc])) == Frames(Payloads(records)) + Frame(Encode(doc))
    ensures Accepted(records + [doc]) == WithDoc(Accepted(records), doc)
  {
    hide TextOnly, Encode, Frame;
    var all := records + [doc];
    assert all[..|records|] == records;
    var p := Payloads(all);
    assert p[..|records|] == Payloads(records);
  }

  lemma {:induction false} LogKept(events: seq<Event>)
    requires AllClean(events)
    ensures LogHolds(Run(events), Records(events))
  {
    hide TextOnly, Encode, Decode, Frame, Logged, NextStem;
    if events == [] {
      assert Frames(Payloads([])) == "";
    } else {
      var n := |events| - 1;
      var before, e := events[..n], events[n];
      assert AllClean(before) by { forall k | 0 <= k < n ensures Clean(before[k]) { assert before[k] == events[k]; } }
      LogKept(before);
      LogStep(Run(before), Records(before), e);
      assert Clean(e);
    }
  }

  lemma {:induction false} LogStep(s: State, records: seq<Document>, e: Event)
    requires LogHolds(s, records) && Clean(e)
    ensures LogHolds(Step(s, e), NextRecords(s, records, e))
  {
    hide TextOnly, Encode, Decode, Frame, Logged, NextStem, AllTextOnly, Accepted, Payloads, Frames;
    NoRecords();
    ReplayedLog(s, records);
    match e
    case Add(doc) => RecordAppended(records, doc);
    case AddCrash(doc, cut) =>
      RecordAppended(records, doc);
      NothingReached(s.disk.log, Frame(Encode(doc)));
    case _ =>
  }

  lemma {:induction false} NoRecords()
    ensures Frames(Payloads([])) == "" && Accepted([]) == [] && AllTextOnly([])
  {
  }

  lemma {:induction false} NothingReached(log: string, frame: string)
    requires frame != ""
    ensures log + Reached(frame, 0) == log
  {
    assert frame[..0] == "";
  }

  // ----- how many copies of a document there are -----

  /** The documents of the listed segments. */
  ghost function SegmentDocs(listed: seq<string>, segments: map<string, seq<Document>>): multiset<Document>
  {
    if listed == [] then multiset{}
    else
      var n := |listed| - 1;
      SegmentDocs(listed[..n], segments)
      + if listed[n] in segments then multiset(segments[listed[n]]) else multiset{}
  }

  /** Every document that opening the directory brings back. */
  ghost function Stored(d: Disk): multiset<Document>
  {
    SegmentDocs(d.listed, d.segments) + multiset(Accepted(Logged(d)))
  }

  lemma {:induction false} SameSegments(listed: seq<string>, segments: map<string, seq<Document>>, stem: string, docs: seq<Document>)
    requires stem !in listed
    ensures SegmentDocs(listed, segments[stem := docs]) == SegmentDocs(listed, segments)
  {
    if listed != [] {
      var n := |listed| - 1;
      assert listed[n] in listed && forall x :: x in listed[..n] ==> x in listed;
      SameSegments(listed[..n], segments, stem, docs);
    }
  }

  lemma {:induction false} OneMoreSegment(listed: seq<string>, segments: map<string, seq<Document>>, stem: string, docs: seq<Document>)
    requires stem !in listed
    ensures SegmentDocs(listed + [stem], segments[stem := docs]) == SegmentDocs(listed, segments) + multiset(docs)
  {
    SameSegments(listed, segments, stem, docs);
    assert (listed + [stem])[..|listed|] == listed;
  }

  /** The documents that one event adds to the store.  An accepted document
      counts from the moment its record is in the log, acknowledged or not; a
      crash between the rename and the truncation counts every pending document
      again. */
  ghost function Gained(s: State, e: Event): multiset<Document>
  {
    if s.memory.None? then multiset{}
    else
      var pending := s.memory.value.pending;
      match e
      case Add(doc) => if Accepts(doc, pending) then multiset{doc} else multiset{}
      case AddCrash(doc, cut) => if cut > 0 && Accepts(doc, pending) then multiset{doc} else multiset{}
      case RefreshCrash(point) => if point.Renamed? then multiset(pending) else multiset{}
      case _ => multiset{}
  }

  ghost function Copies(events: seq<Event>): multiset<Document>
  {
    if events == [] then multiset{}
    else
      var before := events[..|events| - 1];
      Copies(before) + Gained(Run(before), events[|events| - 1])
  }

  lemma {:induction false} StoredIs(s: State, records: seq<Document>)
    requires LogHolds(s, records)
    ensures Stored(s.disk) == SegmentDocs(s.disk.listed, s.disk.segments) + multiset(Accepted(records))
  {
    ReplayedLog(s, records);
  }

  lemma {:induction false} GainAdd(s: State, records: seq<Document>, doc: Document)
    requires LogHolds(s, records) && s.memory.Some? && TextOnly(doc)
    ensures multiset(Accepted(records + [doc]))
         == multiset(Accepted(records)) + if Accepts(doc, s.memory.value.pending) then multiset{doc} else multiset{}
  {
    RecordAppended(records, doc);
  }

  /** A refresh moves the pending documents from the log into a segment. */
  lemma {:induction false} SealedSum(s: State, records: seq<Document>)
    requires Orderly(s) && LogHolds(s, records) && s.memory.Some?
    ensures var d, m := s.disk, s.memory.value;
      && m.sealed == d.listed && m.pending == Accepted(records) && Accepted([]) == []
      && SegmentDocs(d.listed, d.segments[NextStem(m) := m.pending]) == SegmentDocs(d.listed, d.segments)
      && SegmentDocs(d.listed + [NextStem(m)], d.segments[NextStem(m) := m.pending])
         == SegmentDocs(d.listed, d.segments) + multiset(m.pending)
  {
    var d, m := s.disk, s.memory.value;
    NextIsNew(d, m);
    SameSegments(d.listed, d.segments, NextStem(m), m.pending);
    OneMoreSegment(d.listed, d.segments, NextStem(m), m.pending);
  }

  lemma {:induction false} SealingSum(s: State, files: seq<Document>)
    requires Orderly(s) && s.memory.Some?
    ensures var d, m := s.disk, s.memory.value;
      SegmentDocs(d.listed, d.segments[NextStem(m) := files]) == SegmentDocs(d.listed, d.segments)
  {
    NextIsNew(s.disk, s.memory.value);
    SameSegments(s.disk.listed, s.disk.segments, NextStem(s.memory.value), files);
  }

  /** What is to be shown of every event. */
  ghost predicate Stores(s: State, records: seq<Document>, e: Event)
  {
    Stored(Step(s, e).disk) == Stored(s.disk) + Gained(s, e)
  }

  lemma {:induction false} AddStores(s: State, records: seq<Document>, e: Event)
    requires Orderly(s) && LogHolds(s, records) && Clean(e) && s.memory.Some? && (e.Add? || e.AddCrash?)
    ensures Stores(s, records, e)
  {
    hide TextOnly, Encode, Frame, Logged, NextStem, Accepted, Stored, SegmentDocs, LogHolds, Orderly, Clean;
    LogStep(s, records, e);
    StoredIs(s, records);
    StoredIs(Step(s, e), NextRecords(s, records, e));
    CleanText(e);
    GainAdd(s, records, e.doc);
  }

  lemma {:induction false} RefreshStores(s: State, records: seq<Document>)
    requires Orderly(s) && LogHolds(s, records) && s.memory.Some?
    ensures Stores(s, records, Refresh)
  {
    hide TextOnly, Encode, Frame, Logged, NextStem, Accepted, Stored, SegmentDocs, LogHolds, Orderly;
    LogStep(s, records, Refresh);
    StoredIs(s, records);
    StoredIs(Step(s, Refresh), NextRecords(s, records, Refresh));
    SealedSum(s, records);
  }

  lemma {:induction false} RefreshCrashStores(s: State, records: seq<Document>, point: CrashPoint)
    requires Orderly(s) && LogHolds(s, records) && s.memory.Some?
    ensures Stores(s, records, RefreshCrash(point))
  {
    hide TextOnly, Encode, Frame, Logged, NextStem, Accepted, Stored, SegmentDocs, LogHolds, Orderly;
    LogStep(s, records, RefreshCrash(point));
    StoredIs(s, records);
    StoredIs(Step(s, RefreshCrash(point)), NextRecords(s, records, RefreshCrash(point)));
    SealedSum(s, records);
    if point.Sealing? { SealingSum(s, point.files); }
  }

  /** One event changes the store by what it gains. */
  lemma {:induction false} StepStores(s: State, records: seq<Document>, e: Event)
    requires Orderly(s) && LogHolds(s, records) && Clean(e)
    ensures Stored(Step(s, e).disk) == Stored(s.disk) + Gained(s, e)
  {
    hide TextOnly, Encode, Frame, Logged, NextStem, Accepted, Stored, SegmentDocs, LogHolds, Orderly, Clean;
    if s.memory.Some? {
      match e
      case Add(_) => AddStores(s, records, e);
      case AddCrash(_, _) => AddStores(s, records, e);
      case Refresh => RefreshStores(s, records);
      case RefreshCrash(point) => RefreshCrashStores(s, records, point);
      case _ =>
    }
  }

  /** Crash safety: over every run whose crashes leave the log at a record
      boundary, the segments of the manifest and the replayed log together hold
      each document exactly as often as it was gained. */
  lemma {:induction false} NothingLost(events: seq<Event>)
    requires AllClean(events)
    ensures Stored(Run(events).disk) == Copies(events)
  {
    hide TextOnly, Encode, Logged, Step, Gained, Clean;
    if events == [] {
      EmptyStore();
    } else {
      var n := |events| - 1;
      var before := events[..n];
      assert AllClean(before) by { forall k | 0 <= k < n ensures Clean(before[k]) { assert before[k] == events[k]; } }
      NothingLost(before);
      LogKept(before);
      RunKeepsOrder(before);
      StepStores(Run(before), Records(before), events[n]);
    }
  }

  lemma {:induction false} EmptyStore()
    ensures Stored(EMPTY_DISK) == multiset{}
  {
    assert Replay("") == [] && Accepted([]) == [];
  }

  /** What opening finds: it fails only when the log holds more documents than a
      segment can take, and otherwise the segments and the pending documents are
      all there is. */
  lemma {:induction false} OpenedHolds(events: seq<Event>)
    requires AllClean(events)
    ensures var d := Run(events).disk;
      && (Opened(d).Some? <==> |Accepted(Records(events))| == |Identified(Records(events))|)
      && (Opened(d).Some? ==>
            SegmentDocs(Opened(d).value.sealed, d.segments) + multiset(Opened(d).value.pending) == Copies(events))
  {
    hide TextOnly, Encode, Decoded, Step, Clean;
    NothingLost(events);
    LogKept(events);
    ReplayedLog(Run(events), Records(events));
    RunKeepsOrder(events);
  }

  // ----- a document that was added once -----

  /** How often the document was accepted into the log. */
  ghost function Adds(events: seq<Event>, doc: Document): nat
  {
    if events == [] then 0
    else
      var s, e := Run(events[..|events| - 1]), events[|events| - 1];
      Adds(events[..|events| - 1], doc)
      + if (e.Add? || (e.AddCrash? && e.cut > 0)) && e.doc == doc && s.memory.Some? && Accepts(doc, s.memory.value.pending) then 1
        else 0
  }

  /** How many crashes hit between rename and truncation while the document was
      in the log. */
  ghost function WindowCrashes(events: seq<Event>, doc: Document): nat
  {
    if events == [] then 0
    else
      var s, e := Run(events[..|events| - 1]), events[|events| - 1];
      WindowCrashes(events[..|events| - 1], doc)
      + if e == RefreshCrash(CrashPoint.Renamed) && s.memory.Some? && doc in s.memory.value.pending then 1 else 0
  }

  /** The log never holds more copies than were added. */
  lemma {:induction false} LoggedAtMost(events: seq<Event>, doc: Document)
    requires AllClean(events)
    ensures multiset(Accepted(Records(events)))[doc] <= Adds(events, doc)
  {
    hide TextOnly, Encode, Step, Clean, Run, Accepted;
    if events == [] {
      NothingAccepted();
    } else {
      var n := |events| - 1;
      var before, e := events[..n], events[n];
      assert AllClean(before) by { forall k | 0 <= k < n ensures Clean(before[k]) { assert before[k] == events[k]; } }
      LoggedAtMost(before, doc);
      LogKept(before);
      NothingAccepted();
      if Run(before).memory.Some? && (e.Add? || e.AddCrash?) {
        CleanText(e);
        GainAdd(Run(before), Records(before), e.doc);
      }
    }
  }

  lemma {:induction false} NothingAccepted()
    ensures Accepted([]) == []
  {
  }

  lemma {:induction false} CleanText(e: Event)
    requires Clean(e) && (e.Add? || e.AddCrash?)
    ensures TextOnly(e.doc)
  {
  }

  /** A document that was accepted once is there exactly once more than the
      crashes that hit between rename and truncation while it was logged. */
  lemma {:induction false} AddedOnce(events: seq<Event>, doc: Document)
    requires AllClean(events) && Adds(events, doc) <= 1
    ensures Copies(events)[doc] == Adds(events, doc) + WindowCrashes(events, doc)
  {
    hide TextOnly, Encode, Step, Clean, Run, Accepted, Records;
    if events != [] {
      var n := |events| - 1;
      var before, e := events[..n], events[n];
      assert AllClean(before) by { forall k | 0 <= k < n ensures Clean(before[k]) { assert before[k] == events[k]; } }
      AddedOnce(before, doc);
      LoggedAtMost(before, doc);
      LogKept(before);
      if Run(before).memory.Some? {
        var pending := Run(before).memory.value.pending;
        assert pending == Accepted(Records(before));
        assert doc in pending <==> multiset(pending)[doc] > 0;
      }
    }
  }

  // ----- a torn record -----

  /** A crash that leaves the header of a long record makes every shorter record
      that is acknowledged afterwards disappear with the next crash. */
  lemma {:induction false} TornRecordHides(long: Document, short: Document)
    requires TextOnly(long) && TextOnly(short) && |Encode(short)| + 4 < |Encode(long)|
    ensures var run := [Open, AddCrash(long, 4), Open, Add(short), Crash];
      && Run(run[..4]).memory.Some? && (Accepts(short, []) ==> short in Run(run[..4]).memory.value.pending)
      && Stored(Run(run).disk) == multiset{}
  {
    hide Encode;
    var events := [Open, AddCrash(long, 4), Open, Add(short), Crash];
    assert events[..4][..3] == events[..3] && events[..3][..2] == events[..2] && events[..2][..1] == events[..1]
        && events[..1][..0] == [];
    var d0 := EMPTY_DISK;
    assert Replay("") == [] && Accepted([]) == [] && Decoded([]) == [];
    var log := "" + Reached(Frame(Encode(long)), 4);
    assert log == Frame(Encode(long))[..4];
    HeaderOnly(Encode(long), "");
    assert log + "" == log;
    HeaderOnly(Encode(long), Frame(Encode(short)));
    assert Run(events[..1]) == State(d0, Some(Memory(0, [], [], 0, [])));
    assert Run(events[..2]) == State(Disk(log, 0, [], map[]), None);
    assert Run(events[..3]) == State(Disk(log, 0, [], map[]), Some(Memory(0, [], [], 0, [])));
    assert Run(events[..4]).disk == Disk(log + Frame(Encode(short)), 0, [], map[]);
    assert Run(events).disk == Disk(log + Frame(Encode(short)), 0, [], map[]);
  }

  lemma {:induction false} PlainText(s: string)
    requires forall k :: 0 <= k < |s| ==> 'a' <= s[k] <= 'z' || s[k] == '_'
    ensures Json.EscapeAll(s) == s
  {
    if s != "" {
      PlainText(s[1..]);
      PlainChar(s[0]);
      hide Json.Escape;
      assert s == [s[0]] + s[1..];
    }
  }

  lemma {:induction false} PlainChar(c: char)
    requires 'a' <= c <= 'z' || c == '_'
    ensures Json.Escape(c) == [c]
  {
  }

  /** The record of a document that has only an identifier. */
  lemma {:induction false} BareRecord(id: string)
    requires forall k :: 0 <= k < |id| ==> 'a' <= id[k] <= 'z'
    ensures |Encode(Document(id, map[], map[], None))| == |id| + 10
  {
    var doc := Document(id, map[], map[], None);
    var m := Json.Member(ID_FIELD, Json.Str(id));
    assert MembersFor(doc, {}) == [m] && doc.fields.Keys == {};
    PlainText(id);
    PlainText(ID_FIELD);
    assert Json.MemberTexts([m], 1, 0) == Json.MemberText(m, 1, 0);
    assert |Json.MemberText(m, 1, 0)| == |ID_FIELD| + 2 + 1 + |id| + 2;
  }

  /** Two such documents: a run in which the record of "a" is acknowledged and
      does not survive. */
  lemma {:induction false} TornRun()
    ensures var long, short := Document("bbbbbbbbbb", map[], map[], None), Document("a", map[], map[], None);
      var run := [Open, AddCrash(long, 4), Open, Add(short), Crash];
      Run(run[..4]).memory.Some? && short in Run(run[..4]).memory.value.pending && Stored(Run(run).disk) == multiset{}
  {
    BareRecord("bbbbbbbbbb");
    BareRecord("a");
    TornRecordHides(Document("bbbbbbbbbb", map[], map[], None), Document("a", map[], map[], None));
  }
}

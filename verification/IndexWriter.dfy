/** The index writer: a log for durability, segments for search, and a crash
    possible between any two durable writes.  A sealed segment is represented
    by the documents it stands for, which is what sealing and opening keep. */
module IndexWriters {
  import opened Base
  import opened Documents
  import opened LogRecords
  import opened Translogs
  import EndToEnd
  import Json
  import JsonParser
  import JsonRoundTrip

  /** What survives a crash: the log file, the manifest and the segments. */
  datatype Disk = Disk(log: string, generation: nat, listed: seq<string>, segments: map<string, seq<Document>>)

  /** What a running writer knows. */
  datatype Memory = Memory(generation: nat, sealed: seq<string>, pending: seq<Document>, nextId: nat, published: seq<string>)

  datatype State = State(disk: Disk, memory: Option<Memory>)

  // ----- segment names -----

  /** %020llu and %010u. */
  function Padded(n: nat, width: nat): string
  {
    var d := Json.Decimal(n);
    if |d| >= width then d else Zeros(width - |d|) + d
  }

  function Zeros(n: nat): string
  {
    if n == 0 then "" else "0" + Zeros(n - 1)
  }

  /** MakeSegmentStem. */
  function Stem(generation: nat, id: nat): string
  {
    "seg-" + (Padded(generation, 20) + ("-" + Padded(id, 10)))
  }

  // ----- the steps -----

  /** The documents that a replay of the log brings back. */
  function Decoded(payloads: seq<string>): seq<Document>
  {
    if payloads == [] then []
    else
      var before := Decoded(payloads[..|payloads| - 1]);
      match Decode(payloads[|payloads| - 1]) case None => before case Some(doc) => before + [doc]
  }

  function Logged(disk: Disk): seq<Document>
  {
    Decoded(Replay(disk.log))
  }

  /** Where a crash hits a refresh. */
  datatype CrashPoint =
    | Sealing(files: seq<Document>)  // some of the new segment's files are written
    | Sealed                         // before the manifest is renamed
    | Renamed                        // before the log is truncated
    | Truncated                      // before the refresh returns

  /** What happens to the index.  A crash while a document is added leaves the
      first cut bytes of its record in the log. */
  datatype Event =
    | Open
    | Add(doc: Document)
    | AddCrash(doc: Document, cut: nat)
    | Refresh
    | RefreshCrash(point: CrashPoint)
    | Crash
    | Close

  predicate Accepts(doc: Document, pending: seq<Document>)
  {
    doc.id != "" && |pending| < NO_MORE
  }

  function WithDoc(pending: seq<Document>, doc: Document): seq<Document>
  {
    if Accepts(doc, pending) then pending + [doc] else pending
  }

  /** The stem of the segment that a refresh would write. */
  function NextStem(m: Memory): string
  {
    Stem(m.generation + 1, m.nextId)
  }

  function AfterSeal(d: Disk, m: Memory): Disk
  {
    d.(segments := d.segments[NextStem(m) := m.pending])
  }

  function AfterRename(d: Disk, m: Memory): Disk
  {
    AfterSeal(d, m).(generation := m.generation + 1, listed := m.sealed + [NextStem(m)])
  }

  function AfterTruncate(d: Disk, m: Memory): Disk
  {
    AfterRename(d, m).(log := "")
  }

  /** An empty refresh writes nothing; one with documents publishes a new
      segment. */
  function Refreshed(d: Disk, m: Memory): State
  {
    if m.pending == [] then State(d, Some(m.(published := m.sealed)))
    else
      var sealed := m.sealed + [NextStem(m)];
      State(AfterTruncate(d, m), Some(Memory(m.generation + 1, sealed, [], m.nextId + 1, sealed)))
  }

  /** The disk after a crash in a refresh. */
  function Interrupted(d: Disk, m: Memory, point: CrashPoint): Disk
  {
    if m.pending == [] then d
    else match point
      case Sealing(files) => d.(segments := d.segments[NextStem(m) := files])
      case Sealed => AfterSeal(d, m)
      case Renamed => AfterRename(d, m)
      case Truncated => AfterTruncate(d, m)
  }

  /** Opening replays the log into a new in-memory segment.  It fails when a
      segment of the manifest is missing or the log holds more documents than a
      segment can take. */
  function Opened(d: Disk): Option<Memory>
  {
    var docs := Logged(d);
    var pending := EndToEnd.Accepted(docs);
    if |pending| < |docs| || exists k :: 0 <= k < |d.listed| && d.listed[k] !in d.segments then None
    else Some(Memory(d.generation, d.listed, pending, 0, d.listed))
  }

  /** A step of a writer that is open. */
  ghost function StepUp(d: Disk, m: Memory, e: Event): State
  {
    match e
    case Open => State(d, Some(m))
    case Add(doc) => State(d.(log := d.log + Frame(Encode(doc))), Some(m.(pending := WithDoc(m.pending, doc))))
    case AddCrash(doc, cut) => State(d.(log := d.log + Reached(Frame(Encode(doc)), cut)), None)
    case Refresh => Refreshed(d, m)
    case RefreshCrash(point) => State(Interrupted(d, m, point), None)
    case Crash => State(d, None)
    case Close => State(d, None)
  }

  /** The part of a record that reached the disk. */
  function Reached(frame: string, cut: nat): string
  {
    if cut < |frame| then frame[..cut] else frame
  }

  /** Nothing but opening changes the state while no writer is open. */
  ghost function Step(s: State, e: Event): State
  {
    match s.memory
    case Some(m) => StepUp(s.disk, m, e)
    case None => if e.Open? then State(s.disk, Opened(s.disk)) else s
  }

  const EMPTY_DISK: Disk := Disk("", 0, [], map[])

  /** The state after a run that starts with an empty directory. */
  ghost function Run(events: seq<Event>): State
  {
    if events == [] then State(EMPTY_DISK, None)
    else Step(Run(events[..|events| - 1]), events[|events| - 1])
  }

  // ----- the writer -----

  /** The directory. */
  class Store {
    var disk: Disk

    constructor ()
      ensures disk == EMPTY_DISK
    {
      disk := EMPTY_DISK;
    }
  }

  class IndexWriter {
    const store: Store
    var generation: nat
    var sealed: seq<string>
    var pending: seq<Document>
    var nextSegmentId: nat
    var published: seq<string>
    var isOpen: bool

    ghost function Now(): State
      reads this, store
    {
      State(store.disk, if isOpen then Some(Memory(generation, sealed, pending, nextSegmentId, published)) else None)
    }

    /** Only for a manifest and a log that Open has read. */
    constructor (store: Store, m: Memory)
      ensures this.store == store && isOpen && Now() == State(store.disk, Some(m))
    {
      this.store := store;
      generation, sealed, pending, nextSegmentId, published := m.generation, m.sealed, m.pending, m.nextId, m.published;
      isOpen := true;
    }

    /** The new document is durable before it is pending. */
    method AddDocument(doc: Document, crash: Option<nat>) returns (r: Result<nat>, alive: bool)
      modifies this, store
      ensures !old(isOpen) ==> r == Err("writer is closed") && alive && Now() == old(Now())
      ensures old(isOpen) ==> alive == crash.None?
      ensures old(isOpen) ==>
        Now() == Step(old(Now()), if crash.Some? then AddCrash(doc, crash.value) else Add(doc))
      ensures old(isOpen) && alive ==> (r.Ok? <==> Accepts(doc, old(pending)))
      ensures r.Ok? && alive ==> r.value == |old(pending)|
    {
      if !isOpen { return Err("writer is closed"), true; }
      var json := DocToJson(doc);
      var frame := Frame(json);
      if crash.Some? {
        store.disk := store.disk.(log := store.disk.log + Reached(frame, crash.value));
        isOpen := false;
        return Err("crashed"), false;
      }
      store.disk := store.disk.(log := store.disk.log + frame);
      if !Accepts(doc, pending) { return Err("document refused"), true; }
      pending := pending + [doc];
      return Ok(|pending| - 1), true;
    }

    /** Seals the pending documents, renames the manifest, truncates the log and
        publishes, in this order. */
    method Refresh(crash: Option<CrashPoint>) returns (r: Result<nat>, alive: bool)
      modifies this, store
      ensures !old(isOpen) ==> r == Err("writer is closed") && alive && Now() == old(Now())
      ensures old(isOpen) ==> alive == crash.None?
      ensures old(isOpen) ==>
        Now() == Step(old(Now()), if crash.Some? then RefreshCrash(crash.value) else Event.Refresh)
      ensures old(isOpen) && alive ==> r == Ok(generation)
    {
      if !isOpen { return Err("writer is closed"), true; }
      var m := Memory(generation, sealed, pending, nextSegmentId, published);
      if pending == [] {
        if crash.Some? {
          isOpen := false;
          return Err("crashed"), false;
        }
        published := sealed;
        return Ok(generation), true;
      }
      if crash.Some? {
        store.disk := Interrupted(store.disk, m, crash.value);
        isOpen := false;
        return Err("crashed"), false;
      }
      store.disk := AfterSeal(store.disk, m);
      store.disk := store.disk.(generation := m.generation + 1, listed := m.sealed + [NextStem(m)]);
      store.disk := store.disk.(log := "");
      Settle(m);
      return Ok(generation), true;
    }

    method Settle(m: Memory)
      requires isOpen
      modifies this
      ensures isOpen && Now() == State(store.disk, Some(Memory(m.generation + 1, m.sealed + [NextStem(m)], [], m.nextId + 1,
                                                               m.sealed + [NextStem(m)])))
    {
      generation, sealed, pending := m.generation + 1, m.sealed + [NextStem(m)], [];
      nextSegmentId, published := m.nextId + 1, m.sealed + [NextStem(m)];
    }

    /** Pending documents stay in the log. */
    method Shut()
      modifies this
      ensures Now() == State(store.disk, None) && !isOpen
    {
      isOpen := false;
    }

    function CurrentReader(): seq<string>
      reads this
    {
      published
    }
  }

  /** IndexWriter::Open on a directory that no writer has open. */
  method OpenWriter(store: Store) returns (w: Option<IndexWriter>)
    ensures w.Some? <==> Opened(store.disk).Some?
    ensures w.Some? ==> fresh(w.value) && w.value.store == store && w.value.Now() == Step(State(store.disk, None), Open)
  {
    var log := new Translog(store.disk.log);
    var records := log.ReplayRecords();
    var docs: seq<Document> := [];
    for k := 0 to |records|
      invariant docs == Decoded(records[..k])
    {
      assert records[..k + 1][..k] == records[..k];
      var doc := DocFromJson(records[k]);
      if doc.Some? { docs := docs + [doc.value]; }
    }
    assert records[..|records|] == records;
    var pending := EndToEnd.Accepted(docs);
    if |pending| < |docs| { return None; }
    for k := 0 to |store.disk.listed|
      invariant forall i :: 0 <= i < k ==> store.disk.listed[i] in store.disk.segments
    {
      if store.disk.listed[k] !in store.disk.segments { return None; }
    }
    var m := Memory(store.disk.generation, store.disk.listed, pending, 0, store.disk.listed);
    var writer := new IndexWriter(store, m);
    return Some(writer);
  }

  // ----- names are never used twice -----

  lemma {:induction false} PaddedDigits(n: nat, width: nat)
    ensures '-' !in Padded(n, width)
    ensures JsonParser.DigitsValue(Padded(n, width)) == n
  {
    JsonRoundTrip.DecimalDigits(n);
    var d := Json.Decimal(n);
    if |d| < width { LeadingZeros(width - |d|, d); }
  }

  lemma {:induction false} LeadingZeros(k: nat, d: string)
    requires d != ""
    ensures JsonParser.DigitsValue(Zeros(k) + d) == JsonParser.DigitsValue(d)
    ensures '-' in Zeros(k) + d ==> '-' in d
    decreases k + |d|
  {
    if k > 0 {
      LeadingZero(Zeros(k - 1) + d);
      LeadingZeros(k - 1, d);
      assert Zeros(k) + d == "0" + (Zeros(k - 1) + d);
    } else {
      assert Zeros(0) + d == d;
    }
  }

  lemma {:induction false} LeadingZero(d: string)
    ensures JsonParser.DigitsValue("0" + d) == JsonParser.DigitsValue(d)
  {
    var all := "0" + d;
    if d == "" {
      assert all[..0] == "";
    } else {
      assert all[..|all| - 1] == "0" + d[..|d| - 1];
      LeadingZero(d[..|d| - 1]);
    }
  }

  /** Different generations, or different counters, give different names. */
  lemma {:induction false} StemsDiffer(g: nat, i: nat, h: nat, j: nat)
    requires Stem(g, i) == Stem(h, j)
    ensures g == h && i == j
  {
    PaddedDigits(g, 20);
    PaddedDigits(h, 20);
    PaddedDigits(i, 10);
    PaddedDigits(j, 10);
    var a, b, c, d := Padded(g, 20), Padded(i, 10), Padded(h, 20), Padded(j, 10);
    assert Stem(g, i)[4..] == a + ("-" + b) && Stem(h, j)[4..] == c + ("-" + d);
    SplitAtDash(a, b, c, d);
  }

  /** 10 to the n. */
  function Tens(n: nat): nat
  {
    if n == 0 then 1 else 10 * Tens(n - 1)
  }

  lemma {:induction false} DecimalLength(n: nat, width: nat)
    requires width > 0 && n < Tens(width)
    ensures |Json.Decimal(n)| <= width
  {
    if width > 1 && n >= 10 { DecimalLength(n / 10, width - 1); }
  }

  lemma {:induction false} PaddedLength(n: nat, width: nat)
    requires width > 0 && n < Tens(width)
    ensures |Padded(n, width)| == width
  {
    DecimalLength(n, width);
    ZerosLength(width - |Json.Decimal(n)|);
  }

  lemma {:induction false} ZerosLength(n: nat)
    ensures |Zeros(n)| == n
  {
    if n > 0 { ZerosLength(n - 1); }
  }

  /** The name has 35 characters: the generation in 20 digits, then the counter
      in 10, as long as they have that few. */
  lemma {:induction false} StemShape(generation: nat, id: nat)
    requires generation < Tens(20) && id < Tens(10)
    ensures var s := Stem(generation, id);
      && |s| == 35 && s[..4] == "seg-" && s[24] == '-'
      && JsonParser.DigitsValue(s[4..24]) == generation && JsonParser.DigitsValue(s[25..]) == id
  {
    hide Tens, Padded;
    PaddedLength(generation, 20);
    PaddedLength(id, 10);
    PaddedDigits(generation, 20);
    PaddedDigits(id, 10);
    var s := Stem(generation, id);
    assert s[4..24] == Padded(generation, 20) && s[25..] == Padded(id, 10);
  }

  lemma {:induction false} SplitAtDash(a: string, b: string, c: string, d: string)
    requires a + ("-" + b) == c + ("-" + d) && '-' !in a && '-' !in c
    ensures a == c && b == d
  {
    var s := a + ("-" + b);
    assert s[|a|] == '-' && (c + ("-" + d))[|c|] == '-';
    forall k | 0 <= k < |a| ensures s[k] != '-' { assert s[k] == a[k]; }
    forall k | 0 <= k < |c| ensures s[k] != '-' { assert (c + ("-" + d))[k] == c[k]; }
    assert s[..|a|] == a && (c + ("-" + d))[..|c|] == c;
    assert s[|a| + 1..] == b && (c + ("-" + d))[|c| + 1..] == d;
  }
}

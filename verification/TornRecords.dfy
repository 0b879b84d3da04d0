/** Adding documents behind a record that a crash has torn: exactly when the
    documents acknowledged from then on can be lost. */
module TornRecords {
  import opened Base
  import opened CrashSafety
  import opened Documents
  import opened EndToEnd
  import opened IndexWriters
  import opened LogRecords
  import opened Translogs
  import Json

  /** What the writer has accepted and not sealed is what opening would bring
      back if the process crashed now. */
  ghost predicate Recovers(s: State)
  {
    s.memory.Some? ==> Accepted(Logged(s.disk)) == s.memory.value.pending
  }

  lemma {:induction false} CleanRecovers(events: seq<Event>)
    requires AllClean(events)
    ensures Recovers(Run(events))
  {
    hide Accepted, Logged, Run, TextOnly, Encode, Clean;
    LogKept(events);
    ReplayedLog(Run(events), Records(events));
  }

  lemma {:induction false} DecodedConcat(p: seq<string>, q: seq<string>)
    ensures Decoded(p + q) == Decoded(p) + Decoded(q)
  {
    hide Decode;
    if q == [] {
      assert p + q == p;
    } else {
      var n := |q| - 1;
      assert p + q == (p + q[..n]) + [q[n]] && q == q[..n] + [q[n]];
      DecodedConcat(p, q[..n]);
      DecodedSnoc(p + q[..n], q[n]);
      DecodedSnoc(q[..n], q[n]);
    }
  }

  lemma {:induction false} AcceptedSnoc(docs: seq<Document>, doc: Document)
    ensures Accepted(docs + [doc]) == WithDoc(Accepted(docs), doc)
  {
    assert (docs + [doc])[..|docs|] == docs;
  }

  // ----- behind a torn record -----

  /** Opening after the crash brings back what was there before. */
  lemma {:induction false} OpenedTorn(before: seq<Event>, doc: Document, cut: nat)
    requires AllClean(before) && Run(before).memory.Some? && TextOnly(doc) && cut < |Frame(Encode(doc))|
    ensures var start, r := Run(before + [AddCrash(doc, cut), Open]), Records(before);
      && AllTextOnly(r) && start.disk.log == Frames(Payloads(r)) + Frame(Encode(doc))[..cut]
      && Decoded(Payloads(r)) == Identified(r) && Short(Payloads(r))
      && start.memory == Opened(start.disk) && Logged(start.disk) == Identified(r)
  {
    hide TextOnly, Encode, Frame, Decode, Opened, Accepted, Frames, Replay, Decoded;
    LogKept(before);
    var events := before + [AddCrash(doc, cut), Open];
    var n := |before|;
    assert events[..n + 1][..n] == before && events[..n + 1][n] == AddCrash(doc, cut) && events[..n + 1] == before + [AddCrash(doc, cut)];
    assert Run(before + [AddCrash(doc, cut)]) == Step(Run(before), AddCrash(doc, cut));
    assert Run(events) == Step(Run(before + [AddCrash(doc, cut)]), Open);
    var r, torn := Records(before), Frame(Encode(doc))[..cut];
    DecodedBack(r);
    AfterRecords(Payloads(r), torn);
    NothingTorn(Encode(doc), cut) by { TextBack(doc); }
    assert Payloads(r) + [] == Payloads(r);
  }

  lemma {:induction false} NothingTorn(payload: string, cut: nat)
    requires |payload| < U32 && cut < |Frame(payload)|
    ensures Replay(Frame(payload)[..cut]) == []
  {
    hide Frame;
    TornTail(Frame(payload)[..cut], 0, payload, []);
  }

  /** A bare document, and what its record is. */
  function Bare(id: string): Document
  {
    Documents.Document(id, map[], map[], None)
  }

  predicate Letters(id: string)
  {
    forall k :: 0 <= k < |id| ==> 'a' <= id[k] <= 'z'
  }

  lemma {:induction false} BareText(id: string)
    requires Letters(id) && |id| < 1000
    ensures TextOnly(Bare(id)) && Encode(Bare(id)) == "{\"_id\":\"" + id + "\"}"
  {
    hide Json.Text, Json.EscapeAll;
    var doc := Bare(id);
    var m := Json.Member(ID_FIELD, Json.Str(id));
    assert MembersFor(doc, {}) == [m] && doc.fields.Keys == {};
    OneMember(id);
  }

  lemma {:induction false} OneMember(id: string)
    requires Letters(id)
    ensures Json.Text(Json.Obj([Json.Member(ID_FIELD, Json.Str(id))]), 0, 0) == "{\"_id\":\"" + id + "\"}"
  {
    hide Json.EscapeAll;
    var m := Json.Member(ID_FIELD, Json.Str(id));
    PlainText(id);
    PlainText(ID_FIELD);
    var key, value := "\"" + (ID_FIELD + "\""), "\"" + (id + "\"");
    assert Json.MemberText(m, 1, 0) == "" + (key + (":" + value));
    assert Json.MemberTexts([m], 1, 0) == Json.MemberText(m, 1, 0);
    assert Json.Text(Json.Obj([m]), 0, 0) == "{" + (Json.MemberText(m, 1, 0) + ("" + "}"));
  }

  /** One of two documents is not read back from behind a torn record. */
  lemma {:induction false} SomeLost(payload: string, k: nat) returns (w: Document)
    requires |payload| < U32 && 0 < k < |Frame(payload)|
    ensures TextOnly(w) && w.id != ""
    ensures var read := Decoded(Replay(Frame(payload)[..k] + Frame(Encode(w))));
      read == [] || (|read| == 1 && read[0] != w)
  {
    hide Frame, Replay, Decode, Encode;
    if k < 4 || |Frame(payload)| - k > 15 {
      w := Bare("a");
      BareText("a");
      if k < 4 { TornHeader(payload, k, Encode(w)); } else { TornPayload(payload, k, Frame(Encode(w))); }
    } else {
      w := LostOfTwo(payload, k);
    }
  }

  const PAD: string := "aaaaaaaaaaaaaaaa"

  /** Both records continue the torn one in the same way, so they cannot both be
      what is read; and nothing is read behind it. */
  lemma {:induction false} LostOfTwo(payload: string, k: nat) returns (w: Document)
    requires |payload| < U32 && 4 <= k < |Frame(payload)| <= k + 15
    ensures TextOnly(w) && w.id != ""
    ensures var read := Decoded(Replay(Frame(payload)[..k] + Frame(Encode(w))));
      read == [] || (|read| == 1 && read[0] != w)
  {
    hide Frame, Replay, Decode, Encode;
    var m := |Frame(payload)| - k;
    var a, b := Bare(PAD + "a"), Bare(PAD + "b");
    BareText(PAD + "a");
    BareText(PAD + "b");
    var g := payload[..k - 4] + Frame(Encode(a))[..m];
    SmallFrame(Encode(a));
    SmallFrame(Encode(b));
    assert Frame(Encode(a))[..20] == Frame(Encode(b))[..20];
    assert Frame(Encode(a))[..m] == Frame(Encode(a))[..20][..m] && Frame(Encode(b))[..m] == Frame(Encode(b))[..20][..m];
    w := if Decode(g) == Some(a) then b else a;
    NothingBehind(w.id, m);
    TornPayload(payload, k, Frame(Encode(w)));
    assert Replay(Frame(payload)[..k] + Frame(Encode(w))) == [g];
    assert [] + [g] == [g] && a.id[16] != b.id[16];
    DecodedSnoc([], g);
    NothingDecoded();
  }

  /** From the middle of the frame on, four bytes never announce as little as
      there is. */
  lemma {:induction false} NothingBehind(id: string, m: nat)
    requires id == PAD + "a" || id == PAD + "b"
    requires 1 <= m <= 15
    ensures |Frame(Encode(Bare(id)))| == 31 && Replay(Frame(Encode(Bare(id)))[m..]) == []
  {
    hide Frame, Encode;
    BareText(id);
    var text := "{\"_id\":\"" + id + "\"}";
    SmallFrame(text);
    var rest := Frame(text)[m..];
    assert rest[3] == Frame(text)[m + 3] == text[m - 1];
    assert text[m - 1] as int >= 0x20;
    HighByte(rest, 0);
  }

  // ----- a full segment -----

  /** The in-memory segment takes no more documents, and the log brings it back:
      whatever is appended to the log. */
  ghost predicate Full(s: State)
  {
    |Accepted(Logged(s.disk))| == NO_MORE && Recovers(s)
  }

  lemma {:induction false} DecodedGrows(p: seq<string>, q: seq<string>)
    requires p <= q
    ensures Decoded(p) <= Decoded(q)
  {
    assert q == p + q[|p|..];
    DecodedConcat(p, q[|p|..]);
  }

  lemma {:induction false} AcceptedGrows(a: seq<Document>, b: seq<Document>)
    requires a <= b
    ensures Accepted(a) <= Accepted(b)
    decreases |b|
  {
    if |a| < |b| { AcceptedGrows(a, b[..|b| - 1]); } else { assert a == b; }
  }

  /** No appended byte changes a full segment. */
  lemma {:induction false} FullStays(d: Disk, more: string)
    requires |Accepted(Logged(d))| == NO_MORE
    ensures Accepted(Logged(d.(log := d.log + more))) == Accepted(Logged(d))
  {
    hide Accepted, Decoded, ReplayFrom;
    ReplayGrows(d.log, more, 0, []);
    DecodedGrows(Replay(d.log), Replay(d.log + more));
    AcceptedGrows(Logged(d), Logged(d.(log := d.log + more)));
  }

  /** Full segments stay full until a refresh empties the log. */
  lemma {:induction false} FullStep(s: State, e: Event)
    requires Full(s)
    ensures Full(Step(s, e)) || LogHolds(Step(s, e), [])
  {
    hide Accepted, Decoded, Replay, Encode, Frame, NextStem;
    NoRecords();
    match e
    case Add(doc) => FullStays(s.disk, Frame(Encode(doc)));
    case AddCrash(doc, cut) => FullStays(s.disk, Reached(Frame(Encode(doc)), cut));
    case _ =>
  }

  /** From a full segment on, nothing is lost in any clean run. */
  lemma {:induction false} FullRecovers(start: seq<Event>, after: seq<Event>)
    requires Full(Run(start)) && AllClean(after)
    ensures Full(Run(start + after)) || exists r :: LogHolds(Run(start + after), r)
    ensures Recovers(Run(start + after))
  {
    hide Full, LogHolds, Run, Clean, Recovers, Step;
    if after == [] {
      assert start + after == start;
    } else {
      var n := |after| - 1;
      var before := start + after[..n];
      assert AllClean(after[..n]) by { forall k | 0 <= k < n ensures Clean(after[..n][k]) { assert after[..n][k] == after[k]; } }
      FullRecovers(start, after[..n]);
      assert start + after == before + [after[n]];
      RunSnoc(before, after[n]);
      if Full(Run(before)) {
        FullStep(Run(before), after[n]);
      } else {
        var r :| LogHolds(Run(before), r);
        assert Clean(after[n]);
        LogStep(Run(before), r, after[n]);
      }
    }
    EitherRecovers(Run(start + after));
  }

  lemma {:induction false} RunSnoc(events: seq<Event>, e: Event)
    ensures Run(events + [e]) == Step(Run(events), e)
  {
    assert (events + [e])[..|events|] == events;
  }

  lemma {:induction false} EitherRecovers(s: State)
    requires Full(s) || exists r :: LogHolds(s, r)
    ensures Recovers(s)
  {
    hide Accepted, Logged, TextOnly, Encode;
    if !Full(s) {
      var r :| LogHolds(s, r);
      ReplayedLog(s, r);
    }
  }

  // ----- the condition -----

  /** A torn record with room behind it: adding one document more shows the
      loss. */
  lemma {:induction false} TornLoses(before: seq<Event>, doc: Document, cut: nat) returns (w: Document)
    requires AllClean(before) && Run(before).memory.Some? && TextOnly(doc) && 0 < cut < |Frame(Encode(doc))|
    requires var s := Run(before + [AddCrash(doc, cut), Open]); s.memory.Some? && |s.memory.value.pending| < NO_MORE
    ensures Clean(Add(w)) && Accepts(w, Run(before + [AddCrash(doc, cut), Open]).memory.value.pending)
    ensures !Recovers(Run(before + [AddCrash(doc, cut), Open] + [Add(w)]))
  {
    hide TextOnly, Encode, Frame, Decode, Accepted, Frames, Replay, Decoded, Run, Identified;
    OpenedTorn(before, doc, cut);
    TextBack(doc);
    w := SomeLost(Encode(doc), cut);
    var start, r, torn := before + [AddCrash(doc, cut), Open], Records(before), Frame(Encode(doc))[..cut];
    RunSnoc(start, Add(w));
    var frame := Frame(Encode(w));
    assert (Frames(Payloads(r)) + torn) + frame == Frames(Payloads(r)) + (torn + frame);
    AfterRecords(Payloads(r), torn + frame);
    DecodedConcat(Payloads(r), Replay(torn + frame));
    var read := Decoded(Replay(torn + frame));
    assert Logged(Run(start + [Add(w)]).disk) == Identified(r) + read;
    var pending := Run(start).memory.value.pending;
    assert pending == Accepted(Identified(r));
    if read == [] {
      assert Identified(r) + read == Identified(r);
    } else {
      assert read == [read[0]];
      AcceptedSnoc(Identified(r), read[0]);
      assert (pending + [w])[|pending|] == w;
    }
  }

  /** After a crash while a document was being added, and with the index open
      again, whatever is added, refreshed, crashed and reopened from then on:
      what the writer accepted is always there to be recovered, if and only if
      none or all of the interrupted record reached the disk, or the segment
      cannot take another document anyway. */
  lemma {:induction false} TornExactly(before: seq<Event>, doc: Document, cut: nat)
    requires AllClean(before) && Run(before).memory.Some? && TextOnly(doc)
    requires Run(before + [AddCrash(doc, cut), Open]).memory.Some?
    ensures var start := before + [AddCrash(doc, cut), Open];
      (forall after :: AllClean(after) ==> Recovers(Run(start + after)))
      <==> cut == 0 || cut >= |Frame(Encode(doc))| || |Run(start).memory.value.pending| == NO_MORE
  {
    hide TextOnly, Encode, Frame, Accepted, Logged, Run, Recovers;
    var start := before + [AddCrash(doc, cut), Open];
    if cut == 0 || cut >= |Frame(Encode(doc))| {
      forall after | AllClean(after) ensures Recovers(Run(start + after)) {
        assert Clean(AddCrash(doc, cut)) && Clean(Open);
        CleanConcat(before, [AddCrash(doc, cut), Open], after);
        CleanRecovers(start + after);
      }
    } else if |Run(start).memory.value.pending| == NO_MORE {
      TornIsFull(before, doc, cut);
      forall after | AllClean(after) ensures Recovers(Run(start + after)) { FullRecovers(start, after); }
    } else {
      PendingFits(before, doc, cut);
      var w := TornLoses(before, doc, cut);
      assert AllClean([Add(w)]);
    }
  }

  lemma {:induction false} CleanConcat(a: seq<Event>, b: seq<Event>, c: seq<Event>)
    requires AllClean(a) && AllClean(b) && AllClean(c)
    ensures AllClean(a + b + c)
  {
    hide Clean;
  }

  lemma {:induction false} TornIsFull(before: seq<Event>, doc: Document, cut: nat)
    requires AllClean(before) && Run(before).memory.Some? && TextOnly(doc) && cut < |Frame(Encode(doc))|
    requires var s := Run(before + [AddCrash(doc, cut), Open]); s.memory.Some? && |s.memory.value.pending| == NO_MORE
    ensures Full(Run(before + [AddCrash(doc, cut), Open]))
  {
    hide TextOnly, Encode, Frame, Accepted, Logged, Run;
    OpenedTorn(before, doc, cut);
  }

  lemma {:induction false} PendingFits(before: seq<Event>, doc: Document, cut: nat)
    requires AllClean(before) && Run(before).memory.Some? && TextOnly(doc) && cut < |Frame(Encode(doc))|
    requires Run(before + [AddCrash(doc, cut), Open]).memory.Some?
    ensures |Run(before + [AddCrash(doc, cut), Open]).memory.value.pending| <= NO_MORE
  {
    hide TextOnly, Encode, Frame, Accepted, Logged, Run;
    OpenedTorn(before, doc, cut);
  }
}

/** The two leaf iterators: one decodes a posting list, the other counts
    through every document of a segment. */
module LeafIterators {
  import opened Base
  import opened DocSets
  import opened PostingFormat
  import LittleEndian
  import TokenWeight
  import VarByte

  /** Position() when the field stores none. */
  const NO_POSITION: nat := 0xFFFF

  /** The documents of a posting list with their term frequencies. */
  ghost function Frequencies(es: seq<Entry>): DocSet
  {
    if es == [] then map[] else Frequencies(es[..|es| - 1])[es[|es| - 1].doc := es[|es| - 1].tf]
  }

  lemma {:induction false} FrequencyFrom(es: seq<Entry>, d: nat) returns (i: nat)
    requires d in Frequencies(es)
    ensures i < |es| && es[i].doc == d
  {
    if d == es[|es| - 1].doc {
      i := |es| - 1;
    } else {
      i := FrequencyFrom(es[..|es| - 1], d);
    }
  }

  lemma {:induction false} FrequencyAt(es: seq<Entry>, i: nat)
    requires Valid(es) && i < |es|
    ensures es[i].doc in Frequencies(es) && Frequencies(es)[es[i].doc] == es[i].tf
  {
    if i < |es| - 1 {
      AscendsSnoc(es[..|es| - 1], es[|es| - 1], 0);
      assert es == es[..|es| - 1] + [es[|es| - 1]];
      FrequencyAt(es[..|es| - 1], i);
      Ordered(es, 0, i, |es| - 1);
    }
  }

  /** The two position bytes and the weight byte are where the decoder reads
      them. */
  lemma {:induction false} PayloadParts(e: Entry, layout: Layout, s: string, pos: nat, end: nat)
    requires e.pos < U16 && e.quantised < 256
    requires At(s, pos, end, Payload(e, layout))
    ensures PayloadAt(s, pos, e, layout)
  {
    var word := if layout.hasPositions then LittleEndian.Word(e.pos, 2) else "";
    var weight := if layout.hasTokenWeights then [e.quantised as char] else "";
    AtSplit(s, pos, end, word, weight);
    if layout.hasPositions {
      LittleEndian.Capacities();
      LittleEndian.ValueOfWord(e.pos, 2, s, pos, end);
      assert LittleEndian.Value(s, pos + 1, 1) == s[pos + 1] as int + 256 * LittleEndian.Value(s, pos + 2, 0);
    }
    if layout.hasTokenWeights {
      AtChar(s, pos + |word|, end, weight, 0);
    }
  }

  function PayloadSize(layout: Layout): nat
  {
    (if layout.hasPositions then 2 else 0) + (if layout.hasTokenWeights then 1 else 0)
  }

  ghost predicate PayloadAt(s: string, pos: nat, e: Entry, layout: Layout)
  {
    && pos + PayloadSize(layout) <= |s|
    && (layout.hasPositions ==> Mod16(s[pos] as int + 256 * (s[pos + 1] as int)) == e.pos)
    && (layout.hasTokenWeights ==> s[pos + PayloadSize(layout) - 1] as int == e.quantised)
  }

  /** A decoder standing at pos reads the entry e and arrives at next. */
  ghost predicate EntryAt(s: string, pos: nat, e: Entry, prev: nat, layout: Layout, next: nat)
  {
    && pos < |s| && prev <= e.doc
    && var d := VarByte.DecodeSpec(s, pos, |s|, VarByte.W32);
    && d.value == Some(e.doc - prev)
    && var f := VarByte.DecodeSpec(s, d.pos, |s|, VarByte.W32);
    && f.value == Some(e.tf)
    && PayloadAt(s, f.pos, e, layout)
    && next == f.pos + PayloadSize(layout)
  }

  /** The two numbers at the head of an entry. */
  lemma {:induction false} HeadDecodes(s: string, pos: nat, delta: nat, tf: nat, payload: string, rest: string) returns (c: nat)
    requires delta < U32 && tf < U32
    requires At(s, pos, |s|, (VarByte.Encoding(delta) + (VarByte.Encoding(tf) + payload)) + rest)
    ensures pos < c <= |s| && VarByte.DecodeSpec(s, pos, |s|, VarByte.W32) == VarByte.Decoded(Some(delta), c)
    ensures VarByte.DecodeSpec(s, c, |s|, VarByte.W32) == VarByte.Decoded(Some(tf), c + |VarByte.Encoding(tf)|)
    ensures At(s, c + |VarByte.Encoding(tf)|, |s|, payload)
    ensures At(s, c + |VarByte.Encoding(tf)| + |payload|, |s|, rest)
  {
    AtSplit3(s, pos, |s|, VarByte.Encoding(delta), VarByte.Encoding(tf), payload, rest);
    c := pos + |VarByte.Encoding(delta)|;
    VarByte.RoundTrip(delta, s, pos, |s|, VarByte.W32);
    VarByte.RoundTrip(tf, s, c, |s|, VarByte.W32);
  }

  /** The bytes of an entry, read in order. */
  lemma {:induction false} EntryDecodes(s: string, pos: nat, e: Entry, prev: nat, layout: Layout, rest: string) returns (next: nat)
    requires prev <= e.doc < U32 && e.tf < U32 && e.pos < U16 && e.quantised < 256
    requires At(s, pos, |s|, EntryBytes(e, prev, layout) + rest)
    ensures EntryAt(s, pos, e, prev, layout, next)
    ensures At(s, next, |s|, rest)
  {
    var c := HeadDecodes(s, pos, e.doc - prev, e.tf, Payload(e, layout), rest);
    var f := c + |VarByte.Encoding(e.tf)|;
    PayloadParts(e, layout, s, f, |s|);
    next := f + |Payload(e, layout)|;
  }

  /** Entry i of es stands between two consecutive offsets. */
  ghost predicate EntryOf(s: string, offsets: seq<nat>, es: seq<Entry>, i: nat, layout: Layout)
    requires i < |es| && |offsets| == |es| + 1
  {
    EntryAt(s, offsets[i], es[i], Last(es[..i], 0), layout, offsets[i + 1])
  }

  ghost predicate Decodes(s: string, offsets: seq<nat>, es: seq<Entry>, layout: Layout)
  {
    && |offsets| == |es| + 1
    && forall i :: 0 <= i < |es| ==> EntryOf(s, offsets, es, i, layout)
  }

  lemma {:induction false} DecodesSnoc(s: string, offsets: seq<nat>, es: seq<Entry>, e: Entry, next: nat, layout: Layout)
    requires Decodes(s, offsets, es, layout)
    requires EntryAt(s, offsets[|es|], e, Last(es, 0), layout, next)
    ensures Decodes(s, offsets + [next], es + [e], layout)
  {
    var es', offsets' := es + [e], offsets + [next];
    forall i | 0 <= i < |es'| ensures EntryOf(s, offsets', es', i, layout) {
      if i < |es| {
        assert EntryOf(s, offsets, es, i, layout);
        assert es'[..i] == es[..i];
      } else {
        assert es'[..i] == es;
      }
    }
  }

  /** Where each entry of a well-formed list starts: `done` are the entries
      whose offsets are known, `todo` those that follow. */
  lemma {:induction false} Offsets(s: string, done: seq<Entry>, todo: seq<Entry>, offsets: seq<nat>, layout: Layout)
      returns (all: seq<nat>)
    requires Ascends(todo, Last(done, 0))
    requires Decodes(s, offsets, done, layout)
    requires At(s, offsets[|done|], |s|, Entries(todo, Last(done, 0), layout))
    ensures Decodes(s, all, done + todo, layout) && all[0] == offsets[0]
    decreases |todo|
  {
    if todo == [] {
      assert done + todo == done;
      all := offsets;
    } else {
      var e := todo[0];
      var next := EntryDecodes(s, offsets[|done|], e, Last(done, 0), layout, Entries(todo[1..], e.doc, layout));
      DecodesSnoc(s, offsets, done, e, next, layout);
      assert (done + [e]) + todo[1..] == done + todo;
      assert Last(done + [e], 0) == e.doc;
      all := Offsets(s, done + [e], todo[1..], offsets + [next], layout);
    }
  }

  /** The count is read back, and then the entries one after the other. */
  lemma {:induction false} ListDecodes(es: seq<Entry>, layout: Layout) returns (offsets: seq<nat>)
    requires Valid(es)
    ensures var s := List(es, layout);
      && |offsets| == |es| + 1
      && VarByte.DecodeSpec(s, 0, |s|, VarByte.W32) == VarByte.Decoded(Some(|es|), offsets[0])
      && Decodes(s, offsets, es, layout)
  {
    var s := List(es, layout);
    CountFits(es);
    AtWhole(s);
    AtSplit(s, 0, |s|, VarByte.Encoding(|es|), Entries(es, 0, layout));
    VarByte.RoundTrip(|es|, s, 0, |s|, VarByte.W32);
    assert [] + es == es;
    offsets := Offsets(s, [], es, [|VarByte.Encoding(|es|)|], layout);
  }

  /** Documents that come after the first k entries are those from entry k on. */
  lemma {:induction false} FromEntry(es: seq<Entry>, k: nat, x: nat)
    requires Valid(es) && k <= |es| && x in Frequencies(es)
    requires k > 0 ==> es[k - 1].doc < x
    ensures k < |es| && es[k].doc <= x
  {
    var i := FrequencyFrom(es, x);
    if i < k - 1 { Ordered(es, 0, i, k - 1); }
    if k < i { Ordered(es, 0, k, i); }
  }

  /** So entry k is the least document after entry k - 1. */
  lemma {:induction false} LeastFromEntry(es: seq<Entry>, k: nat)
    requires Valid(es) && k <= |es|
    ensures Least(Frequencies(es), if k == 0 then 0 else es[k - 1].doc + 1, if k < |es| then es[k].doc else NO_MORE)
    ensures k < |es| ==> es[k].doc in Frequencies(es) && Frequencies(es)[es[k].doc] == es[k].tf
  {
    var lo := if k == 0 then 0 else es[k - 1].doc + 1;
    var f := First(Frequencies(es), lo);
    if f != NO_MORE { FromEntry(es, k, f); }
    if k < |es| { Element(es, 0, k); }
    if k < |es| {
      FrequencyAt(es, k);
      if k > 0 { Ordered(es, 0, k - 1, k); }
    }
  }

  /** current_freq_, current_pos_ and current_weight_. */
  datatype Hit = Hit(freq: nat, pos: nat, weight: real)

  /** What a scorer reads when the iterator stands on e. */
  function HitOf(e: Entry, layout: Layout): Hit
  {
    Hit(e.tf, if layout.hasPositions then e.pos else NO_POSITION,
        if layout.hasTokenWeights then TokenWeight.Dequantize(e.quantised) else 1.0)
  }

  /** The position of a decoder in a posting list, and what it has read. */
  datatype Cursor = Cursor(pos: nat, remaining: nat, current: nat, prev: nat, hit: Hit, started: bool)

  /** What one entry is decoded to at pos: the distance, or None when the bytes
      are corrupt or run out, the position after it, and the hit. */
  datatype Reading = Reading(delta: Option<nat>, end: nat, hit: Hit)

  /** Distance and frequency. */
  function ReadNumbers(s: string, pos: nat, hit: Hit): (r: Reading)
    requires pos <= |s|
    ensures r.end <= |s| && (r.delta.Some? ==> pos < r.end && r.delta.value < U32)
  {
    if pos == |s| then Reading(None, pos, hit)
    else
      var d := VarByte.DecodeSpec(s, pos, |s|, VarByte.W32);
      if d.value == None then Reading(None, d.pos, hit)
      else
        var tf := VarByte.DecodeSpec(s, d.pos, |s|, VarByte.W32);
        if tf.value == None then Reading(None, tf.pos, hit) else Reading(d.value, tf.pos, hit.(freq := tf.value.value))
  }

  function ReadPosition(s: string, layout: Layout, r: Reading): (r': Reading)
    requires r.end <= |s|
    ensures r.end <= r'.end <= |s| && (r'.delta.Some? ==> r'.delta == r.delta)
  {
    if r.delta == None then r
    else if !layout.hasPositions then r.(hit := r.hit.(pos := NO_POSITION))
    else if |s| - r.end < 2 then r.(delta := None)
    else Reading(r.delta, r.end + 2, r.hit.(pos := Mod16(s[r.end] as int + 256 * (s[r.end + 1] as int))))
  }

  function ReadWeight(s: string, layout: Layout, r: Reading): (r': Reading)
    requires r.end <= |s|
    ensures r.end <= r'.end <= |s| && (r'.delta.Some? ==> r'.delta == r.delta)
  {
    if r.delta == None then r
    else if !layout.hasTokenWeights then r.(hit := r.hit.(weight := 1.0))
    else if r.end == |s| then r.(delta := None)
    else Reading(r.delta, r.end + 1, r.hit.(weight := TokenWeight.Dequantize(s[r.end] as int)))
  }

  function ReadAt(s: string, pos: nat, layout: Layout, hit: Hit): (r: Reading)
    requires pos <= |s|
    ensures r.end <= |s| && (r.delta.Some? ==> pos < r.end && r.delta.value < U32)
  {
    ReadWeight(s, layout, ReadPosition(s, layout, ReadNumbers(s, pos, hit)))
  }

  /** An iterator over the bytes that has just been made. */
  function StartState(s: string): (c: Cursor)
    ensures c.pos <= |s|
  {
    var count := VarByte.DecodeSpec(s, 0, |s|, VarByte.W32);
    Cursor(count.pos, if count.value.Some? then count.value.value else 0, NO_MORE, 0, Hit(0, NO_POSITION, 1.0), false)
  }

  /** What Next does on any bytes, read with any layout. */
  function NextState(s: string, layout: Layout, c: Cursor): (n: Cursor)
    requires c.pos <= |s|
    ensures n.pos <= |s| && (n.current != NO_MORE ==> n.started && n.remaining < c.remaining)
  {
    if c.remaining == 0 then c.(current := NO_MORE)
    else
      var r := ReadAt(s, c.pos, layout, c.hit);
      if r.delta == None then c.(pos := r.end, hit := r.hit, current := NO_MORE)
      else
        var d := if !c.started then r.delta.value else Mod32(c.prev + r.delta.value);
        Cursor(r.end, c.remaining - 1, d, d, r.hit, true)
  }

  /** What Advance does on any bytes, read with any layout. */
  function AdvanceState(s: string, layout: Layout, c: Cursor, target: nat): (n: Cursor)
    requires c.pos <= |s|
    ensures n.pos <= |s|
    decreases c.remaining
  {
    if c.current >= target && c.started then c
    else
      var n := NextState(s, layout, c);
      if n.current == NO_MORE || n.current >= target then n else AdvanceState(s, layout, n, target)
  }

  /** One round of Advance. */
  lemma {:induction false} AdvanceStep(s: string, layout: Layout, c: Cursor, target: nat)
    requires c.pos <= |s|
    ensures c.current >= target && c.started ==> AdvanceState(s, layout, c, target) == c
    ensures c.current < target || !c.started ==>
      var n := NextState(s, layout, c);
      AdvanceState(s, layout, c, target) == if n.current == NO_MORE || n.current >= target then n else AdvanceState(s, layout, n, target)
  {
  }

  /** Decoding an entry where it stands. */
  lemma {:induction false} ReadsEntry(s: string, pos: nat, e: Entry, prev: nat, layout: Layout, next: nat, hit: Hit)
    requires EntryAt(s, pos, e, prev, layout, next) && prev <= e.doc
    ensures ReadAt(s, pos, layout, hit) == Reading(Some(e.doc - prev), next, HitOf(e, layout))
  {
  }

  /** The decoder stands before entry k of a list. */
  ghost predicate Before(s: string, offsets: seq<nat>, es: seq<Entry>, layout: Layout, k: nat, c: Cursor)
  {
    && PostingFormat.Valid(es) && Decodes(s, offsets, es, layout) && k <= |es|
    && c.pos == offsets[k] <= |s| && c.remaining == |es| - k && c.prev == Last(es[..k], 0) && c.started == (k > 0)
  }

  lemma {:induction false} NextDecodes(s: string, offsets: seq<nat>, es: seq<Entry>, layout: Layout, k: nat, c: Cursor)
    requires Before(s, offsets, es, layout, k, c) && k < |es|
    ensures Before(s, offsets, es, layout, k + 1, NextState(s, layout, c))
    ensures es[k].doc < NO_MORE && NextState(s, layout, c).current == es[k].doc
    ensures NextState(s, layout, c).hit == HitOf(es[k], layout)
  {
    hide ReadAt, HitOf, PayloadAt, VarByte.DecodeSpec;
    assert EntryOf(s, offsets, es, k, layout);
    Element(es, 0, k);
    ReadsEntry(s, offsets[k], es[k], Last(es[..k], 0), layout, offsets[k + 1], c.hit);
    assert es[..k + 1][k] == es[k];
  }

  /** Read with its own layout, a list gives the entry of a document if it has
      one: i is its place. */
  lemma {:induction false} AdvanceDecodes(s: string, offsets: seq<nat>, es: seq<Entry>, layout: Layout, k: nat, c: Cursor, d: nat)
      returns (i: nat)
    requires Before(s, offsets, es, layout, k, c) && d < NO_MORE && (c.current < d || !c.started)
    ensures var r := AdvanceState(s, layout, c, d);
      if r.current == d then k <= i < |es| && es[i].doc == d && r.hit == HitOf(es[i], layout)
      else forall j :: k <= j < |es| ==> es[j].doc != d
    decreases |es| - k
  {
    hide Before, NextState, HitOf;
    CountLeft(s, offsets, es, layout, k, c);
    i := k;
    if k < |es| {
      NextDecodes(s, offsets, es, layout, k, c);
      if es[k].doc < d {
        i := AdvanceDecodes(s, offsets, es, layout, k + 1, NextState(s, layout, c), d);
      } else {
        forall j | k < j < |es| ensures es[j].doc > es[k].doc { Ordered(es, 0, k, j); }
      }
    }
  }

  lemma {:induction false} CountLeft(s: string, offsets: seq<nat>, es: seq<Entry>, layout: Layout, k: nat, c: Cursor)
    requires Before(s, offsets, es, layout, k, c)
    ensures PostingFormat.Valid(es) && k <= |es| && c.pos <= |s|
    ensures k == |es| ==> NextState(s, layout, c).current == NO_MORE
    ensures k < |es| ==> c.remaining > 0
  {
  }

  /** Looking a document up in the bytes of a list, read with the layout it was
      written with. */
  lemma {:induction false} LookUp(es: seq<Entry>, layout: Layout, d: nat) returns (i: nat)
    requires PostingFormat.Valid(es) && d < NO_MORE
    ensures var s := List(es, layout); var r := AdvanceState(s, layout, StartState(s), d);
      if r.current == d then i < |es| && es[i].doc == d && r.hit == HitOf(es[i], layout)
      else forall j :: 0 <= j < |es| ==> es[j].doc != d
  {
    hide AdvanceState, List, HitOf, Decodes;
    var s := List(es, layout);
    var offsets := ListDecodes(es, layout);
    assert offsets[0] <= |s|;
    assert es[..0] == [];
    i := AdvanceDecodes(s, offsets, es, layout, 0, StartState(s), d);
  }

  /** Decodes one posting list.  The bytes may be anything; `entries` names the
      list they encode when they are well formed, and then `good` holds. */
  class TermIterator {
    const bytes: string
    const df: nat
    const totalTf: nat
    const layout: Layout
    ghost const entries: seq<Entry>
    ghost const good: bool
    ghost const offsets: seq<nat>  // where each entry starts

    var cursor: nat
    var remaining: nat
    var current: nat
    var prev: nat
    var hit: Hit
    var started: bool

    ghost function State(): Cursor
      reads this
    {
      Cursor(cursor, remaining, current, prev, hit, started)
    }

    /** Entries decoded so far. */
    ghost function Done(): nat
      reads this
    {
      if remaining <= |entries| then |entries| - remaining else 0
    }

    ghost predicate InStep()
      reads this
    {
      && PostingFormat.Valid(entries) && Decodes(bytes, offsets, entries, layout)
      && remaining <= |entries| && cursor == offsets[Done()] && prev == Last(entries[..Done()], 0)
      && started == (Done() > 0)
      && (current == NO_MORE ==> Done() == 0 || remaining == 0)
      && (current != NO_MORE ==> Done() > 0 && OnEntry(entries[Done() - 1]))
    }

    ghost predicate OnEntry(e: Entry)
      reads this
    {
      current == e.doc && hit == HitOf(e, layout)
    }

    ghost predicate Inv()
      reads this
    {
      && cursor <= |bytes| && current <= NO_MORE && remaining < U32
      && (good ==> df == |entries| && InStep())
    }

    /** The documents this iterator stands for. */
    ghost function Den(): DocSet
    {
      Frequencies(entries)
    }

    constructor (postingBytes: string, df: nat, totalTf: nat, layout: Layout, ghost entries: seq<Entry>)
      ensures Inv() && !started && current == NO_MORE
      ensures bytes == postingBytes && State() == StartState(postingBytes)
      ensures good == (PostingFormat.Valid(entries) && postingBytes == List(entries, layout))
      ensures this.entries == entries && this.totalTf == totalTf && this.layout == layout
      ensures this.df == remaining
    {
      this.bytes := postingBytes;
      this.totalTf := totalTf;
      this.layout := layout;
      this.entries := entries;
      this.good := PostingFormat.Valid(entries) && postingBytes == List(entries, layout);
      ghost var starts := [];
      if PostingFormat.Valid(entries) && postingBytes == List(entries, layout) {
        starts := ListDecodes(entries, layout);
        CountFits(entries);
      }
      this.offsets := starts;
      var count, pos := VarByte.Decode(postingBytes, 0, |postingBytes|, VarByte.W32);
      var announced := if count.Some? then count.value else 0;
      cursor := pos;
      remaining := announced;
      // The bytes win over the dictionary when the two disagree.
      this.df := announced;
      current, prev, hit, started := NO_MORE, 0, Hit(0, NO_POSITION, 1.0), false;
    }

    /** Reads the next distance, frequency and payload.  The parts of the hit
        are overwritten as far as the bytes go, also when they run out. */
    method ReadEntry() returns (delta: Option<nat>, end: nat, h: Hit)
      requires cursor <= |bytes|
      ensures Reading(delta, end, h) == ReadAt(bytes, cursor, layout, hit)
      ensures forall e: Entry, p: nat, next: nat :: EntryAt(bytes, cursor, e, p, layout, next) ==>
        delta == Some(e.doc - p) && end == next && h == HitOf(e, layout)
    {
      forall e: Entry, p: nat, next: nat | EntryAt(bytes, cursor, e, p, layout, next)
        ensures ReadAt(bytes, cursor, layout, hit) == Reading(Some(e.doc - p), next, HitOf(e, layout))
      {
        ReadsEntry(bytes, cursor, e, p, layout, next, hit);
      }
      hide EntryAt, HitOf;
      h, end := hit, cursor;
      if cursor >= |bytes| { return None, end, h; }
      var d: Option<nat>, tf: Option<nat>;
      d, end := VarByte.Decode(bytes, end, |bytes|, VarByte.W32);
      if d == None { return None, end, h; }
      tf, end := VarByte.Decode(bytes, end, |bytes|, VarByte.W32);
      if tf == None { return None, end, h; }
      h := h.(freq := tf.value);
      if layout.hasPositions {
        if |bytes| - end < 2 { return None, end, h; }
        h := h.(pos := Mod16(bytes[end] as int + 256 * (bytes[end + 1] as int)));
        end := end + 2;
      } else {
        h := h.(pos := NO_POSITION);
      }
      if layout.hasTokenWeights {
        if end >= |bytes| { return None, end, h; }
        h := h.(weight := TokenWeight.Dequantize(bytes[end] as int));
        end := end + 1;
      } else {
        h := h.(weight := 1.0);
      }
      return d, end, h;
    }

    method Next() returns (r: nat)
      requires Inv()
      modifies this
      ensures Inv() && r == current && State() == NextState(bytes, layout, old(State()))
      ensures good && old(remaining) > 0 ==> remaining == old(remaining) - 1 && OnEntry(entries[old(Done())])
      ensures good && old(remaining) == 0 ==> remaining == 0 && r == NO_MORE
      ensures r != NO_MORE ==> started && remaining < old(remaining)
      ensures old(started) ==> started
    {
      hide ReadAt, HitOf, PayloadAt, VarByte.DecodeSpec, Frequencies;
      if remaining == 0 {
        current := NO_MORE;
        return current;
      }
      if good {
        assert EntryOf(bytes, offsets, entries, Done(), layout);
        Element(entries, 0, Done());
      }
      var delta;
      delta, cursor, hit := ReadEntry();
      if delta == None {
        current := NO_MORE;
        return current;
      }
      var d := if !started then delta.value else Mod32(prev + delta.value);
      started, prev, remaining, current := true, d, remaining - 1, d;
      return current;
    }

    /** Goes to the first document that is at least target, unless the iterator
        stands at or beyond it already. */
    method Advance(target: nat) returns (r: nat)
      requires Inv() && target <= NO_MORE
      modifies this
      ensures Inv() && r == current && State() == AdvanceState(bytes, layout, old(State()), target)
      ensures r == NO_MORE || (target <= r && (good ==> r in Den()))
      ensures good && !old(started) ==> Least(Den(), target, r)
      ensures good ==> forall x :: x in Den() && target <= x && old(current) <= x ==> r <= x
    {
      hide NextState, AdvanceState, HitOf;
      while current < target || !started
        invariant Inv() && (old(started) ==> started)
        invariant remaining <= old(remaining)
        invariant remaining == old(remaining) ==> current == old(current) && started == old(started)
        invariant remaining < old(remaining) ==> current < target
        invariant AdvanceState(bytes, layout, State(), target) == AdvanceState(bytes, layout, old(State()), target)
        decreases remaining
      {
        if good { LeastFromEntry(entries, Done()); }
        AdvanceStep(bytes, layout, State(), target);
        var d := Next();
        if d == NO_MORE { return NO_MORE; }
        if d >= target { return d; }
      }
      if good && current != NO_MORE { FrequencyAt(entries, Done() - 1); }
      AdvanceStep(bytes, layout, State(), target);
      return current;
    }
  }

  /** The documents below n, none of which has a frequency. */
  ghost function FirstDocs(n: nat): (den: DocSet)
    ensures forall d: nat :: d in den <==> d < n
    ensures forall d: nat :: d in den ==> den[d] == 0
  {
    if n == 0 then map[] else FirstDocs(n - 1)[n - 1 := 0]
  }

  /** Every document of a segment, in order. */
  class MatchAllIterator {
    const docCount: nat
    var current: nat
    var started: bool

    ghost predicate Inv()
      reads this
    {
      current == NO_MORE || (started && current < docCount)
    }

    ghost function Den(): DocSet
    {
      FirstDocs(docCount)
    }

    constructor (docCount: nat)
      ensures Inv() && this.docCount == docCount && !started && current == NO_MORE
    {
      this.docCount := docCount;
      current, started := NO_MORE, false;
    }

    /** After the last document the 32-bit increment wraps, so a further call
        starts again at document 0. */
    method Next() returns (r: nat)
      requires Inv() && docCount <= NO_MORE
      modifies this
      ensures Inv() && r == current
      ensures r == NO_MORE || r in Den()
      ensures !old(started) ==> Least(Den(), 0, r)
      ensures old(current) != NO_MORE ==> Least(Den(), old(current) + 1, r)
      ensures old(started) && old(current) == NO_MORE && docCount > 0 ==> r == 0
    {
      if !started {
        started := true;
        if docCount == 0 {
          current := NO_MORE;
          return current;
        }
        current := 0;
        return current;
      }
      if Mod32(current + 1) >= docCount {
        current := NO_MORE;
        return current;
      }
      current := Mod32(current + 1);
      return current;
    }

    /** Jumps to target, forwards or backwards. */
    method Advance(target: nat) returns (r: nat)
      requires Inv() && docCount <= NO_MORE
      modifies this
      ensures Inv() && r == current
      ensures r == if target < docCount then target else NO_MORE
      ensures Least(Den(), target, r)
    {
      if target >= docCount {
        current := NO_MORE;
        return current;
      }
      started := true;
      current := target;
      return current;
    }
  }
}

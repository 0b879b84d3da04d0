/** The durability log: framed records, and what a replay makes of any bytes. */
module Translogs {
  import opened Base
  import LittleEndian

  /** One record: the length as a 32-bit word, then the payload. */
  function Frame(payload: string): (f: string)
    ensures |f| == 4 + |payload|
  {
    LittleEndian.Word(Mod32(|payload|), 4) + payload
  }

  function Frames(payloads: seq<string>): string
  {
    if payloads == [] then "" else Frames(payloads[..|payloads| - 1]) + Frame(payloads[|payloads| - 1])
  }

  /** The records from pos on.  A torn header or payload ends them. */
  function ReplayFrom(bytes: string, pos: nat, done: seq<string>): seq<string>
    requires pos <= |bytes|
    decreases |bytes| - pos
  {
    if |bytes| - pos < 4 then done
    else
      var len := LittleEndian.Value(bytes, pos, 4);
      if |bytes| - (pos + 4) < len then done
      else ReplayFrom(bytes, pos + 4 + len, done + [bytes[pos + 4..pos + 4 + len]])
  }

  function Replay(bytes: string): seq<string>
  {
    ReplayFrom(bytes, 0, [])
  }

  /** The log file, which outlives the process, and the sink that is open on it. */
  class Translog {
    var file: string
    var isOpen: bool
    var written: nat

    /** Open: existing bytes are kept, also a torn tail. */
    constructor (existing: string)
      ensures file == existing && isOpen && written == |existing|
    {
      file, isOpen, written := existing, true, |existing|;
    }

    method Append(payload: string) returns (ok: bool)
      modifies this
      ensures ok == old(isOpen) && isOpen == old(isOpen)
      ensures file == if ok then old(file) + Frame(payload) else old(file)
      ensures written == if ok then old(written) + 4 + |payload| else old(written)
    {
      if !isOpen { return false; }
      var header := LittleEndian.Append(Mod32(|payload|), 4, "");
      assert "" + LittleEndian.Word(Mod32(|payload|), 4) == LittleEndian.Word(Mod32(|payload|), 4);
      assert (file + header) + payload == file + Frame(payload);
      file := file + header + payload;
      written := written + 4 + |payload|;
      return true;
    }

    /** Walks the records from the head of the file. */
    method ReplayRecords() returns (out: seq<string>)
      ensures out == Replay(file)
    {
      out := [];
      var p, end := 0, |file|;
      while p < end
        invariant 0 <= p <= end == |file|
        invariant ReplayFrom(file, p, out) == Replay(file)
      {
        if end - p < 4 { break; }
        var len, q := LittleEndian.Read(file, p, end, 4);
        if end - q < len.value { break; }
        out := out + [file[q..q + len.value]];
        p := q + len.value;
      }
    }

    method Truncate()
      modifies this
      ensures file == "" && isOpen && written == 0
    {
      file, isOpen, written := "", true, 0;
    }

    method Close()
      modifies this
      ensures file == old(file) && !isOpen && written == old(written)
    {
      isOpen := false;
    }
  }

  // ----- the prefix law -----

  ghost predicate Short(payloads: seq<string>)
  {
    forall k :: 0 <= k < |payloads| ==> |payloads[k]| < U32
  }

  /** How many records fit completely into the first cut bytes. */
  function Fitting(payloads: seq<string>, cut: nat): (n: nat)
    ensures n <= |payloads|
  {
    if payloads == [] then 0
    else if |Frames(payloads)| <= cut then |payloads|
    else Fitting(payloads[..|payloads| - 1], cut)
  }

  /** Reading past one whole record. */
  lemma {:induction false} ReadOne(bytes: string, pos: nat, payload: string, done: seq<string>)
    requires At(bytes, pos, |bytes|, Frame(payload)) && |payload| < U32
    ensures pos + 4 + |payload| <= |bytes|
    ensures ReplayFrom(bytes, pos, done) == ReplayFrom(bytes, pos + 4 + |payload|, done + [payload])
  {
    LittleEndian.Capacities();
    AtSplit(bytes, pos, |bytes|, LittleEndian.Word(|payload|, 4), payload);
    LittleEndian.ValueOfWord(|payload|, 4, bytes, pos, |bytes|);
    AtSlice(bytes, pos + 4, |bytes|, payload);
  }

  /** Reading past all records that stand at the head. */
  lemma {:induction false} ReadAll(payloads: seq<string>, bytes: string)
    requires Short(payloads) && At(bytes, 0, |bytes|, Frames(payloads))
    ensures |Frames(payloads)| <= |bytes|
    ensures Replay(bytes) == ReplayFrom(bytes, |Frames(payloads)|, payloads)
  {
    hide Frame, ReplayFrom, At;
    if payloads != [] {
      var n := |payloads| - 1;
      AtSplit(bytes, 0, |bytes|, Frames(payloads[..n]), Frame(payloads[n]));
      ReadAll(payloads[..n], bytes);
      ReadOne(bytes, |Frames(payloads[..n])|, payloads[n], payloads[..n]);
      assert payloads[..n] + [payloads[n]] == payloads;
    }
  }

  /** Less than a whole record at the end is not read. */
  lemma {:induction false} TornTail(bytes: string, pos: nat, payload: string, done: seq<string>)
    requires pos <= |bytes| < pos + |Frame(payload)| && bytes[pos..] == Frame(payload)[..|bytes| - pos] && |payload| < U32
    ensures ReplayFrom(bytes, pos, done) == done
  {
    hide LittleEndian.Word, LittleEndian.Value, At;
    if |bytes| - pos >= 4 {
      LittleEndian.Capacities();
      var w := LittleEndian.Word(|payload|, 4);
      assert bytes[pos..pos + 4] == bytes[pos..][..4];
      assert Frame(payload)[..|bytes| - pos][..4] == Frame(payload)[..4] == w;
      AtSlice(bytes, pos, |bytes|, w);
      LittleEndian.ValueOfWord(|payload|, 4, bytes, pos, |bytes|);
    }
  }

  /** Whatever prefix of the log survives, a replay gives exactly the records
      that fit into it completely, in order. */
  lemma {:induction false} PrefixLaw(payloads: seq<string>, cut: nat)
    requires Short(payloads) && cut <= |Frames(payloads)|
    ensures Replay(Frames(payloads)[..cut]) == payloads[..Fitting(payloads, cut)]
  {
    var all := Frames(payloads);
    if cut == |all| {
      assert all[..cut] == all;
      AtWhole(all);
      ReadAll(payloads, all);
      assert payloads[..|payloads|] == payloads;
    } else {
      var n := |payloads| - 1;
      var rest, last := payloads[..n], payloads[n];
      var head := Frames(rest);
      if cut < |head| {
        assert all[..cut] == head[..cut];
        PrefixLaw(rest, cut);
        assert rest[..Fitting(rest, cut)] == payloads[..Fitting(rest, cut)];
      } else {
        var bytes := all[..cut];
        assert bytes[..|head|] == head && bytes[|head|..] == Frame(last)[..cut - |head|];
        AtSlice(bytes, 0, |bytes|, head);
        ReadAll(rest, bytes);
        TornTail(bytes, |head|, last, rest);
        WholeFits(rest, cut);
      }
    }
  }

  lemma {:induction false} WholeFits(payloads: seq<string>, cut: nat)
    requires |Frames(payloads)| <= cut
    ensures payloads[..Fitting(payloads, cut)] == payloads
  {
  }

  lemma {:induction false} WholeLog(payloads: seq<string>)
    requires Short(payloads)
    ensures Replay(Frames(payloads)) == payloads
  {
    PrefixLaw(payloads, |Frames(payloads)|);
    var all := Frames(payloads);
    assert all[..|all|] == all;
    WholeFits(payloads, |all|);
  }

  /** A header that announces more bytes than follow hides all of them, whole
      records among them. */
  lemma {:induction false} HeaderOnly(payload: string, rest: string)
    requires |payload| < U32 && |rest| < |payload|
    ensures Replay(Frame(payload)[..4] + rest) == []
  {
    LittleEndian.Capacities();
    var w := LittleEndian.Word(|payload|, 4);
    var bytes := Frame(payload)[..4] + rest;
    assert bytes[..4] == w;
    AtSlice(bytes, 0, |bytes|, w);
    LittleEndian.ValueOfWord(|payload|, 4, bytes, 0, |bytes|);
  }

  // ----- records behind a torn one -----

  /** Where a word stands does not matter. */
  lemma {:induction false} ValueMoved(a: string, b: string, i: nat, n: nat)
    requires i + n <= |b|
    ensures LittleEndian.Value(a + b, |a| + i, n) == LittleEndian.Value(b, i, n)
    decreases n
  {
    if n > 0 { ValueMoved(a, b, i + 1, n - 1); }
  }

  /** What is read from i on depends neither on the bytes before nor on the
      records before. */
  lemma {:induction false} ReplayMoved(a: string, b: string, i: nat, done: seq<string>)
    requires i <= |b|
    ensures ReplayFrom(a + b, |a| + i, done) == done + ReplayFrom(b, i, [])
    decreases |b| - i
  {
    hide LittleEndian.Value;
    assert done + [] == done;
    if |b| - i >= 4 {
      ValueMoved(a, b, i, 4);
      var len := LittleEndian.Value(b, i, 4);
      if |b| - (i + 4) >= len {
        var next := b[i + 4..i + 4 + len];
        assert (a + b)[|a| + i + 4..|a| + i + 4 + len] == next;
        ReplayMoved(a, b, i + 4 + len, done + [next]);
        ReplayMoved("", b, i + 4 + len, [next]);
        assert "" + b == b && [] + [next] == [next];
        assert (done + [next]) + ReplayFrom(b, i + 4 + len, []) == done + ([next] + ReplayFrom(b, i + 4 + len, []));
      }
    }
  }

  /** After whole records the replay starts afresh. */
  lemma {:induction false} AfterRecords(payloads: seq<string>, tail: string)
    requires Short(payloads)
    ensures Replay(Frames(payloads) + tail) == payloads + Replay(tail)
  {
    hide ReplayFrom, Frames;
    var head := Frames(payloads);
    AtWhole(head);
    AtSlice(head + tail, 0, |head + tail|, head);
    assert (head + tail)[0..|head|] == head;
    ReadAll(payloads, head + tail);
    ReplayMoved(head, tail, 0, payloads);
  }

  /** More bytes only add records. */
  lemma {:induction false} ReplayGrows(a: string, b: string, i: nat, done: seq<string>)
    requires i <= |a|
    ensures ReplayFrom(a, i, done) <= ReplayFrom(a + b, i, done)
    decreases |a| - i
  {
    hide LittleEndian.Value;
    ReplayAppends(a + b, i, done);
    if |a| - i >= 4 {
      SameValue(a, b, i, 4);
      var len := LittleEndian.Value(a, i, 4);
      if |a| - (i + 4) >= len {
        assert (a + b)[i + 4..i + 4 + len] == a[i + 4..i + 4 + len];
        ReplayGrows(a, b, i + 4 + len, done + [a[i + 4..i + 4 + len]]);
      }
    }
  }

  lemma {:induction false} SameValue(a: string, b: string, i: nat, n: nat)
    requires i + n <= |a|
    ensures LittleEndian.Value(a + b, i, n) == LittleEndian.Value(a, i, n)
    decreases n
  {
    if n > 0 { SameValue(a, b, i + 1, n - 1); }
  }

  lemma {:induction false} ReplayAppends(bytes: string, i: nat, done: seq<string>)
    requires i <= |bytes|
    ensures done <= ReplayFrom(bytes, i, done)
    decreases |bytes| - i
  {
    hide LittleEndian.Value;
    if |bytes| - i >= 4 {
      var len := LittleEndian.Value(bytes, i, 4);
      if |bytes| - (i + 4) >= len { ReplayAppends(bytes, i + 4 + len, done + [bytes[i + 4..i + 4 + len]]); }
    }
  }

  lemma {:induction false} TornHead(payload: string, k: nat)
    requires |payload| < U32 && 4 <= k < |Frame(payload)|
    ensures Frame(payload)[..k] == LittleEndian.Word(|payload|, 4) + payload[..k - 4]
  {
    hide LittleEndian.Word;
  }

  /** The bytes that a crash left of a record, and what was appended later, when
      the header is there but the payload is not: the first record read, if any
      is, has the length of the torn one and takes bytes of the later ones. */
  lemma {:induction false} TornPayload(payload: string, k: nat, rest: string)
    requires |payload| < U32 && 4 <= k < |Frame(payload)|
    ensures var missing := |Frame(payload)| - k;
      Replay(Frame(payload)[..k] + rest)
      == if |rest| < missing then [] else [payload[..k - 4] + rest[..missing]] + Replay(rest[missing..])
  {
    hide LittleEndian.Value, LittleEndian.Word, Frame;
    LittleEndian.Capacities();
    TornHead(payload, k);
    var w, kept := LittleEndian.Word(|payload|, 4), payload[..k - 4];
    var bytes := w + (kept + rest);
    assert Frame(payload)[..k] + rest == bytes && bytes[0..4] == w;
    AtSlice(bytes, 0, |bytes|, w);
    LittleEndian.ValueOfWord(|payload|, 4, bytes, 0, |bytes|);
    var missing := |Frame(payload)| - k;
    if |rest| >= missing {
      var g := kept + rest[..missing];
      assert kept + rest == g + rest[missing..];
      assert bytes == (w + g) + rest[missing..];
      assert bytes[4..4 + |payload|] == g && [] + [g] == [g];
      ReplayMoved(w + g, rest[missing..], 0, [g]);
    }
  }

  /** A word whose top byte is not 0 announces 2^24 bytes at least. */
  lemma {:induction false} HighByte(s: string, i: nat)
    requires i + 4 <= |s|
    ensures LittleEndian.Value(s, i, 4) >= s[i + 3] as int * 0x100_0000
  {
    assert LittleEndian.Value(s, i + 3, 1) >= s[i + 3] as int;
    assert LittleEndian.Value(s, i + 2, 2) >= 256 * LittleEndian.Value(s, i + 3, 1);
    assert LittleEndian.Value(s, i + 1, 3) >= 256 * LittleEndian.Value(s, i + 2, 2);
  }

  /** The frame of a record shorter than 256 bytes: one length byte, three zero
      bytes. */
  lemma {:induction false} SmallFrame(payload: string)
    requires |payload| < 256
    ensures Frame(payload) == [|payload| as char, 0 as char, 0 as char, 0 as char] + payload
  {
    var n := |payload|;
    assert LittleEndian.Word(n, 4) == [(n % 256) as char] + LittleEndian.Word(n / 256, 3);
    assert LittleEndian.Word(0, 3) == [0 as char] + LittleEndian.Word(0, 2);
    assert LittleEndian.Word(0, 2) == [0 as char] + LittleEndian.Word(0, 1);
    assert LittleEndian.Word(0, 1) == [0 as char];
  }

  /** A torn header swallows the length byte of a short record behind it, and
      announces more than there is. */
  lemma {:induction false} TornHeader(payload: string, k: nat, later: string)
    requires 1 <= k < 4 && 1 <= |later| < 256
    ensures Replay(Frame(payload)[..k] + Frame(later)) == []
  {
    hide LittleEndian.Word, Frame;
    SmallFrame(later);
    var bytes := Frame(payload)[..k] + Frame(later);
    assert bytes[k] == |later| as char;
    assert LittleEndian.Value(bytes, 3, 1) == bytes[3] as int + 256 * LittleEndian.Value(bytes, 4, 0);
    assert LittleEndian.Value(bytes, 2, 2) == bytes[2] as int + 256 * LittleEndian.Value(bytes, 3, 1);
    assert LittleEndian.Value(bytes, 1, 3) == bytes[1] as int + 256 * LittleEndian.Value(bytes, 2, 2);
    assert LittleEndian.Value(bytes, 0, 4) == bytes[0] as int + 256 * LittleEndian.Value(bytes, 1, 3);
  }

  /** Whatever records are appended behind the first k bytes of a record, a
      replay gives exactly the whole records, if and only if nothing of the
      interrupted one is there. */
  lemma {:induction false} TornLaw(payloads: seq<string>, torn: string, k: nat)
    requires Short(payloads) && |torn| < U32 && k < |Frame(torn)|
    ensures k == 0 <==>
      forall later :: Short(later) ==> Replay(Frames(payloads) + (Frame(torn)[..k] + Frames(later))) == payloads + later
  {
    hide Frame, Frames, ReplayFrom, Replay;
    if k == 0 {
      forall later | Short(later) ensures Replay(Frames(payloads) + (Frame(torn)[..k] + Frames(later))) == payloads + later {
        assert Frame(torn)[..0] + Frames(later) == Frames(later);
        AfterRecords(payloads, Frames(later));
        WholeLog(later);
      }
    } else {
      var x := if k < 4 then "a" else "";
      OneFrame(x);
      AfterRecords(payloads, Frame(torn)[..k] + Frame(x));
      if k < 4 {
        TornHeader(torn, k, x);
      } else {
        TornPayload(torn, k, Frame(x));
      }
      var read := Replay(Frame(torn)[..k] + Frame(x));
      assert read == [] || |read[0]| > |x|;
      assert (payloads + read)[|payloads|..] == read && (payloads + [x])[|payloads|..] == [x];
      assert Short([x]);
    }
  }

  lemma {:induction false} OneFrame(payload: string)
    ensures Frames([payload]) == Frame(payload)
  {
    assert [payload][..0] == [];
  }
}

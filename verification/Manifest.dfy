/** The manifest: the generation and the sealed segments, as a JSON file that is
    replaced by renaming. */
module Manifests {
  import opened Base
  import opened Json
  import opened JsonParser
  import opened JsonRoundTrip

  datatype ManifestSegment = ManifestSegment(stem: string, docCount: nat)

  datatype Manifest = Manifest(generation: nat, segments: seq<ManifestSegment>)

  const NAME: string := "manifest"
  const TMP_NAME: string := "manifest.tmp"

  /** Numbers of the widths of the program. */
  ghost predicate Fits(m: Manifest)
  {
    m.generation < U64 && forall k :: 0 <= k < |m.segments| ==> m.segments[k].docCount < U32
  }

  /** The cast from an unsigned to a signed 64-bit number, and back. */
  function ToSigned(v: nat): int
  {
    if v < 0x8000_0000_0000_0000 then v else v - 0x1_0000_0000_0000_0000
  }

  function ToUnsigned(i: int): nat
  {
    if i >= 0 then i else if i >= -0x1_0000_0000_0000_0000 then i + 0x1_0000_0000_0000_0000 else 0
  }

  /** The cast from a signed 64-bit to an unsigned 32-bit number. */
  function ToUnsigned32(i: int): nat
  {
    Mod32(ToUnsigned(i))
  }

  function SegmentValue(s: ManifestSegment): Value
  {
    Obj([Member("doc_count", Int(s.docCount)), Member("stem", Str(s.stem))])
  }

  function SegmentValues(segments: seq<ManifestSegment>): (a: seq<Value>)
    ensures |a| == |segments|
  {
    if segments == [] then [] else [SegmentValue(segments[0])] + SegmentValues(segments[1..])
  }

  function ManifestValue(m: Manifest): Value
  {
    Obj([Member("generation", Int(ToSigned(m.generation))), Member("segments", Arr(SegmentValues(m.segments)))])
  }

  // ----- loading -----

  /** One entry of the segment list; None is a corrupt manifest. */
  function SegmentOf(v: Value): Option<ManifestSegment>
  {
    if !v.Obj? then None
    else match Find(v.o, "stem")
      case Some(Str(stem)) =>
        var count := Find(v.o, "doc_count");
        Some(ManifestSegment(stem, if count.Some? && count.value.Int? then ToUnsigned32(count.value.i) else 0))
      case _ => None
  }

  function SegmentsOf(a: seq<Value>, done: seq<ManifestSegment>): Option<seq<ManifestSegment>>
  {
    if a == [] then Some(done)
    else
      var s :- SegmentOf(a[0]);
      SegmentsOf(a[1..], done + [s])
  }

  function ManifestOf(v: Value): Option<Manifest>
  {
    if !v.Obj? then None
    else
      var g := Find(v.o, "generation");
      var generation := if g.Some? && g.value.Int? then ToUnsigned(g.value.i) else 0;
      var s := Find(v.o, "segments");
      var segments :- if s.Some? && s.value.Arr? then SegmentsOf(s.value.a, []) else Some([]);
      Some(Manifest(generation, segments))
  }

  /** LoadManifest: no file is an empty manifest. */
  function Load(files: map<string, string>): Option<Manifest>
  {
    if NAME !in files then Some(Manifest(0, []))
    else match JsonParser.Document(files[NAME])
      case Failed(_, _) => None
      case Got(v, _) => ManifestOf(v)
  }

  method LoadManifest(files: map<string, string>) returns (m: Option<Manifest>)
    ensures m == Load(files)
  {
    if NAME !in files { return Some(Manifest(0, [])); }
    var parsed, stop := Parse(files[NAME]);
    if parsed.Error? { return None; }
    var v := parsed.value;
    if !v.Obj? { return None; }
    var generation := 0;
    var g := Find(v.o, "generation");
    if g.Some? && g.value.Int? { generation := ToUnsigned(g.value.i); }
    var segments: seq<ManifestSegment> := [];
    var s := Find(v.o, "segments");
    if s.Some? && s.value.Arr? {
      var a := s.value.a;
      for k := 0 to |a|
        invariant SegmentsOf(a[k..], segments) == SegmentsOf(a, [])
      {
        assert a[k..][0] == a[k] && a[k..][1..] == a[k + 1..];
        var one :- SegmentOf(a[k]);
        segments := segments + [one];
      }
      assert a[|a|..] == [];
    }
    return Some(Manifest(generation, segments));
  }

  // ----- saving -----

  /** Renaming over an existing file. */
  function Renamed(files: map<string, string>, from: string, to: string): map<string, string>
    requires from in files
  {
    (files - {from})[to := files[from]]
  }

  /** SaveManifest: the directory after the temporary file is written, and after
      it has taken the manifest's name. */
  method SaveManifest(files: map<string, string>, m: Manifest) returns (written: map<string, string>, renamed: map<string, string>)
    ensures written == files[TMP_NAME := Json.Text(ManifestValue(m), 0, 2)]
    ensures renamed == Renamed(written, TMP_NAME, NAME)
  {
    var a: seq<Value> := [];
    for k := 0 to |m.segments|
      invariant a + SegmentValues(m.segments[k..]) == SegmentValues(m.segments)
    {
      assert m.segments[k..][0] == m.segments[k] && m.segments[k..][1..] == m.segments[k + 1..];
      var o := Insert([], "stem", Str(m.segments[k].stem));
      o := Insert(o, "doc_count", Int(m.segments[k].docCount));
      SegmentMembers(m.segments[k]);
      a := a + [Obj(o)];
    }
    assert m.segments[|m.segments|..] == [];
    assert a + [] == a;
    var root := Insert([], "generation", Int(ToSigned(m.generation)));
    root := Insert(root, "segments", Arr(a));
    RootMembers(Int(ToSigned(m.generation)), Arr(a));
    var blob := Json.Serialize(Obj(root), 2);
    written := files[TMP_NAME := blob];
    renamed := Renamed(written, TMP_NAME, NAME);
  }

  lemma {:induction false} KeysInOrder()
    ensures "doc_count" != "stem" && Less("doc_count", "stem")
    ensures "generation" != "segments" && !Less("segments", "generation") && Less("generation", "segments")
  {
    assert |"doc_count"| == 9 && |"stem"| == 4 && |"generation"| == 10 && |"segments"| == 8;
    assert "doc_count"[0] == 'd' && "stem"[0] == 's' && "generation"[0] == 'g' && "segments"[0] == 's';
  }

  lemma {:induction false} SegmentMembers(s: ManifestSegment)
    ensures Insert(Insert([], "stem", Str(s.stem)), "doc_count", Int(s.docCount)) == SegmentValue(s).o
  {
    KeysInOrder();
    assert [Member("doc_count", Int(s.docCount))] + [Member("stem", Str(s.stem))] == SegmentValue(s).o;
  }

  lemma {:induction false} RootMembers(generation: Value, segments: Value)
    ensures Insert(Insert([], "generation", generation), "segments", segments)
         == [Member("generation", generation), Member("segments", segments)]
  {
    KeysInOrder();
    var one := [Member("generation", generation)];
    assert one[1..] == [];
    assert one + [Member("segments", segments)] == [Member("generation", generation), Member("segments", segments)];
  }

  /** Two members in order. */
  lemma {:induction false} PairExact(a: Member, b: Member)
    requires Less(a.key, b.key) && Exact(a.value) && Exact(b.value)
    ensures Exact(Obj([a, b]))
    ensures Find([a, b], a.key) == Some(a.value)
    ensures a.key != b.key ==> Find([a, b], b.key) == Some(b.value)
  {
    var o := [a, b];
    assert o[1..] == [b] && [b][1..] == [];
    assert MembersExact([b]) && MembersExact(o);
  }

  lemma {:induction false} SegmentExact(s: ManifestSegment)
    requires s.docCount < U32
    ensures Exact(SegmentValue(s)) && SegmentOf(SegmentValue(s)) == Some(s)
  {
    KeysInOrder();
    PairExact(Member("doc_count", Int(s.docCount)), Member("stem", Str(s.stem)));
  }

  lemma {:induction false} SegmentsExact(segments: seq<ManifestSegment>)
    requires forall k :: 0 <= k < |segments| ==> segments[k].docCount < U32
    ensures ItemsExact(SegmentValues(segments))
  {
    if segments != [] {
      SegmentExact(segments[0]);
      SegmentsExact(segments[1..]);
      assert SegmentValues(segments)[1..] == SegmentValues(segments[1..]);
    }
  }

  lemma {:induction false} SegmentsBack(segments: seq<ManifestSegment>, done: seq<ManifestSegment>)
    requires forall k :: 0 <= k < |segments| ==> segments[k].docCount < U32
    ensures SegmentsOf(SegmentValues(segments), done) == Some(done + segments)
    decreases segments
  {
    hide SegmentOf, SegmentValue;
    if segments == [] {
      assert done + segments == done;
    } else {
      SegmentExact(segments[0]);
      assert SegmentValues(segments)[1..] == SegmentValues(segments[1..]);
      assert (done + [segments[0]]) + segments[1..] == done + segments;
      SegmentsBack(segments[1..], done + [segments[0]]);
    }
  }

  /** A saved manifest is loaded back; before the rename the old one is. */
  lemma {:induction false} SavedIsLoaded(files: map<string, string>, m: Manifest)
    requires Fits(m)
    ensures var written := files[TMP_NAME := Json.Text(ManifestValue(m), 0, 2)];
      && Load(written) == Load(files)
      && Load(Renamed(written, TMP_NAME, NAME)) == Some(m)
  {
    assert NAME != TMP_NAME by { assert |NAME| != |TMP_NAME|; }
    var v := ManifestValue(m);
    SegmentsExact(m.segments);
    KeysInOrder();
    PairExact(v.o[0], v.o[1]);
    RoundTrip(v, 2);
    SegmentsBack(m.segments, []);
    assert [] + m.segments == m.segments;
  }
}

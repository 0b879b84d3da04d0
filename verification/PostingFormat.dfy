/** The byte form of one posting list: the number of entries, then for each
    entry the distance to the previous document, the term frequency, and the
    optional payload (first position, quantised weight). */
module PostingFormat {
  import opened Base
  import VarByte
  import LittleEndian

  /** One entry as it is stored: the weight is already quantised. */
  datatype Entry = Entry(doc: nat, tf: nat, pos: nat, quantised: nat)

  /** Which payload a field carries. */
  datatype Layout = Layout(hasPositions: bool, hasTokenWeights: bool)

  ghost predicate InBounds(e: Entry)
  {
    e.doc < NO_MORE && e.tf < U32 && e.pos < U16 && e.quantised < 256
  }

  /** Entries a 32-bit posting list can hold: ascending documents from lo on. */
  ghost predicate Ascends(es: seq<Entry>, lo: nat)
  {
    es == [] || (lo <= es[0].doc && InBounds(es[0]) && Ascends(es[1..], es[0].doc + 1))
  }

  ghost predicate Valid(es: seq<Entry>)
  {
    Ascends(es, 0)
  }

  lemma {:induction false} Lower(es: seq<Entry>, lo: nat, lower: nat)
    requires Ascends(es, lo) && lower <= lo
    ensures Ascends(es, lower)
  {
  }

  lemma {:induction false} Element(es: seq<Entry>, lo: nat, i: nat)
    requires Ascends(es, lo) && i < |es|
    ensures InBounds(es[i]) && lo + i <= es[i].doc
  {
    if i > 0 { Element(es[1..], es[0].doc + 1, i - 1); }
  }

  lemma {:induction false} Ordered(es: seq<Entry>, lo: nat, i: nat, j: nat)
    requires Ascends(es, lo) && i < j < |es|
    ensures es[i].doc < es[j].doc
  {
    if i == 0 {
      Element(es[1..], es[0].doc + 1, j - 1);
    } else {
      Ordered(es[1..], es[0].doc + 1, i - 1, j - 1);
    }
  }

  lemma {:induction false} AscendsFromOrder(es: seq<Entry>, lo: nat)
    requires forall i :: 0 <= i < |es| ==> InBounds(es[i])
    requires forall i, j :: 0 <= i < j < |es| ==> es[i].doc < es[j].doc
    requires es != [] ==> lo <= es[0].doc
    ensures Ascends(es, lo)
  {
    if es != [] { AscendsFromOrder(es[1..], es[0].doc + 1); }
  }

  function Payload(e: Entry, layout: Layout): string
    requires e.quantised < 256
  {
    (if layout.hasPositions then LittleEndian.Word(e.pos, 2) else "")
    + (if layout.hasTokenWeights then [e.quantised as char] else "")
  }

  function EntryBytes(e: Entry, prev: nat, layout: Layout): string
    requires prev <= e.doc && e.quantised < 256
  {
    VarByte.Encoding(e.doc - prev) + (VarByte.Encoding(e.tf) + Payload(e, layout))
  }

  ghost function Entries(es: seq<Entry>, prev: nat, layout: Layout): string
    requires Ascends(es, prev)
  {
    if es == [] then ""
    else
      Lower(es[1..], es[0].doc + 1, es[0].doc);
      EntryBytes(es[0], prev, layout) + Entries(es[1..], es[0].doc, layout)
  }

  ghost function List(es: seq<Entry>, layout: Layout): string
    requires Valid(es)
  {
    VarByte.Encoding(|es|) + Entries(es, 0, layout)
  }

  /** A posting list never has more entries than there are documents. */
  lemma {:induction false} CountFits(es: seq<Entry>)
    requires Valid(es)
    ensures |es| < U32
  {
    if es != [] { Element(es, 0, |es| - 1); }
  }

  /** The document that the next distance is counted from. */
  function Last(es: seq<Entry>, prev: nat): nat
  {
    if es == [] then prev else es[|es| - 1].doc
  }

  /** Appending an entry appends its bytes. */
  lemma {:induction false} EntriesSnoc(es: seq<Entry>, e: Entry, prev: nat, layout: Layout)
    requires Ascends(es + [e], prev)
    ensures Ascends(es, prev) && Last(es, prev) <= e.doc && InBounds(e)
    ensures Entries(es + [e], prev, layout)
         == Entries(es, prev, layout) + EntryBytes(e, Last(es, prev), layout)
  {
    var all := es + [e];
    if es == [] {
      assert all[1..] == [];
    } else {
      assert all[0] == es[0] && all[1..] == es[1..] + [e];
      EntriesSnoc(es[1..], e, es[0].doc, layout);
      AscendsSnoc(es[1..], e, es[0].doc + 1);
      assert Last(es[1..], es[0].doc) == Last(es, prev);
    }
  }

  lemma {:induction false} AscendsSnoc(es: seq<Entry>, e: Entry, lo: nat)
    ensures Ascends(es + [e], lo) <==> Ascends(es, lo) && InBounds(e) && (if es == [] then lo else es[|es| - 1].doc + 1) <= e.doc
  {
    var all := es + [e];
    if es == [] {
      assert all[1..] == [];
    } else {
      assert all[0] == es[0] && all[1..] == es[1..] + [e];
      AscendsSnoc(es[1..], e, es[0].doc + 1);
    }
  }
}

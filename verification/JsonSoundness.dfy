/** Whatever the JSON parser accepts is a text of the grammar, and it is read as
    what it stands for: together with the other direction, exactly the texts of
    RFC 8259 are accepted. */
module JsonSoundness {
  import opened Base
  import opened Json
  import opened JsonParser
  import opened JsonRoundTrip
  import opened JsonGrammar

  // ----- a text stands for one value -----

  lemma {:induction false} PieceMeansOne(p: Piece, t: string, u: string)
    requires PieceMeans(p, t) && PieceMeans(p, u)
    ensures t == u
  {
    match p
    case Plain(_) =>
    case Short(letter) =>
      var k :| 0 <= k < 8 && letter == LETTERS[k] && |t| == 1 && t[0] as int == CODES[k];
      var j :| 0 <= j < 8 && letter == LETTERS[j] && |u| == 1 && u[0] as int == CODES[j];
      assert LETTERS[0] == '"' && LETTERS[1] == '\\' && LETTERS[2] == '/' && LETTERS[3] == 'b' && LETTERS[4] == 'f'
          && LETTERS[5] == 'n' && LETTERS[6] == 'r' && LETTERS[7] == 't';
      assert t == [t[0]] && u == [u[0]];
    case Unicode(_, cp) =>
      Utf8Unique(t, cp);
      Utf8Unique(u, cp);
  }

  lemma {:induction false} PiecesMeanOne(ps: seq<Piece>, t: string, u: string)
    requires PiecesMean(ps, t) && PiecesMean(ps, u)
    ensures t == u
    decreases ps
  {
    hide PieceMeans;
    if ps != [] {
      var k :| 0 <= k <= |t| && PieceMeans(ps[0], t[..k]) && PiecesMean(ps[1..], t[k..]);
      var j :| 0 <= j <= |u| && PieceMeans(ps[0], u[..j]) && PiecesMean(ps[1..], u[j..]);
      PieceMeansOne(ps[0], t[..k], u[..j]);
      PiecesMeanOne(ps[1..], t[k..], u[j..]);
      assert t == t[..k] + t[k..] && u == u[..j] + u[j..];
    }
  }

  lemma {:induction false} FormMeansOne(f: Form, v: Value, w: Value)
    requires FormMeans(f, v) && FormMeans(f, w)
    ensures v == w
    decreases f
  {
    hide PiecesMean, NumeralValue, Kept;
    match f
    case Literal(_) =>
    case Amount(_) =>
    case Quote(ps) => PiecesMeanOne(ps, v.s, w.s);
    case List(_, items) =>
      forall k | 0 <= k < |items| ensures v.a[k] == w.a[k] { FormMeansOne(items[k].form, v.a[k], w.a[k]); }
    case Record(_, entries) =>
      var ms: seq<Member> :| EntriesMean(entries, ms) && v == Obj(Kept(ms));
      var ns: seq<Member> :| EntriesMean(entries, ns) && w == Obj(Kept(ns));
      forall k | 0 <= k < |entries| ensures ms[k] == ns[k] {
        PiecesMeanOne(entries[k].key, ms[k].key, ns[k].key);
        FormMeansOne(entries[k].form, ms[k].value, ns[k].value);
      }
      assert ms == ns;
  }

  // ----- white space and digits -----

  lemma {:induction false} SkippedIsGap(s: string, i: nat)
    requires i <= |s|
    ensures IsGap(s[i..SkipWs(s, i)])
    decreases |s| - i
  {
    if i < |s| && IsSpace(s[i]) {
      SkippedIsGap(s, i + 1);
      var g, h := s[i..SkipWs(s, i)], s[i + 1..SkipWs(s, i + 1)];
      assert g == [s[i]] + h;
      forall k | 0 <= k < |g| ensures g[k] as int in {9, 10, 13, 32} { assert k > 0 ==> g[k] == h[k - 1]; }
    }
  }

  lemma {:induction false} SkippedAreDigits(s: string, i: nat)
    requires i <= |s|
    ensures forall k :: i <= k < SkipDigits(s, i) ==> IsDigit(s[k])
    decreases |s| - i
  {
    if i < |s| && IsDigit(s[i]) { SkippedAreDigits(s, i + 1); }
  }

  lemma {:induction false} RunIsDigits(s: string, i: nat)
    requires i < |s| && IsDigit(s[i])
    ensures Digits(s[i..SkipDigits(s, i)])
  {
    SkippedAreDigits(s, i);
  }

  /** Two neighbouring pieces of a text. */
  lemma {:induction false} Joined(s: string, a: nat, b: nat, c: nat)
    requires a <= b <= c <= |s|
    ensures s[a..c] == s[a..b] + s[b..c]
  {
  }

  // ----- numbers -----

  lemma {:induction false} FractionRead(s: string, i: nat) returns (f: Option<string>)
    requires i <= |s| && Fraction(s, i).Got?
    ensures f.Some? == Fraction(s, i).value && (f.Some? ==> Digits(f.value))
    ensures s[i..Fraction(s, i).pos] == if f.Some? then "." + f.value else ""
  {
    if Fraction(s, i).value {
      RunIsDigits(s, i + 1);
      f := Some(s[i + 1..SkipDigits(s, i + 1)]);
    } else {
      f := None;
    }
  }

  lemma {:induction false} ExponentRead(s: string, i: nat) returns (e: Option<(string, string)>)
    requires i <= |s| && Exponent(s, i).Got?
    ensures e.Some? == Exponent(s, i).value
    ensures e.Some? ==> e.value.0 in ["e", "E", "e+", "E+", "e-", "E-"] && Digits(e.value.1)
    ensures s[i..Exponent(s, i).pos] == if e.Some? then e.value.0 + e.value.1 else ""
  {
    if Exponent(s, i).value {
      var j := if i + 1 < |s| && (s[i + 1] == '+' || s[i + 1] == '-') then i + 2 else i + 1;
      RunIsDigits(s, j);
      Joined(s, i, j, SkipDigits(s, j));
      var mark := s[i..j];
      assert mark == if j == i + 1 then [s[i]] else [s[i], s[i + 1]];
      e := Some((mark, s[j..SkipDigits(s, j)]));
    } else {
      e := None;
    }
  }

  lemma {:induction false} WholeRead(s: string, i: nat) returns (j: nat)
    requires i < |s| && IntegerPart(s, i).Got?
    ensures j == (if s[i] == '-' then i + 1 else i) && j < IntegerPart(s, i).pos
    ensures s[i..j] == if s[i] == '-' then "-" else ""
    ensures var w := s[j..IntegerPart(s, i).pos]; Digits(w) && (w[0] == '0' ==> |w| == 1)
  {
    j := if s[i] == '-' then i + 1 else i;
    if s[j] != '0' { RunIsDigits(s, j); }
  }

  /** A number that was read is one of the grammar. */
  lemma {:induction false} NumberRead(s: string, i: nat) returns (n: Numeral)
    requires i < |s| && Number(s, i).Got?
    ensures GoodNumeral(n) && s[i..Number(s, i).pos] == NumeralText(n) && Number(s, i).value == NumeralValue(n)
  {
    hide IntegerPart, Fraction, Exponent, IntegerValue, Digits, NumeralValue, NumeralText;
    var a := IntegerPart(s, i).pos;
    var b := Fraction(s, a).pos;
    var c := Exponent(s, b).pos;
    var j := WholeRead(s, i);
    var f := FractionRead(s, a);
    var e := ExponentRead(s, b);
    n := Numeral(s[i] == '-', s[j..a], f, e);
    Joined(s, i, j, c);
    Joined(s, j, a, c);
    Joined(s, a, b, c);
    NumeralTextIs(n, s[i..j], s[j..a], s[a..b], s[b..c]);
    ValueOfNumeral(n);
  }

  lemma {:induction false} NumeralTextIs(n: Numeral, sign: string, whole: string, fraction: string, exponent: string)
    requires sign == SignText(n) && whole == n.whole && fraction == FractionText(n) && exponent == ExponentText(n)
    ensures NumeralText(n) == sign + (whole + (fraction + exponent))
  {
  }

  /** The texts of numbers are exactly those of the grammar. */
  lemma {:induction false} NumbersExactly(t: string)
    requires t != ""
    ensures (Number(t, 0).Got? && Number(t, 0).pos == |t|) <==> exists n :: GoodNumeral(n) && NumeralText(n) == t
  {
    if Number(t, 0).Got? && Number(t, 0).pos == |t| {
      var n := NumberRead(t, 0);
      assert t[0..|t|] == t;
    }
    if exists n :: GoodNumeral(n) && NumeralText(n) == t {
      var n :| GoodNumeral(n) && NumeralText(n) == t;
      AtWhole(t);
      NumeralBack(n, t, 0);
    }
  }

  // ----- strings -----

  lemma {:induction false} CodeRead(s: string, i: nat)
    requires i + 4 <= |s| && Hex4(s, i).Some?
    ensures SpellsCode(s[i..i + 4], Hex4(s, i).value)
  {
    hide HexValue, Spells;
    var digits := s[i..i + 4];
    assert digits[0] == s[i] && digits[1] == s[i + 1] && digits[2] == s[i + 2] && digits[3] == s[i + 3];
    var a, b, c, d := HexValue(s[i]).value, HexValue(s[i + 1]).value, HexValue(s[i + 2]).value, HexValue(s[i + 3]).value;
    HexIsSmall(s[i]);
    HexIsSmall(s[i + 1]);
    HexIsSmall(s[i + 2]);
    HexIsSmall(s[i + 3]);
    DigitSpelled(s[i], a);
    DigitSpelled(s[i + 1], b);
    DigitSpelled(s[i + 2], c);
    DigitSpelled(s[i + 3], d);
    DigitsOf(a, b, c, d);
  }

  lemma {:induction false} HexIsSmall(c: char)
    ensures HexValue(c).Some? ==> HexValue(c).value < 16
  {
  }

  lemma {:induction false} DigitsOf(a: nat, b: nat, c: nat, d: nat)
    requires a < 16 && b < 16 && c < 16 && d < 16
    ensures var cp := ((a * 16 + b) * 16 + c) * 16 + d;
      cp < 0x1_0000 && cp / 0x1000 == a && cp / 0x100 % 16 == b && cp / 0x10 % 16 == c && cp % 16 == d
  {
    var cp := ((a * 16 + b) * 16 + c) * 16 + d;
    assert cp / 16 == (a * 16 + b) * 16 + c;
    assert cp / 0x100 == a * 16 + b;
    assert cp / 0x1000 == a;
  }

  lemma {:induction false} UnicodeIs(s: string, i: nat) returns (p: Piece)
    requires i + 1 < |s| && s[i] == '\\' && s[i + 1] == 'u' && Unescape(s, i + 1).Got?
    ensures GoodPiece(p) && s[i..Unescape(s, i + 1).pos] == PieceText(p) && PieceMeans(p, Unescape(s, i + 1).value)
  {
    hide Hex4, Utf8, SpellsCode, DecodeUtf8;
    assert i + 6 <= |s| && Hex4(s, i + 2).Some?;
    CodeRead(s, i + 2);
    Utf8Decodes(Hex4(s, i + 2).value);
    p := Unicode(s[i + 2..i + 6], Hex4(s, i + 2).value);
    Joined(s, i, i + 2, i + 6);
    assert s[i..i + 2] == ['\\', 'u'];
  }

  /** An escape that was read, from its backslash. */
  lemma {:induction false} EscapeIs(s: string, i: nat) returns (p: Piece)
    requires i < |s| && s[i] == '\\' && Unescape(s, i + 1).Got?
    ensures GoodPiece(p) && s[i..Unescape(s, i + 1).pos] == PieceText(p) && PieceMeans(p, Unescape(s, i + 1).value)
  {
    if s[i + 1] == 'u' {
      p := UnicodeIs(s, i);
    } else {
      ShortEnds(s, i + 1);
      hide Unescape;
      p := Short(s[i + 1]);
      LetterIs(s, i + 1, s[i + 1], Unescape(s, i + 1).value);
      assert s[i..i + 2] == ['\\', s[i + 1]] + "";
    }
  }

  lemma {:induction false} ShortEnds(s: string, i: nat)
    requires i < |s| && s[i] != 'u' && Unescape(s, i).Got?
    ensures Unescape(s, i).pos == i + 1
  {
  }

  lemma {:induction false} LetterIs(s: string, i: nat, c: char, t: string)
    requires i < |s| && s[i] == c && c != 'u' && Unescape(s, i) == Got(t, i + 1)
    ensures c in LETTERS && PieceMeans(Short(c), t)
  {
    assert LETTERS[0] == '"' && LETTERS[1] == '\\' && LETTERS[2] == '/' && LETTERS[3] == 'b' && LETTERS[4] == 'f'
        && LETTERS[5] == 'n' && LETTERS[6] == 'r' && LETTERS[7] == 't';
    var k := if c == '"' then 0 else if c == '\\' then 1 else if c == '/' then 2 else if c == 'b' then 3 else if c == 'f' then 4
             else if c == 'n' then 5 else if c == 'r' then 6 else 7;
    assert c == LETTERS[k] && t[0] as int == CODES[k];
  }

  lemma {:induction false} BodyRead(s: string, i: nat, out: string) returns (ps: seq<Piece>, t: string)
    requires i <= |s| && StringBody(s, i, out).Got?
    ensures GoodPieces(ps) && PiecesMean(ps, t) && StringBody(s, i, out).value == out + t
    ensures s[i..StringBody(s, i, out).pos] == Pieces(ps) + "\""
    decreases |s| - i
  {
    hide Unescape, GoodPiece, PieceMeans, PieceText;
    if s[i] == '"' {
      ps, t := [], "";
      assert s[i..i + 1] == "" + "\"";
    } else {
      var p, first, next := Plain(s[i]), [s[i]], i + 1;
      if s[i] == '\\' {
        p := EscapeIs(s, i);
        first, next := Unescape(s, i + 1).value, Unescape(s, i + 1).pos;
      } else {
        PlainIs(s[i]);
        assert s[i..i + 1] == [s[i]];
      }
      var rest, u := BodyRead(s, next, out + first);
      ps, t := [p] + rest, first + u;
      Joined(s, i, next, StringBody(s, i, out).pos);
      OnePiece(p, rest, first, u);
      assert (out + first) + u == out + t;
      assert PieceText(p) + (Pieces(rest) + "\"") == (PieceText(p) + Pieces(rest)) + "\"";
    }
  }

  lemma {:induction false} PlainIs(c: char)
    requires c as int >= 0x20 && c != '"' && c != '\\'
    ensures GoodPiece(Plain(c)) && PieceMeans(Plain(c), [c]) && PieceText(Plain(c)) == [c]
  {
  }

  lemma {:induction false} OnePiece(p: Piece, rest: seq<Piece>, first: string, u: string)
    requires GoodPiece(p) && GoodPieces(rest) && PieceMeans(p, first) && PiecesMean(rest, u)
    ensures GoodPieces([p] + rest) && PiecesMean([p] + rest, first + u) && Pieces([p] + rest) == PieceText(p) + Pieces(rest)
  {
    hide GoodPiece, PieceMeans, PieceText;
    var ps, t := [p] + rest, first + u;
    assert ps[0] == p && ps[1..] == rest;
    assert t[..|first|] == first && t[|first|..] == u;
  }

  lemma {:induction false} StringRead(s: string, i: nat) returns (ps: seq<Piece>)
    requires i <= |s| && StringAt(s, i).Got?
    ensures GoodPieces(ps) && PiecesMean(ps, StringAt(s, i).value) && s[i..StringAt(s, i).pos] == QuotedPieces(ps)
  {
    hide StringBody, GoodPieces, PiecesMean;
    var t;
    ps, t := BodyRead(s, i + 1, "");
    assert "" + t == t;
    Joined(s, i, i + 1, StringAt(s, i).pos);
    assert s[i..i + 1] == "\"";
  }

  // ----- values -----

  /** A value that was read, from its first character on. */
  lemma {:induction false} ValueRead(s: string, start: nat) returns (f: Form)
    requires start <= |s| && ValueAt(s, start).Got?
    ensures var i, r := SkipWs(s, start), ValueAt(s, start);
      i <= r.pos && GoodForm(f) && FormMeans(f, r.value) && s[i..r.pos] == FormText(f)
    decreases |s| - start, 0
  {
    var i := SkipWs(s, start);
    if s[i] == '"' {
      hide ValueAt, StringAt, PiecesMean, GoodPieces, QuotedPieces;
      ValueIsString(s, start);
      var ps := StringRead(s, i);
      f := Quote(ps);
    } else if s[i] == '{' {
      f := ObjectRead(s, start);
    } else if s[i] == '[' {
      f := ArrayRead(s, start);
    } else if s[i] == 't' || s[i] == 'f' || s[i] == 'n' {
      f := WordRead(s, start);
    } else {
      hide ValueAt, Number, GoodNumeral, NumeralText, NumeralValue;
      ValueIsNumber(s, start);
      var n := NumberRead(s, i);
      f := Amount(n);
    }
  }

  lemma {:induction false} ValueIsString(s: string, start: nat)
    requires start <= |s| && ValueAt(s, start).Got? && s[SkipWs(s, start)] == '"'
    ensures var i := SkipWs(s, start);
      StringAt(s, i).Got? && ValueAt(s, start) == Got(Str(StringAt(s, i).value), StringAt(s, i).pos)
  {
    hide StringAt;
  }

  lemma {:induction false} ValueIsNumber(s: string, start: nat)
    requires start <= |s| && ValueAt(s, start).Got? && s[SkipWs(s, start)] !in ['"', '{', '[', 't', 'f', 'n']
    ensures SkipWs(s, start) < |s| && ValueAt(s, start) == Number(s, SkipWs(s, start))
  {
    hide Number;
  }

  lemma {:induction false} WordRead(s: string, start: nat) returns (f: Form)
    requires start <= |s| && ValueAt(s, start).Got? && s[SkipWs(s, start)] in ['t', 'f', 'n']
    ensures var i, r := SkipWs(s, start), ValueAt(s, start);
      i <= r.pos && GoodForm(f) && FormMeans(f, r.value) && s[i..r.pos] == FormText(f)
  {
    var i := SkipWs(s, start);
    LiteralSlice(s, i, "true");
    LiteralSlice(s, i, "false");
    LiteralSlice(s, i, "null");
    f := Literal(if s[i] == 'n' then "null" else if LiteralAt(s, i, "true") then "true" else "false");
  }

  // ----- arrays -----

  lemma {:induction false} ArrayInside(s: string, start: nat)
    requires start <= |s| && ValueAt(s, start).Got? && s[SkipWs(s, start)] == '['
    ensures var i := SkipWs(s, start); var j := SkipWs(s, i + 1);
      && j < |s|
      && (if s[j] == ']' then ValueAt(s, start) == Got(Arr([]), j + 1) else ValueAt(s, start) == Items(s, j, []))
  {
    hide Items, StringAt;
    var i := SkipWs(s, start);
    NoneAtEnd(s, SkipWs(s, i + 1));
  }

  lemma {:induction false} NoneAtEnd(s: string, i: nat)
    requires i <= |s|
    ensures i == |s| ==> Items(s, i, []).Failed? && Members(s, i, []).Failed?
  {
  }

  lemma {:induction false} ArrayRead(s: string, start: nat) returns (f: Form)
    requires start <= |s| && ValueAt(s, start).Got? && s[SkipWs(s, start)] == '['
    ensures var i, r := SkipWs(s, start), ValueAt(s, start);
      i <= r.pos && GoodForm(f) && FormMeans(f, r.value) && s[i..r.pos] == FormText(f)
    decreases |s| - start, 0, 0
  {
    hide ValueAt, IsGap, SkipWs, Items, SlotTexts, GoodSlots, SlotsMean;
    ArrayInside(s, start);
    var i := SkipWs(s, start);
    var j := SkipWs(s, i + 1);
    SkippedIsGap(s, i + 1);
    var gap, next := s[i + 1..j], ValueAt(s, start).pos;
    assert s[i..i + 1] == "[";
    Joined(s, i, i + 1, next);
    Joined(s, i + 1, j, next);
    EmptyGap();
    if s[j] == ']' {
      NoSlots();
      f := List(gap, []);
      assert s[j..j + 1] == "]";
    } else {
      var items, a := ItemsRead(s, j, []);
      var inner := SlotTexts(items);
      items := GapBefore(gap, items, a);
      f := List("", items);
      assert [] + a == a;
      assert gap + (inner + "]") == (gap + inner) + "]";
    }
  }

  lemma {:induction false} NoSlots()
    ensures GoodSlots([]) && SlotsMean([], [])
  {
  }

  lemma {:induction false} EmptyGap()
    ensures IsGap("")
  {
  }

  /** White space before the first of several items. */
  lemma {:induction false} GapBefore(gap: string, items: seq<Slot>, a: seq<Value>) returns (r: seq<Slot>)
    requires IsGap(gap) && items != [] && GoodSlots(items) && SlotsMean(items, a)
    ensures r != [] && GoodSlots(r) && SlotsMean(r, a) && SlotTexts(r) == gap + SlotTexts(items)
  {
    hide FormText, FormMeans, GoodForm;
    var x := items[0];
    var y := x.(before := gap + x.before);
    r := [y] + items[1..];
    assert r[1..] == items[1..];
    assert SlotText(y) == gap + SlotText(x);
    forall k | 0 <= k < |r| ensures FormMeans(r[k].form, a[k]) { assert FormMeans(items[k].form, a[k]); }
  }

  /** One item in front of others. */
  lemma {:induction false} ItemBefore(x: Slot, v: Value, items: seq<Slot>, a: seq<Value>) returns (r: seq<Slot>)
    requires IsGap(x.before) && IsGap(x.after) && GoodForm(x.form) && FormMeans(x.form, v)
    requires GoodSlots(items) && SlotsMean(items, a)
    ensures r != [] && GoodSlots(r) && SlotsMean(r, [v] + a)
    ensures SlotTexts(r) == if items == [] then SlotText(x) else SlotText(x) + ("," + SlotTexts(items))
  {
    hide FormText, FormMeans, GoodForm, SlotText;
    r := [x] + items;
    assert r[1..] == items;
    forall k | 0 <= k < |r| ensures FormMeans(r[k].form, ([v] + a)[k]) { if k > 0 { assert r[k] == items[k - 1]; } }
  }

  lemma {:induction false} ItemsInside(s: string, i: nat, done: seq<Value>)
    requires i <= |s| && Items(s, i, done).Got?
    ensures ValueAt(s, i).Got?
    ensures var v := ValueAt(s, i); var j := SkipWs(s, v.pos);
      && j < |s|
      && (if s[j] == ',' then Items(s, i, done) == Items(s, SkipWs(s, j + 1), done + [v.value])
          else s[j] == ']' && Items(s, i, done) == Got(Arr(done + [v.value]), j + 1))
  {
    hide ValueAt, SkipWs;
  }

  lemma {:induction false} ItemsRead(s: string, i: nat, done: seq<Value>) returns (items: seq<Slot>, a: seq<Value>)
    requires i <= |s| && Items(s, i, done).Got?
    ensures items != [] && GoodSlots(items) && SlotsMean(items, a) && Items(s, i, done).value == Arr(done + a)
    ensures s[i..Items(s, i, done).pos] == SlotTexts(items) + "]"
    decreases |s| - i, 2
  {
    hide Items, ValueAt, SkipWs, IsGap, GoodSlots, SlotsMean, SlotTexts, FormMeans, GoodForm, SlotText, FormText;
    ItemsInside(s, i, done);
    NoSlots();
    var f := ValueRead(s, i);
    var v, p, q := ValueAt(s, i).value, SkipWs(s, i), ValueAt(s, i).pos;
    var j, next := SkipWs(s, q), Items(s, i, done).pos;
    SkippedIsGap(s, i);
    SkippedIsGap(s, q);
    var x := Slot(s[i..p], f, s[q..j]);
    SlotIs(s, i, p, q, j, x);
    Joined(s, i, j, next);
    if s[j] == ',' {
      var m := SkipWs(s, j + 1);
      SkippedIsGap(s, j + 1);
      var rest, b := ItemsRead(s, m, done + [v]);
      var inner := SlotTexts(rest);
      rest := GapBefore(s[j + 1..m], rest, b);
      items := ItemBefore(x, v, rest, b);
      a := [v] + b;
      assert (done + [v]) + b == done + a;
      Joined(s, j, j + 1, next);
      Joined(s, j + 1, m, next);
      assert s[j..j + 1] == ",";
      Regrouped(SlotText(x), s[j + 1..m], inner, "]");
    } else {
      items := ItemBefore(x, v, [], []);
      a := [v] + [];
      assert a == [v];
      assert s[j..j + 1] == "]";
    }
  }

  lemma {:induction false} SlotIs(s: string, i: nat, p: nat, q: nat, j: nat, x: Slot)
    requires i <= p <= q <= j <= |s| && x.before == s[i..p] && x.after == s[q..j] && FormText(x.form) == s[p..q]
    ensures SlotText(x) == s[i..j]
  {
    hide FormText;
    Joined(s, i, p, j);
    Joined(s, p, q, j);
  }

  lemma {:induction false} Regrouped(first: string, gap: string, inner: string, close: string)
    ensures first + ("," + (gap + (inner + close))) == (first + ("," + (gap + inner))) + close
  {
  }

  // ----- objects -----

  lemma {:induction false} ObjectInside(s: string, start: nat)
    requires start <= |s| && ValueAt(s, start).Got? && s[SkipWs(s, start)] == '{'
    ensures var i := SkipWs(s, start); var j := SkipWs(s, i + 1);
      && j < |s|
      && (if s[j] == '}' then ValueAt(s, start) == Got(Obj([]), j + 1) else ValueAt(s, start) == Members(s, j, []))
  {
    hide Members, StringAt;
    var i := SkipWs(s, start);
    NoneAtEnd(s, SkipWs(s, i + 1));
  }

  lemma {:induction false} ObjectRead(s: string, start: nat) returns (f: Form)
    requires start <= |s| && ValueAt(s, start).Got? && s[SkipWs(s, start)] == '{'
    ensures var i, r := SkipWs(s, start), ValueAt(s, start);
      i <= r.pos && GoodForm(f) && FormMeans(f, r.value) && s[i..r.pos] == FormText(f)
    decreases |s| - start, 0, 0
  {
    hide ValueAt, IsGap, SkipWs, Members, EntryTexts, GoodEntries, EntriesMean, Kept;
    ObjectInside(s, start);
    var i := SkipWs(s, start);
    var j := SkipWs(s, i + 1);
    SkippedIsGap(s, i + 1);
    var gap, next := s[i + 1..j], ValueAt(s, start).pos;
    assert s[i..i + 1] == "{";
    Joined(s, i, i + 1, next);
    Joined(s, i + 1, j, next);
    EmptyGap();
    NoEntries();
    GoodEmpty();
    if s[j] == '}' {
      f := Record(gap, []);
      assert s[j..j + 1] == "}";
    } else {
      var entries, ms := MembersRead(s, j, []);
      var inner := EntryTexts(entries);
      entries := GapBeforeEntries(gap, entries, ms);
      f := Record("", entries);
      assert [] + ms == ms;
      assert gap + (inner + "}") == (gap + inner) + "}";
    }
  }

  lemma {:induction false} GoodEmpty()
    ensures GoodEntries([])
  {
  }

  lemma {:induction false} GapBeforeEntries(gap: string, entries: seq<Entry>, ms: seq<Member>) returns (r: seq<Entry>)
    requires IsGap(gap) && entries != [] && GoodEntries(entries) && EntriesMean(entries, ms)
    ensures r != [] && GoodEntries(r) && EntriesMean(r, ms) && EntryTexts(r) == gap + EntryTexts(entries)
  {
    hide FormText, FormMeans, GoodForm, PiecesMean, GoodPieces, QuotedPieces;
    var x := entries[0];
    var y := x.(before := gap + x.before);
    r := [y] + entries[1..];
    assert r[1..] == entries[1..];
    assert EntryText(y) == gap + EntryText(x);
    forall k | 0 <= k < |r| ensures PiecesMean(r[k].key, ms[k].key) && FormMeans(r[k].form, ms[k].value) {
      assert PiecesMean(entries[k].key, ms[k].key) && FormMeans(entries[k].form, ms[k].value);
    }
  }

  lemma {:induction false} EntryBefore(x: Entry, m: Member, entries: seq<Entry>, ms: seq<Member>) returns (r: seq<Entry>)
    requires IsGap(x.before) && IsGap(x.left) && IsGap(x.right) && IsGap(x.after) && GoodPieces(x.key) && GoodForm(x.form)
    requires PiecesMean(x.key, m.key) && FormMeans(x.form, m.value) && GoodEntries(entries) && EntriesMean(entries, ms)
    ensures r != [] && GoodEntries(r) && EntriesMean(r, [m] + ms)
    ensures EntryTexts(r) == if entries == [] then EntryText(x) else EntryText(x) + ("," + EntryTexts(entries))
  {
    hide FormText, FormMeans, GoodForm, PiecesMean, GoodPieces, EntryText;
    r := [x] + entries;
    assert r[1..] == entries;
    forall k | 0 <= k < |r| ensures PiecesMean(r[k].key, ([m] + ms)[k].key) && FormMeans(r[k].form, ([m] + ms)[k].value) {
      if k > 0 { assert r[k] == entries[k - 1]; }
    }
  }

  lemma {:induction false} MemberInside(s: string, start: nat, o: seq<Member>)
    requires start <= |s| && MemberAt(s, start, o).Got?
    ensures var i := SkipWs(s, start);
      && StringAt(s, i).Got?
      && var c := SkipWs(s, StringAt(s, i).pos);
         && c < |s| && s[c] == ':' && ValueAt(s, SkipWs(s, c + 1)).Got?
         && var v := ValueAt(s, SkipWs(s, c + 1));
            MemberAt(s, start, o) == Got(Insert(o, StringAt(s, i).value, v.value), v.pos)
  {
    hide ValueAt, StringAt, SkipWs, Insert;
  }

  lemma {:induction false} EntryIs(s: string, x: Entry, a: nat, i: nat, k: nat, c: nat, d: nat, q: nat, j: nat)
    requires a <= i <= k <= c < d <= q <= j <= |s| && s[c] == ':'
    requires x.before == s[a..i] && QuotedPieces(x.key) == s[i..k] && x.left == s[k..c] && x.right == s[c + 1..d]
    requires FormText(x.form) == s[d..q] && x.after == s[q..j]
    ensures EntryText(x) == s[a..j]
  {
    hide FormText, QuotedPieces;
    RightOfColon(s, c, d, q, j);
    var right := ":" + (s[c + 1..d] + (s[d..q] + s[q..j]));
    assert s[a..j] == s[a..i] + (s[i..k] + (s[k..c] + right)) by {
      Joined(s, k, c, j);
      Joined(s, i, k, j);
      Joined(s, a, i, j);
    }
  }

  lemma {:induction false} RightOfColon(s: string, c: nat, d: nat, q: nat, j: nat)
    requires c < d <= q <= j <= |s| && s[c] == ':'
    ensures s[c..j] == ":" + (s[c + 1..d] + (s[d..q] + s[q..j]))
  {
    assert s[c..c + 1] == ":";
    Joined(s, d, q, j);
    Joined(s, c + 1, d, j);
    Joined(s, c, c + 1, j);
  }

  /** One member that was read. */
  lemma {:induction false} MemberIs(s: string, start: nat, o: seq<Member>) returns (x: Entry, m: Member)
    requires start <= |s| && MemberAt(s, start, o).Got?
    ensures IsGap(x.before) && IsGap(x.left) && IsGap(x.right) && IsGap(x.after) && GoodPieces(x.key) && GoodForm(x.form)
    ensures PiecesMean(x.key, m.key) && FormMeans(x.form, m.value) && MemberAt(s, start, o).value == Insert(o, m.key, m.value)
    ensures var q := MemberAt(s, start, o).pos; s[start..SkipWs(s, q)] == EntryText(x)
    decreases |s| - start, 1
  {
    hide ValueAt, StringAt, SkipWs, MemberAt, FormText, EntryText, QuotedPieces, IsGap, GoodForm, GoodPieces, PiecesMean, FormMeans,
         Insert;
    MemberInside(s, start, o);
    var i := SkipWs(s, start);
    var k := StringAt(s, i).pos;
    var c := SkipWs(s, k);
    var d := SkipWs(s, c + 1);
    SkipTwice(s, c + 1);
    var f := ValueRead(s, d);
    var q := ValueAt(s, d).pos;
    var j := SkipWs(s, q);
    SkippedIsGap(s, start);
    SkippedIsGap(s, k);
    SkippedIsGap(s, c + 1);
    SkippedIsGap(s, q);
    var ps := StringRead(s, i);
    x := Entry(s[start..i], ps, s[k..c], s[c + 1..d], f, s[q..j]);
    m := Member(StringAt(s, i).value, ValueAt(s, d).value);
    EntryIs(s, x, start, i, k, c, d, q, j);
  }

  lemma {:induction false} MembersInside(s: string, i: nat, o: seq<Member>)
    requires i <= |s| && Members(s, i, o).Got?
    ensures MemberAt(s, i, o).Got?
    ensures var m := MemberAt(s, i, o); var j := SkipWs(s, m.pos);
      && j < |s|
      && (if s[j] == ',' then Members(s, i, o) == Members(s, j + 1, m.value)
          else s[j] == '}' && Members(s, i, o) == Got(Obj(m.value), j + 1))
  {
    hide MemberAt, SkipWs;
  }

  lemma {:induction false} CommaThen(s: string, i: nat, j: nat, next: nat, first: string, others: string, close: string)
    requires i <= j < next <= |s| && s[i..j] == first && s[j] == ',' && s[j + 1..next] == others + close
    ensures s[i..next] == (first + ("," + others)) + close
  {
    assert s[j..j + 1] == ",";
    Joined(s, j, j + 1, next);
    Joined(s, i, j, next);
    assert "," + (others + close) == ("," + others) + close;
  }

  lemma {:induction false} MembersRead(s: string, i: nat, done: seq<Member>) returns (entries: seq<Entry>, ms: seq<Member>)
    requires i <= |s| && Members(s, i, Kept(done)).Got?
    ensures entries != [] && GoodEntries(entries) && EntriesMean(entries, ms)
    ensures Members(s, i, Kept(done)).value == Obj(Kept(done + ms))
    ensures s[i..Members(s, i, Kept(done)).pos] == EntryTexts(entries) + "}"
    decreases |s| - i, 2
  {
    hide Members, MemberAt, Kept, SkipWs, IsGap, GoodEntries, EntriesMean, EntryTexts, FormMeans, GoodForm, EntryText, PiecesMean,
         GoodPieces;
    MembersInside(s, i, Kept(done));
    NoEntries();
    GoodEmpty();
    var x, m := MemberIs(s, i, Kept(done));
    KeptSnoc(done, m);
    var j, next := SkipWs(s, MemberAt(s, i, Kept(done)).pos), Members(s, i, Kept(done)).pos;
    Joined(s, i, j, next);
    if s[j] == ',' {
      var rest, ns := MembersRead(s, j + 1, done + [m]);
      entries := EntryBefore(x, m, rest, ns);
      ms := [m] + ns;
      assert (done + [m]) + ns == done + ms;
      CommaThen(s, i, j, next, EntryText(x), EntryTexts(rest), "}");
    } else {
      entries := EntryBefore(x, m, [], []);
      ms := [m] + [];
      assert ms == [m];
      assert s[j..j + 1] == "}";
    }
  }

  // ----- the whole text -----

  /** s is a text of the grammar for v, with white space around it. */
  ghost predicate IsText(s: string, v: Value)
  {
    exists f: Form, lead: string, trail: string ::
      GoodForm(f) && IsGap(lead) && IsGap(trail) && s == lead + (FormText(f) + trail) && FormMeans(f, v)
  }

  /** The parser accepts a text, and as a value, exactly when the grammar has it
      as a text of that value. */
  lemma {:induction false} ParsedExactly(s: string, v: Value)
    ensures Document(s) == Got(v, |s|) <==> IsText(s, v)
    ensures Document(s).Got? ==> Document(s).pos == |s|
  {
    hide ValueAt, FormText, GoodForm, FormMeans, IsGap;
    if Document(s).Got? {
      var i := SkipWs(s, 0);
      var f := ValueRead(s, i);
      SkipTwice(s, 0);
      var q := ValueAt(s, i).pos;
      SkippedIsGap(s, 0);
      SkippedIsGap(s, q);
      var lead, trail := s[0..i], s[q..|s|];
      assert SkipWs(s, q) == |s|;
      Joined(s, 0, i, |s|);
      Joined(s, i, q, |s|);
      assert s[0..|s|] == s && s == lead + (FormText(f) + trail);
      assert IsText(s, Document(s).value);
    }
    if IsText(s, v) {
      var f: Form, lead: string, trail: string :|
        GoodForm(f) && IsGap(lead) && IsGap(trail) && s == lead + (FormText(f) + trail) && FormMeans(f, v);
      var w := GrammarIsParsed(f, lead, trail);
      FormMeansOne(f, v, w);
    }
  }
}

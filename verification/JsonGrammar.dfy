/** The texts of JSON as section 2 to 7 of RFC 8259 build them, with every choice
    that the grammar leaves: white space, escapes, spellings of numbers, repeated
    keys.  Each of them is parsed to what it stands for. */
module JsonGrammar {
  import opened Base
  import opened Json
  import opened JsonParser
  import opened JsonRoundTrip

  // ----- code points -----

  /** A decoder for UTF-8 up to three bytes: lead byte, continuation bytes, and
      no longer form than needed. */
  function DecodeUtf8(b: string): Option<nat>
  {
    if |b| == 1 && b[0] as int < 0x80 then Some(b[0] as int)
    else if |b| == 2 && 0xC0 <= b[0] as int < 0xE0 && Continues(b[1]) then
      var cp := (b[0] as int - 0xC0) * 64 + (b[1] as int - 0x80);
      if cp >= 0x80 then Some(cp) else None
    else if |b| == 3 && 0xE0 <= b[0] as int < 0xF0 && Continues(b[1]) && Continues(b[2]) then
      var cp := ((b[0] as int - 0xE0) * 64 + (b[1] as int - 0x80)) * 64 + (b[2] as int - 0x80);
      if cp >= 0x800 then Some(cp) else None
    else None
  }

  predicate Continues(c: char) { 0x80 <= c as int < 0xC0 }

  /** The bytes of every code point below 2^16 decode to it. */
  lemma {:induction false} Utf8Decodes(cp: nat)
    requires cp < 0x1_0000
    ensures DecodeUtf8(Utf8(cp)) == Some(cp)
  {
    if cp >= 0x800 {
      var a, b, c := cp / 0x1000, cp / 0x40 % 0x40, cp % 0x40;
      assert cp / 0x40 == a * 0x40 + b;
      assert cp == (a * 0x40 + b) * 0x40 + c;
    }
  }

  /** And no other bytes do. */
  lemma {:induction false} Utf8Unique(b: string, cp: nat)
    requires DecodeUtf8(b) == Some(cp)
    ensures cp < 0x1_0000 && b == Utf8(cp)
  {
    if |b| == 2 {
      var x, y := b[0] as int - 0xC0, b[1] as int - 0x80;
      assert cp == x * 64 + y && cp / 64 == x && cp % 64 == y;
      assert b == [b[0], b[1]];
    } else if |b| == 3 {
      var x, y, z := b[0] as int - 0xE0, b[1] as int - 0x80, b[2] as int - 0x80;
      assert cp == (x * 64 + y) * 64 + z && cp / 64 == x * 64 + y && cp % 64 == z;
      assert cp / 0x1000 == x && cp / 0x40 % 0x40 == y;
      assert b == [b[0], b[1], b[2]];
    } else {
      assert b == [b[0]];
    }
  }

  const SMALL_DIGITS: string := "0123456789abcdef"
  const CAPITAL_DIGITS: string := "0123456789ABCDEF"

  /** c is a hexadecimal digit for d, in either case. */
  predicate Spells(c: char, d: nat)
  {
    d < 16 && (c == SMALL_DIGITS[d] || c == CAPITAL_DIGITS[d])
  }

  /** Four digits that spell a code point. */
  predicate SpellsCode(digits: string, cp: nat)
  {
    |digits| == 4 && cp < 0x1_0000
    && Spells(digits[0], cp / 0x1000) && Spells(digits[1], cp / 0x100 % 16) && Spells(digits[2], cp / 0x10 % 16)
    && Spells(digits[3], cp % 16)
  }

  lemma {:induction false} DigitSpelled(c: char, d: nat)
    requires d < 16
    ensures Spells(c, d) <==> HexValue(c) == Some(d)
  {
    if d < 10 {
      assert SMALL_DIGITS[d] == CAPITAL_DIGITS[d] == (48 + d) as char;
    } else {
      assert SMALL_DIGITS[d] == (87 + d) as char && CAPITAL_DIGITS[d] == (55 + d) as char;
    }
  }

  lemma {:induction false} CodeSpelled(s: string, i: nat, digits: string, cp: nat)
    requires At(s, i, |s|, digits) && SpellsCode(digits, cp)
    ensures Hex4(s, i) == Some(cp)
  {
    forall k | 0 <= k < 4 ensures s[i + k] == digits[k] { AtChar(s, i, |s|, digits, k); }
    DigitSpelled(digits[0], cp / 0x1000);
    DigitSpelled(digits[1], cp / 0x100 % 16);
    DigitSpelled(digits[2], cp / 0x10 % 16);
    DigitSpelled(digits[3], cp % 16);
    assert s[i] == digits[0] && s[i + 1] == digits[1] && s[i + 2] == digits[2] && s[i + 3] == digits[3];
    FourDigits(cp);
  }

  lemma {:induction false} FourDigits(cp: nat)
    ensures ((cp / 0x1000 * 16 + cp / 0x100 % 16) * 16 + cp / 0x10 % 16) * 16 + cp % 16 == cp
  {
    assert cp / 0x10 == cp / 0x100 * 16 + cp / 0x10 % 16;
    assert cp / 0x100 == cp / 0x1000 * 16 + cp / 0x100 % 16;
  }

  // ----- strings -----

  /** A character of a string as it is written. */
  datatype Piece = Plain(c: char) | Short(letter: char) | Unicode(digits: string, cp: nat)

  /** The letters of the short escapes, and the codes that they stand for. */
  const LETTERS: string := "\"\\/bfnrt"
  const CODES: seq<nat> := [34, 92, 47, 8, 12, 10, 13, 9]

  predicate GoodPiece(p: Piece)
  {
    match p
    case Plain(c) => c as int >= 0x20 && c as int != 34 && c as int != 92
    case Short(letter) => letter in LETTERS
    case Unicode(digits, cp) => SpellsCode(digits, cp)
  }

  function PieceText(p: Piece): string
  {
    match p
    case Plain(c) => [c]
    case Short(letter) => ['\\', letter] + ""
    case Unicode(digits, _) => ['\\', 'u'] + digits
  }

  /** t is what the character stands for. */
  predicate PieceMeans(p: Piece, t: string)
  {
    match p
    case Plain(c) => t == [c]
    case Short(letter) => exists k :: 0 <= k < 8 && letter == LETTERS[k] && |t| == 1 && t[0] as int == CODES[k]
    case Unicode(_, cp) => DecodeUtf8(t) == Some(cp)
  }

  lemma {:induction false} ShortIs(letter: char) returns (t: string)
    requires letter in LETTERS
    ensures PieceMeans(Short(letter), t)
    ensures forall s: string, i: nat :: i < |s| && s[i] == letter ==> Unescape(s, i) == Got(t, i + 1)
  {
    var k :| 0 <= k < |LETTERS| && LETTERS[k] == letter;
    assert |LETTERS| == 8 && LETTERS[0] == '"' && LETTERS[1] == '\\' && LETTERS[2] == '/' && LETTERS[3] == 'b' && LETTERS[4] == 'f'
        && LETTERS[5] == 'n' && LETTERS[6] == 'r' && LETTERS[7] == 't';
    t := [CODES[k] as char];
    assert t[0] as int == CODES[k];
  }

  /** One written character is read as what it stands for. */
  lemma {:induction false} PieceBack(p: Piece, s: string, i: nat, out: string) returns (t: string)
    requires GoodPiece(p) && At(s, i, |s|, PieceText(p))
    ensures PieceMeans(p, t)
    ensures StringBody(s, i, out) == StringBody(s, i + |PieceText(p)|, out + t)
  {
    hide At, Utf8, Hex4, Unescape, LETTERS;
    match p {
      case Plain(c) =>
        AtChar(s, i, |s|, [c], 0);
        t := [c];
      case Short(letter) =>
        EscapeAt(s, i, letter, "");
        t := ShortIs(letter);
        EscapeRead(s, i, t, i + 2, out);
      case Unicode(digits, cp) =>
        EscapeAt(s, i, 'u', digits);
        CodeSpelled(s, i + 2, digits, cp);
        FitsIn(s, i + 2, digits);
        Utf8Decodes(cp);
        t := Utf8(cp);
        UnicodeRead(s, i + 1, cp);
        EscapeRead(s, i, t, i + 6, out);
    }
  }

  lemma {:induction false} EscapeAt(s: string, i: nat, letter: char, rest: string)
    requires At(s, i, |s|, ['\\', letter] + rest)
    ensures i + 1 < |s| && s[i] == '\\' && s[i + 1] == letter && At(s, i + 2, |s|, rest)
  {
    hide At;
    AtSplit(s, i, |s|, ['\\', letter], rest);
    AtChar(s, i, |s|, ['\\', letter], 0);
    AtChar(s, i, |s|, ['\\', letter], 1);
  }

  lemma {:induction false} UnicodeRead(s: string, i: nat, cp: nat)
    requires i + 5 <= |s| && s[i] == 'u' && cp < 0x1_0000 && Hex4(s, i + 1) == Some(cp)
    ensures Unescape(s, i) == Got(Utf8(cp), i + 5)
  {
    hide Hex4, Utf8;
  }

  lemma {:induction false} EscapeRead(s: string, i: nat, t: string, next: nat, out: string)
    requires i + 1 < |s| && s[i] == '\\' && next <= |s| && Unescape(s, i + 1) == Got(t, next)
    ensures StringBody(s, i, out) == StringBody(s, next, out + t)
  {
    hide Unescape;
  }

  function Pieces(ps: seq<Piece>): string
  {
    if ps == [] then "" else PieceText(ps[0]) + Pieces(ps[1..])
  }

  predicate GoodPieces(ps: seq<Piece>)
  {
    forall k :: 0 <= k < |ps| ==> GoodPiece(ps[k])
  }

  /** t is what the characters stand for, one after the other. */
  ghost predicate PiecesMean(ps: seq<Piece>, t: string)
  {
    if ps == [] then t == ""
    else exists k :: 0 <= k <= |t| && PieceMeans(ps[0], t[..k]) && PiecesMean(ps[1..], t[k..])
  }

  lemma {:induction false} PiecesBack(ps: seq<Piece>, s: string, i: nat, out: string) returns (t: string)
    requires GoodPieces(ps) && At(s, i, |s|, Pieces(ps)) && At(s, i + |Pieces(ps)|, |s|, "\"")
    ensures PiecesMean(ps, t) && StringBody(s, i, out) == Got(out + t, i + |Pieces(ps)| + 1)
    decreases ps
  {
    hide StringBody, GoodPiece, PieceMeans, PieceText, At;
    if ps == [] {
      t := "";
      QuoteEnds(s, i, out);
      assert out + t == out;
    } else {
      AtSplit(s, i, |s|, PieceText(ps[0]), Pieces(ps[1..]));
      var first := PieceBack(ps[0], s, i, out);
      var rest := PiecesBack(ps[1..], s, i + |PieceText(ps[0])|, out + first);
      t := first + rest;
      assert t[..|first|] == first && t[|first|..] == rest;
      assert (out + first) + rest == out + t;
    }
  }

  function QuotedPieces(ps: seq<Piece>): string
  {
    "\"" + (Pieces(ps) + "\"")
  }

  lemma {:induction false} TextBack(ps: seq<Piece>, s: string, i: nat) returns (t: string)
    requires GoodPieces(ps) && At(s, i, |s|, QuotedPieces(ps))
    ensures PiecesMean(ps, t) && i < |s| && s[i] == '"' && StringAt(s, i) == Got(t, i + |QuotedPieces(ps)|)
  {
    hide StringBody, PiecesMean, GoodPieces, At;
    AtSplit(s, i, |s|, "\"", Pieces(ps) + "\"");
    AtSplit(s, i + 1, |s|, Pieces(ps), "\"");
    AtChar(s, i, |s|, "\"", 0);
    t := PiecesBack(ps, s, i + 1, "");
    assert "" + t == t;
  }

  /** A character above the escapes that is no hexadecimal digit ends the
      parsing. */
  lemma {:induction false} BadDigit(s: string, i: nat, k: nat, c: char)
    requires i + 4 <= |s| && k < 4 && c == s[i + k] && forall d: nat :: !Spells(c, d)
    ensures Hex4(s, i) == None
  {
    var v := HexValue(c);
    if v.Some? { DigitSpelled(c, v.value); }
  }

  // ----- numbers -----

  predicate Digits(t: string)
  {
    t != "" && forall k :: 0 <= k < |t| ==> 48 <= t[k] as int <= 57
  }

  /** A number as it is written. */
  datatype Numeral = Numeral(negative: bool, whole: string, fraction: Option<string>, exponent: Option<(string, string)>)

  predicate GoodNumeral(n: Numeral)
  {
    && Digits(n.whole) && (n.whole[0] == '0' ==> |n.whole| == 1)
    && (n.fraction.Some? ==> Digits(n.fraction.value))
    && (n.exponent.Some? ==> n.exponent.value.0 in ["e", "E", "e+", "E+", "e-", "E-"] && Digits(n.exponent.value.1))
  }

  function SignText(n: Numeral): string { if n.negative then "-" else "" }

  function FractionText(n: Numeral): string { if n.fraction.Some? then "." + n.fraction.value else "" }

  function ExponentText(n: Numeral): string { if n.exponent.Some? then n.exponent.value.0 + n.exponent.value.1 else "" }

  function NumeralText(n: Numeral): string
  {
    SignText(n) + (n.whole + (FractionText(n) + ExponentText(n)))
  }

  /** The number that digits stand for, after the digits of acc. */
  function Horner(t: string, acc: nat): nat
    requires t == "" || Digits(t)
  {
    if t == "" then acc else Horner(t[1..], 10 * acc + (t[0] as int - 48))
  }

  /** A number without fraction and exponent that fits 64 bits is an integer; any
      other keeps its text. */
  function NumeralValue(n: Numeral): Value
    requires GoodNumeral(n)
  {
    var w: int := Horner(n.whole, 0);
    var i := if n.negative then -w else w;
    if n.fraction == None && n.exponent == None && -0x8000_0000_0000_0000 <= i < 0x8000_0000_0000_0000 then Int(i)
    else Double(NumeralText(n))
  }

  lemma {:induction false} HornerSnoc(t: string, acc: nat)
    requires Digits(t)
    ensures var n := |t| - 1;
      (t[..n] == "" || Digits(t[..n])) && Horner(t, acc) == 10 * Horner(t[..n], acc) + (t[n] as int - 48)
  {
    var n := |t| - 1;
    if n > 0 {
      HornerSnoc(t[1..], 10 * acc + (t[0] as int - 48));
      assert t[1..][..n - 1] == t[..n][1..];
    } else {
      assert t[..0] == "" && t[1..] == "";
    }
  }

  lemma {:induction false} HornerIs(t: string)
    requires t == "" || Digits(t)
    ensures DigitsValue(t) == Horner(t, 0)
  {
    if t != "" {
      HornerSnoc(t, 0);
      HornerIs(t[..|t| - 1]);
    }
  }

  /** A run of digits that something else follows. */
  lemma {:induction false} RunOfDigits(t: string, s: string, i: nat)
    requires At(s, i, |s|, t) && Digits(t) && (i + |t| == |s| || (i + |t| < |s| && !IsDigit(s[i + |t|])))
    ensures i < |s| && IsDigit(s[i]) && s[i] == t[0] && SkipDigits(s, i) == i + |t|
  {
    forall k | i <= k < i + |t| ensures IsDigit(s[k]) { AtChar(s, i, |s|, t, k - i); }
    AtChar(s, i, |s|, t, 0);
    SkipDigitsTo(s, i, i + |t|);
  }

  lemma {:induction false} WholeBack(n: Numeral, s: string, i: nat)
    requires GoodNumeral(n) && At(s, i, |s|, SignText(n)) && At(s, i + |SignText(n)|, |s|, n.whole)
    requires var j := i + |SignText(n)| + |n.whole|; j == |s| || (j < |s| && !IsDigit(s[j]))
    ensures i < |s| && IntegerPart(s, i) == Got((), i + |SignText(n)| + |n.whole|) && (s[i] == '-' || IsDigit(s[i]))
  {
    hide SkipDigits, At;
    RunOfDigits(n.whole, s, i + |SignText(n)|);
    if n.negative { AtChar(s, i, |s|, "-", 0); }
  }

  lemma {:induction false} FractionBack(n: Numeral, s: string, i: nat)
    requires GoodNumeral(n) && At(s, i, |s|, FractionText(n))
    requires var j := i + |FractionText(n)|; j == |s| || (j < |s| && !IsDigit(s[j]) && s[j] != '.')
    ensures i <= |s| && Fraction(s, i) == Got(n.fraction.Some?, i + |FractionText(n)|)
  {
    hide SkipDigits, At;
    if n.fraction.Some? {
      AtSplit(s, i, |s|, ".", n.fraction.value);
      AtChar(s, i, |s|, ".", 0);
      RunOfDigits(n.fraction.value, s, i + 1);
    } else {
      FitsIn(s, i, FractionText(n));
    }
  }

  lemma {:induction false} FitsIn(s: string, i: nat, t: string)
    requires At(s, i, |s|, t)
    ensures i + |t| <= |s|
  {
  }

  lemma {:induction false} ExponentBack(n: Numeral, s: string, i: nat)
    requires GoodNumeral(n) && At(s, i, |s|, ExponentText(n))
    requires var j := i + |ExponentText(n)|; j == |s| || (j < |s| && !IsDigit(s[j]) && s[j] != 'e' && s[j] != 'E')
    ensures i <= |s| && Exponent(s, i) == Got(n.exponent.Some?, i + |ExponentText(n)|)
  {
    hide SkipDigits, At;
    FitsIn(s, i, ExponentText(n));
    if n.exponent.Some? {
      var mark, t := n.exponent.value.0, n.exponent.value.1;
      AtSplit(s, i, |s|, mark, t);
      AtChar(s, i, |s|, mark, 0);
      RunOfDigits(t, s, i + |mark|);
      if |mark| == 2 { AtChar(s, i, |s|, mark, 1); }
    }
  }

  /** What comes first after the whole part, and after the fraction. */
  lemma {:induction false} NumeralParts(n: Numeral, s: string, i: nat)
    requires GoodNumeral(n) && At(s, i, |s|, NumeralText(n)) && Stops(s, i + |NumeralText(n)|)
    ensures var a := i + |SignText(n)|; var b := a + |n.whole|; var c := b + |FractionText(n)|; var d := c + |ExponentText(n)|;
      && At(s, i, |s|, SignText(n)) && At(s, a, |s|, n.whole) && At(s, b, |s|, FractionText(n)) && At(s, c, |s|, ExponentText(n))
      && d == i + |NumeralText(n)| <= |s|
      && (b == |s| || !IsDigit(s[b])) && (c == |s| || (!IsDigit(s[c]) && s[c] != '.'))
  {
    hide At, Digits;
    var a := i + |SignText(n)|;
    var b := a + |n.whole|;
    var c := b + |FractionText(n)|;
    AtSplit(s, i, |s|, SignText(n), n.whole + (FractionText(n) + ExponentText(n)));
    AtSplit(s, a, |s|, n.whole, FractionText(n) + ExponentText(n));
    AtSplit(s, b, |s|, FractionText(n), ExponentText(n));
    if n.exponent.Some? { AtChar(s, c, |s|, ExponentText(n), 0); }
    if n.fraction.Some? { AtChar(s, b, |s|, FractionText(n), 0); }
  }

  /** Every number of the grammar, fractions and exponents included, is read to
      its end. */
  lemma {:induction false} NumeralBack(n: Numeral, s: string, i: nat)
    requires GoodNumeral(n) && At(s, i, |s|, NumeralText(n)) && Stops(s, i + |NumeralText(n)|)
    ensures i < |s| && (s[i] == '-' || IsDigit(s[i]))
    ensures Number(s, i) == Got(NumeralValue(n), i + |NumeralText(n)|)
  {
    hide At, IntegerPart, Fraction, Exponent, FractionText, ExponentText, SignText, NumeralText, Digits, GoodNumeral, NumeralValue,
         IntegerValue;
    NumeralParts(n, s, i);
    WholeBack(n, s, i);
    FractionBack(n, s, i + |SignText(n)| + |n.whole|);
    ExponentBack(n, s, i + |SignText(n)| + |n.whole| + |FractionText(n)|);
    AtSlice(s, i, |s|, NumeralText(n));
    ValueOfNumeral(n);
  }

  lemma {:induction false} ValueOfNumeral(n: Numeral)
    requires GoodNumeral(n)
    ensures NumeralText(n) != ""
    ensures NumeralValue(n)
         == if n.fraction.Some? || n.exponent.Some? then Double(NumeralText(n)) else IntegerValue(NumeralText(n))
  {
    HornerIs(n.whole);
    if n.fraction == None && n.exponent == None {
      assert n.whole + ("" + "") == n.whole;
      if n.negative { assert NumeralText(n)[1..] == n.whole; } else { assert NumeralText(n) == n.whole; }
    }
  }

  // ----- values -----

  /** A value as it is written: gaps are white space, and an object lists its
      members as they come, repeated keys among them. */
  datatype Form =
    | Literal(word: string)
    | Amount(n: Numeral)
    | Quote(ps: seq<Piece>)
    | List(inner: string, items: seq<Slot>)
    | Record(inner: string, entries: seq<Entry>)

  /** An item with the gaps around it. */
  datatype Slot = Slot(before: string, form: Form, after: string)

  /** A member with the gaps before the key, around the colon and after the
      value. */
  datatype Entry = Entry(before: string, key: seq<Piece>, left: string, right: string, form: Form, after: string)

  predicate IsGap(g: string)
  {
    forall k :: 0 <= k < |g| ==> g[k] as int in {9, 10, 13, 32}
  }

  predicate GoodForm(f: Form)
    decreases f
  {
    match f
    case Literal(word) => word in ["null", "true", "false"]
    case Amount(n) => GoodNumeral(n)
    case Quote(ps) => GoodPieces(ps)
    case List(inner, items) => IsGap(inner) && GoodSlots(items)
    case Record(inner, entries) => IsGap(inner) && GoodEntries(entries)
  }

  predicate GoodSlots(items: seq<Slot>)
    decreases items
  {
    items == [] || (IsGap(items[0].before) && IsGap(items[0].after) && GoodForm(items[0].form) && GoodSlots(items[1..]))
  }

  predicate GoodEntries(entries: seq<Entry>)
    decreases entries
  {
    entries == [] ||
    (var e := entries[0];
     && IsGap(e.before) && IsGap(e.left) && IsGap(e.right) && IsGap(e.after) && GoodPieces(e.key) && GoodForm(e.form)
     && GoodEntries(entries[1..]))
  }

  function FormText(f: Form): string
    decreases f, 1
  {
    match f
    case Literal(word) => word
    case Amount(n) => NumeralText(n)
    case Quote(ps) => QuotedPieces(ps)
    case List(inner, items) => "[" + ((if items == [] then inner else SlotTexts(items)) + "]")
    case Record(inner, entries) => "{" + ((if entries == [] then inner else EntryTexts(entries)) + "}")
  }

  function SlotText(x: Slot): string
    decreases x, 2
  {
    x.before + (FormText(x.form) + x.after)
  }

  function SlotTexts(items: seq<Slot>): string
    decreases items, 0
  {
    if items == [] then ""
    else if |items| == 1 then SlotText(items[0]) else SlotText(items[0]) + ("," + SlotTexts(items[1..]))
  }

  function EntryText(e: Entry): string
    decreases e, 2
  {
    e.before + (QuotedPieces(e.key) + (e.left + (":" + (e.right + (FormText(e.form) + e.after)))))
  }

  function EntryTexts(entries: seq<Entry>): string
    decreases entries, 0
  {
    if entries == [] then ""
    else if |entries| == 1 then EntryText(entries[0]) else EntryText(entries[0]) + ("," + EntryTexts(entries[1..]))
  }

  /** v is the value that is written. */
  ghost predicate FormMeans(f: Form, v: Value)
    decreases f
  {
    match f
    case Literal(word) => v == if word == "null" then Null else Bool(word == "true")
    case Amount(n) => GoodNumeral(n) && v == NumeralValue(n)
    case Quote(ps) => v.Str? && PiecesMean(ps, v.s)
    case List(_, items) => v.Arr? && SlotsMean(items, v.a)
    case Record(_, entries) => exists ms :: EntriesMean(entries, ms) && v == Obj(Kept(ms))
  }

  ghost predicate SlotsMean(items: seq<Slot>, a: seq<Value>)
    decreases items
  {
    |a| == |items| && forall k :: 0 <= k < |items| ==> FormMeans(items[k].form, a[k])
  }

  /** The members as they come. */
  ghost predicate EntriesMean(entries: seq<Entry>, ms: seq<Member>)
    decreases entries
  {
    |ms| == |entries|
    && forall k :: 0 <= k < |entries| ==> PiecesMean(entries[k].key, ms[k].key) && FormMeans(entries[k].form, ms[k].value)
  }

  /** The members in the order of their keys, each key with its last value. */
  function Kept(ms: seq<Member>): seq<Member>
  {
    if ms == [] then [] else Insert(Kept(ms[..|ms| - 1]), ms[|ms| - 1].key, ms[|ms| - 1].value)
  }

  /** The value of the last member with the key. */
  function LastOf(ms: seq<Member>, key: string): Option<Value>
  {
    if ms == [] then None else if ms[|ms| - 1].key == key then Some(ms[|ms| - 1].value) else LastOf(ms[..|ms| - 1], key)
  }

  lemma {:induction false} FindInserted(o: seq<Member>, key: string, value: Value, other: string)
    ensures Find(Insert(o, key, value), other) == if other == key then Some(value) else Find(o, other)
  {
    if o != [] && key != o[0].key && !Less(key, o[0].key) {
      FindInserted(o[1..], key, value, other);
      var rest := Insert(o[1..], key, value);
      assert ([o[0]] + rest)[1..] == rest;
    } else if o != [] && key == o[0].key {
      assert ([Member(key, value)] + o[1..])[1..] == o[1..];
    } else {
      assert ([Member(key, value)] + o)[1..] == o;
    }
  }

  /** Looking a key up in what is kept gives its last value. */
  lemma {:induction false} LastIsKept(ms: seq<Member>, key: string)
    ensures Find(Kept(ms), key) == LastOf(ms, key)
  {
    if ms != [] {
      var n := |ms| - 1;
      LastIsKept(ms[..n], key);
      FindInserted(Kept(ms[..n]), ms[n].key, ms[n].value, key);
    }
  }

  // ----- reading them -----

  lemma {:induction false} GapSkipped(s: string, i: nat, g: string)
    requires At(s, i, |s|, g) && IsGap(g)
    ensures i + |g| <= |s| && SkipWs(s, i) == SkipWs(s, i + |g|)
    decreases g
  {
    if g != "" {
      AtChar(s, i, |s|, g, 0);
      AtSplit(s, i, |s|, g[..1], g[1..]) by { assert g[..1] + g[1..] == g; }
      GapSkipped(s, i + 1, g[1..]);
    }
  }

  /** The first character of a written value. */
  predicate Starts(f: Form, c: char)
  {
    match f
    case Literal(word) => c == 'n' || c == 't' || c == 'f'
    case Amount(_) => c == '-' || IsDigit(c)
    case Quote(_) => c == '"'
    case List(_, _) => c == '['
    case Record(_, _) => c == '{'
  }

  lemma {:induction false} FormStart(f: Form, s: string, i: nat)
    requires GoodForm(f) && At(s, i, |s|, FormText(f))
    ensures i < |s| && Starts(f, s[i]) && SkipWs(s, i) == i
  {
    var t := FormText(f);
    if f.Amount? && f.n.negative {
      assert t[0] == '-';
    } else if f.Amount? {
      assert t[0] == f.n.whole[0];
    } else if f.Literal? {
      assert t[0] == 'n' || t[0] == 't' || t[0] == 'f';
    }
    AtChar(s, i, |s|, t, 0);
  }

  /** A value may be looked for from any white space before it. */
  lemma {:induction false} ValueSkips(s: string, i: nat, j: nat)
    requires i <= |s| && j <= |s| && SkipWs(s, i) == SkipWs(s, j)
    ensures ValueAt(s, i) == ValueAt(s, j)
  {
    hide StringAt, WordAt, Number;
  }

  /** What follows a value ends a number. */
  predicate Ends(s: string, i: nat)
  {
    i == |s| || (i < |s| && s[i] as int in {9, 10, 13, 32, 44, 93, 125})
  }

  lemma {:induction false} EndsStop(s: string, i: nat)
    requires Ends(s, i)
    ensures Stops(s, i)
  {
  }

  /** A gap and then a delimiter. */
  lemma {:induction false} GapEnds(s: string, i: nat, g: string, c: char)
    requires At(s, i, |s|, g) && IsGap(g) && i + |g| < |s| && s[i + |g|] == c && c as int in {44, 93, 125}
    ensures Ends(s, i) && SkipWs(s, i) == i + |g|
  {
    GapSkipped(s, i, g);
    if g != "" { AtChar(s, i, |s|, g, 0); }
  }

  lemma {:induction false} LiteralBack(word: string, s: string, i: nat)
    requires word in ["null", "true", "false"] && At(s, i, |s|, word) && SkipWs(s, i) == i
    ensures ValueAt(s, i) == Got(if word == "null" then Null else Bool(word == "true"), i + |word|)
  {
    AtChar(s, i, |s|, word, 0);
    WordBack(s, i, word);
  }

  /** Every written value is read to its end, as what it stands for. */
  lemma {:induction false} FormBack(f: Form, s: string, i: nat) returns (v: Value)
    requires GoodForm(f) && At(s, i, |s|, FormText(f)) && Ends(s, i + |FormText(f)|)
    ensures FormMeans(f, v) && ValueAt(s, i) == Got(v, i + |FormText(f)|)
    decreases f, 3
  {
    FormStart(f, s, i);
    match f {
      case Literal(word) =>
        LiteralBack(word, s, i);
        v := if word == "null" then Null else Bool(word == "true");
      case Amount(n) =>
        EndsStop(s, i + |FormText(f)|);
        AmountBack(n, s, i);
        v := NumeralValue(n);
      case Quote(ps) =>
        var t := TextBack(ps, s, i);
        QuoteBack(s, i, t, i + |QuotedPieces(ps)|);
        v := Str(t);
      case List(inner, items) => v := ListBack(inner, items, s, i);
      case Record(inner, entries) => v := RecordBack(inner, entries, s, i);
    }
  }

  lemma {:induction false} AmountBack(n: Numeral, s: string, i: nat)
    requires GoodNumeral(n) && At(s, i, |s|, NumeralText(n)) && Stops(s, i + |NumeralText(n)|)
    ensures i <= |s| && ValueAt(s, i) == Got(NumeralValue(n), i + |NumeralText(n)|)
  {
    hide Number, At, NumeralText, NumeralValue, GoodNumeral, Stops;
    NumeralBack(n, s, i);
  }

  lemma {:induction false} QuoteBack(s: string, i: nat, t: string, next: nat)
    requires i < |s| && s[i] == '"' && StringAt(s, i) == Got(t, next)
    ensures ValueAt(s, i) == Got(Str(t), next)
  {
    hide StringAt;
  }

  lemma {:induction false} EmptyBrackets(s: string, i: nat, g: string, close: char)
    requires IsGap(g) && i < |s| && At(s, i + 1, |s|, g) && At(s, i + 1 + |g|, |s|, [close]) && close as int in {93, 125}
    ensures s[i] == '[' && close == ']' ==> ValueAt(s, i) == Got(Arr([]), i + |g| + 2)
    ensures s[i] == '{' && close == '}' ==> ValueAt(s, i) == Got(Obj([]), i + |g| + 2)
  {
    AtChar(s, i + 1 + |g|, |s|, [close], 0);
    GapEnds(s, i + 1, g, close);
  }

  lemma {:induction false} ListBack(inner: string, items: seq<Slot>, s: string, i: nat) returns (v: Value)
    requires GoodForm(List(inner, items)) && At(s, i, |s|, FormText(List(inner, items))) && SkipWs(s, i) == i
    ensures FormMeans(List(inner, items), v) && ValueAt(s, i) == Got(v, i + |FormText(List(inner, items))|)
    decreases items, 5
  {
    hide ValueAt, SlotTexts, Items, IsGap, At, SkipWs;
    var body := if items == [] then inner else SlotTexts(items);
    Brackets(s, i, "[", body, "]");
    if items == [] {
      EmptyBrackets(s, i, inner, ']');
      v := Arr([]);
    } else {
      var a := SlotsBack(items, [], s, i + 1);
      ArrayStep(s, i, SkipWs(s, i + 1));
      assert [] + a == a;
      v := Arr(a);
    }
  }

  /** The first item and its gaps, and what follows them. */
  lemma {:induction false} FirstSlot(items: seq<Slot>, s: string, i: nat)
    requires items != [] && GoodSlots(items) && At(s, i, |s|, SlotTexts(items)) && At(s, i + |SlotTexts(items)|, |s|, "]")
    ensures var x := items[0]; var p := i + |x.before|; var q := p + |FormText(x.form)|; var j := q + |x.after|;
      && At(s, p, |s|, FormText(x.form)) && SkipWs(s, i) == p < |s| && s[p] != ']' && SkipWs(s, p) == p && Ends(s, q)
      && SkipWs(s, q) == j < |s|
      && (if |items| == 1 then s[j] == ']' && j == i + |SlotTexts(items)|
          else s[j] == ',' && At(s, j + 1, |s|, SlotTexts(items[1..])) && j + 1 + |SlotTexts(items[1..])| == i + |SlotTexts(items)|)
  {
    var x := items[0];
    var p := i + |x.before|;
    var q := p + |FormText(x.form)|;
    hide FormText, At, IsGap, SkipWs, GoodForm;
    FirstPiece(s, i, SlotText(x), |items|, SlotTexts(items[1..]));
    AtSplit(s, i, |s|, x.before, FormText(x.form) + x.after);
    AtSplit(s, p, |s|, FormText(x.form), x.after);
    GapSkipped(s, i, x.before);
    FormStart(x.form, s, p);
    NotBracket(x.form, s[p]);
    if |items| == 1 { AtChar(s, i + |SlotTexts(items)|, |s|, "]", 0); }
    GapEnds(s, q, x.after, if |items| == 1 then ']' else ',');
  }

  lemma {:induction false} NotBracket(f: Form, c: char)
    requires Starts(f, c)
    ensures c != ']' && c != '}'
  {
  }

  lemma {:induction false} SlotsBack(items: seq<Slot>, done: seq<Value>, s: string, i: nat) returns (a: seq<Value>)
    requires items != [] && GoodSlots(items) && At(s, i, |s|, SlotTexts(items)) && At(s, i + |SlotTexts(items)|, |s|, "]")
    ensures SlotsMean(items, a) && SkipWs(s, i) < |s| && s[SkipWs(s, i)] != ']'
    ensures Items(s, SkipWs(s, i), done) == Got(Arr(done + a), i + |SlotTexts(items)| + 1)
    decreases items, 4
  {
    hide ValueAt, Items, FormText, SlotTexts, FormMeans, IsGap, At, SkipWs, Ends, GoodForm;
    FirstSlot(items, s, i);
    var x := items[0];
    var p := i + |x.before|;
    var q := p + |FormText(x.form)|;
    var v := FormBack(x.form, s, p);
    ItemStep(s, p, done, v, q, q + |x.after|);
    if |items| == 1 {
      a := [v];
    } else {
      var rest := SlotsBack(items[1..], done + [v], s, q + |x.after| + 1);
      a := [v] + rest;
      assert (done + [v]) + rest == done + a;
      forall k | 0 <= k < |items| ensures FormMeans(items[k].form, a[k]) { assert k > 0 ==> items[k] == items[1..][k - 1]; }
    }
  }

  lemma {:induction false} RecordBack(inner: string, entries: seq<Entry>, s: string, i: nat) returns (v: Value)
    requires GoodForm(Record(inner, entries)) && At(s, i, |s|, FormText(Record(inner, entries))) && SkipWs(s, i) == i
    ensures FormMeans(Record(inner, entries), v) && ValueAt(s, i) == Got(v, i + |FormText(Record(inner, entries))|)
    decreases entries, 5
  {
    hide ValueAt, EntryTexts, Members, IsGap, At, SkipWs, Kept, EntriesMean;
    var body := if entries == [] then inner else EntryTexts(entries);
    Brackets(s, i, "{", body, "}");
    NoEntries();
    if entries == [] {
      EmptyBrackets(s, i, inner, '}');
      v := Obj([]);
    } else {
      var ms := EntriesBack(entries, [], s, i + 1);
      ObjectStep(s, i, SkipWs(s, i + 1));
      assert [] + ms == ms;
      v := Obj(Kept(ms));
    }
  }

  lemma {:induction false} NoEntries()
    ensures EntriesMean([], []) && Kept([]) == []
  {
  }

  /** Where the parts of a member stand. */
  lemma {:induction false} EntryParts(e: Entry, s: string, i: nat, close: char) returns (p: nat, c: nat, d: nat, q: nat)
    requires IsGap(e.before) && IsGap(e.left) && IsGap(e.right) && IsGap(e.after) && GoodPieces(e.key) && GoodForm(e.form)
    requires At(s, i, |s|, EntryText(e)) && close as int in {44, 125}
    requires i + |EntryText(e)| < |s| && s[i + |EntryText(e)|] == close
    ensures SkipWs(s, i) == p < |s| && s[p] == '"' && SkipWs(s, p) == p && At(s, p, |s|, QuotedPieces(e.key))
    ensures c == p + |QuotedPieces(e.key)| + |e.left| < |s| && SkipWs(s, p + |QuotedPieces(e.key)|) == c && s[c] == ':'
    ensures At(s, d, |s|, FormText(e.form)) && SkipWs(s, c + 1) == d && SkipWs(s, d) == d
    ensures q == d + |FormText(e.form)| && Ends(s, q) && SkipWs(s, q) == i + |EntryText(e)|
  {
    var key, value := QuotedPieces(e.key), FormText(e.form);
    hide FormText, Pieces, At, IsGap, SkipWs, GoodForm, GoodPieces;
    p := i + |e.before|;
    AtSplit(s, i, |s|, e.before, key + (e.left + (":" + (e.right + (value + e.after)))));
    AtSplit(s, p, |s|, key, e.left + (":" + (e.right + (value + e.after))));
    AtSplit(s, p + |key|, |s|, e.left, ":" + (e.right + (value + e.after)));
    c := p + |key| + |e.left|;
    AtSplit(s, c, |s|, ":", e.right + (value + e.after));
    AtSplit(s, c + 1, |s|, e.right, value + e.after);
    d := c + 1 + |e.right|;
    AtSplit(s, d, |s|, value, e.after);
    q := d + |value|;
    AtChar(s, p, |s|, key, 0);
    AtChar(s, c, |s|, ":", 0);
    GapSkipped(s, i, e.before);
    GapSkipped(s, p + |key|, e.left);
    GapSkipped(s, c + 1, e.right);
    FormStart(e.form, s, d);
    Stays(s, p);
    Stays(s, c);
    GapEnds(s, q, e.after, close);
  }

  lemma {:induction false} Stays(s: string, i: nat)
    requires i < |s| && !IsSpace(s[i])
    ensures SkipWs(s, i) == i
  {
  }

  /** One member. */
  lemma {:induction false} EntryBack(e: Entry, done: seq<Member>, s: string, i: nat, close: char) returns (m: Member)
    requires IsGap(e.before) && IsGap(e.left) && IsGap(e.right) && IsGap(e.after) && GoodPieces(e.key) && GoodForm(e.form)
    requires At(s, i, |s|, EntryText(e)) && close as int in {44, 125}
    requires i + |EntryText(e)| < |s| && s[i + |EntryText(e)|] == close
    ensures PiecesMean(e.key, m.key) && FormMeans(e.form, m.value)
    ensures i <= |s| && SkipWs(s, i) < |s| && s[SkipWs(s, i)] == '"'
    ensures exists q: nat :: q <= |s| && SkipWs(s, q) == i + |EntryText(e)|
                   && MemberAt(s, SkipWs(s, i), done) == Got(Insert(done, m.key, m.value), q)
    decreases e, 4
  {
    hide ValueAt, MemberAt, StringAt, FormText, EntryText, FormMeans, PiecesMean, QuotedPieces, IsGap, At, SkipWs, Ends, GoodForm,
         GoodPieces;
    var p, c, d, q := EntryParts(e, s, i, close);
    var key := TextBack(e.key, s, p);
    var v := FormBack(e.form, s, d);
    MemberRead(s, p, done, key, p + |QuotedPieces(e.key)|, c, d, v, q);
    m := Member(key, v);
  }

  lemma {:induction false} MemberRead(s: string, i: nat, done: seq<Member>, key: string, k: nat, c: nat, d: nat, v: Value, q: nat)
    requires i <= |s| && SkipWs(s, i) == i && StringAt(s, i) == Got(key, k) && k <= |s|
    requires SkipWs(s, k) == c < |s| && s[c] == ':' && SkipWs(s, c + 1) == d && ValueAt(s, d) == Got(v, q)
    ensures MemberAt(s, i, done) == Got(Insert(done, key, v), q)
  {
    hide StringAt, ValueAt, Insert, SkipWs;
  }

  lemma {:induction false} FirstEntry(entries: seq<Entry>, s: string, i: nat)
    requires entries != [] && At(s, i, |s|, EntryTexts(entries)) && At(s, i + |EntryTexts(entries)|, |s|, "}")
    ensures At(s, i, |s|, EntryText(entries[0]))
    ensures var j := i + |EntryText(entries[0])|;
      && j < |s|
      && (if |entries| == 1 then s[j] == '}' && j == i + |EntryTexts(entries)|
          else s[j] == ',' && At(s, j + 1, |s|, EntryTexts(entries[1..])) && j + 1 + |EntryTexts(entries[1..])| == i + |EntryTexts(entries)|)
  {
    hide At, EntryText;
    FirstPiece(s, i, EntryText(entries[0]), |entries|, EntryTexts(entries[1..]));
    if |entries| == 1 { AtChar(s, i + |EntryTexts(entries)|, |s|, "}", 0); }
  }

  lemma {:induction false} EntriesBack(entries: seq<Entry>, done: seq<Member>, s: string, i: nat) returns (ms: seq<Member>)
    requires entries != [] && GoodEntries(entries)
    requires At(s, i, |s|, EntryTexts(entries)) && At(s, i + |EntryTexts(entries)|, |s|, "}")
    ensures EntriesMean(entries, ms) && i <= |s| && SkipWs(s, i) < |s| && s[SkipWs(s, i)] != '}'
    ensures Members(s, SkipWs(s, i), Kept(done)) == Got(Obj(Kept(done + ms)), i + |EntryTexts(entries)| + 1)
    decreases entries, 4
  {
    hide Members, MemberAt, FormMeans, PiecesMean, EntryText, EntryTexts, IsGap, At, SkipWs, GoodForm, GoodPieces, Kept;
    FirstEntry(entries, s, i);
    var e := entries[0];
    var j := i + |EntryText(e)|;
    var m := EntryBack(e, Kept(done), s, i, if |entries| == 1 then '}' else ',');
    var q: nat :| q <= |s| && SkipWs(s, q) == j && MemberAt(s, SkipWs(s, i), Kept(done)) == Got(Insert(Kept(done), m.key, m.value), q);
    KeptSnoc(done, m);
    MembersStep(s, SkipWs(s, i), Kept(done), Kept(done + [m]), q, j);
    if |entries| == 1 {
      ms := [m];
    } else {
      var rest := EntriesBack(entries[1..], done + [m], s, j + 1);
      SkipTwice(s, j + 1);
      MembersSkip(s, j + 1, Kept(done + [m]));
      ms := [m] + rest;
      assert (done + [m]) + rest == done + ms;
      forall k | 0 <= k < |entries| ensures PiecesMean(entries[k].key, ms[k].key) && FormMeans(entries[k].form, ms[k].value) {
        assert k > 0 ==> entries[k] == entries[1..][k - 1];
      }
    }
  }

  lemma {:induction false} KeptSnoc(done: seq<Member>, m: Member)
    ensures Kept(done + [m]) == Insert(Kept(done), m.key, m.value)
  {
    assert (done + [m])[..|done|] == done;
  }

  /** Every text of the grammar, with white space around it, is parsed to what it
      stands for. */
  lemma {:induction false} GrammarIsParsed(f: Form, lead: string, trail: string) returns (v: Value)
    requires GoodForm(f) && IsGap(lead) && IsGap(trail)
    ensures var s := lead + (FormText(f) + trail); FormMeans(f, v) && Document(s) == Got(v, |s|)
  {
    hide ValueAt, FormMeans, GoodForm, At, IsGap, FormText;
    var s := lead + (FormText(f) + trail);
    AtWhole(s);
    AtSplit(s, 0, |s|, lead, FormText(f) + trail);
    AtSplit(s, |lead|, |s|, FormText(f), trail);
    GapSkipped(s, 0, lead);
    FormStart(f, s, |lead|);
    var q := |lead| + |FormText(f)|;
    GapSkipped(s, q, trail);
    EndOfText(s, q, trail);
    v := FormBack(f, s, |lead|);
    assert SkipWs(s, |s|) == |s|;
  }

  lemma {:induction false} EndOfText(s: string, i: nat, g: string)
    requires At(s, i, |s|, g) && IsGap(g) && i + |g| == |s|
    ensures Ends(s, i)
  {
    if g != "" { AtChar(s, i, |s|, g, 0); }
  }
}

/** Requests as they are written, and what parsing gives for every one of them:
    stated from the parts that a client puts together. */
module HttpRequests {
  import opened Base
  import opened HttpParser
  import Analyzer
  import Json
  import opened JsonGrammar
  import JsonParser
  import JsonRoundTrip

  /** A header line: blanks may stand around the value. */
  datatype Header = Header(name: string, before: string, value: string, after: string)

  /** The parts of a request before its body. */
  datatype Wire = Wire(verb: string, target: string, version: string, headers: seq<Header>)

  predicate Blanks(s: string)
  {
    forall k :: 0 <= k < |s| ==> s[k] == ' ' || s[k] == '\t'
  }

  predicate Trimmed(s: string)
  {
    s == "" || (!Blanks(s[..1]) && !Blanks(s[|s| - 1..]))
  }

  predicate GoodHeader(h: Header)
  {
    && ':' !in h.name && '\r' !in h.name && '\r' !in h.before && '\r' !in h.value && '\r' !in h.after
    && Blanks(h.before) && Blanks(h.after) && Trimmed(h.value)
  }

  /** No carriage return anywhere, no blank in verb and target. */
  predicate Good(w: Wire)
  {
    && ' ' !in w.verb && ' ' !in w.target && '\r' !in w.verb && '\r' !in w.target && '\r' !in w.version
    && forall k :: 0 <= k < |w.headers| ==> GoodHeader(w.headers[k])
  }

  function Line(w: Wire): string
  {
    w.verb + (" " + (w.target + (" " + w.version)))
  }

  function HeaderText(h: Header): string
  {
    h.name + (":" + (h.before + (h.value + h.after)))
  }

  function HeaderTexts(hs: seq<Header>): string
  {
    if hs == [] then "" else HeaderText(hs[0]) + ("\r\n" + HeaderTexts(hs[1..]))
  }

  /** The request line, the header lines and a blank line. */
  function HeadText(w: Wire): string
  {
    Line(w) + ("\r\n" + (HeaderTexts(w.headers) + "\r\n"))
  }

  // ----- what the parts mean -----

  /** The value of the last header whose name is key up to letter case. */
  function ValueOf(hs: seq<Header>, key: string): Option<string>
  {
    if hs == [] then None
    else if Analyzer.Folded(hs[|hs| - 1].name, key) then Some(hs[|hs| - 1].value)
    else ValueOf(hs[..|hs| - 1], key)
  }

  /** The target is a path, or a path and a query with the first question mark
      between them. */
  predicate Splits(target: string, path: string, query: string)
  {
    '?' !in path && (if '?' in target then target == path + ("?" + query) else path == target && query == "")
  }

  /** The map has the last value of every header, under its small letters. */
  ghost predicate Holds(m: map<string, string>, hs: seq<Header>)
  {
    forall key :: match ValueOf(hs, key) case None => key !in m case Some(v) => key in m && m[key] == v
  }

  // ----- finding the parts -----

  lemma {:induction false} BreakAt(s: string, from: nat, t: string)
    requires At(s, from, |s|, t) && '\r' !in t && At(s, from + |t|, |s|, "\r\n")
    ensures CrlfFrom(s, from) == Some(from + |t|) && CrlfAt(s, from + |t|)
    ensures forall k :: from <= k < from + |t| ==> s[k] != '\r'
  {
    AtChar(s, from + |t|, |s|, "\r\n", 0);
    AtChar(s, from + |t|, |s|, "\r\n", 1);
    forall k | from <= k < from + |t| ensures s[k] != '\r' {
      AtChar(s, from, |s|, t, k - from);
      assert t[k - from] in t;
    }
    var stop := from + |t|;
    assert CrlfAt(s, stop);
    assert stop < |s| && (forall k :: from <= k < stop ==> !CrlfAt(s, k));
    var found := CrlfFrom(s, from);
    assert found.Some?;
  }

  lemma {:induction false} HeaderHasNoBreak(h: Header)
    requires GoodHeader(h)
    ensures '\r' !in HeaderText(h) && HeaderText(h) != ""
  {
  }

  lemma {:induction false} LineHasNoBreak(w: Wire)
    requires Good(w)
    ensures '\r' !in Line(w)
  {
  }

  /** After a line break at p - 2, the header lines and their blank line from p:
      the head does not end before it. */
  lemma {:induction false} NoEndBefore(hs: seq<Header>, s: string, p: nat)
    requires p >= 2 && CrlfAt(s, p - 2) && At(s, p, |s|, HeaderTexts(hs) + "\r\n")
    requires forall k :: 0 <= k < |hs| ==> GoodHeader(hs[k])
    ensures HeadEndsAt(s, p + |HeaderTexts(hs)| - 2)
    ensures forall k :: p - 2 <= k < p + |HeaderTexts(hs)| - 2 ==> !HeadEndsAt(s, k)
    decreases hs
  {
    if hs == [] {
      assert HeaderTexts(hs) == "" && "" + "\r\n" == "\r\n";
      AtChar(s, p, |s|, "\r\n", 0);
      AtChar(s, p, |s|, "\r\n", 1);
    } else {
      hide HeaderText, HeaderTexts, GoodHeader, At, CrlfFrom;
      var t := HeaderText(hs[0]);
      FirstHeader(hs, s, p);
      NoEndBefore(hs[1..], s, p + |t| + 2);
      assert s[p] != '\r';
      forall k | p - 2 <= k < p + |HeaderTexts(hs)| - 2 ensures !HeadEndsAt(s, k) {
        if k == p - 2 { assert !CrlfAt(s, p); } else if k < p + |t| { assert k == p - 1 || s[k] != '\r'; }
      }
    }
  }

  /** The blank line of a written head is found where it was written. */
  lemma {:induction false} EndOfHead(w: Wire, rest: string)
    requires Good(w)
    ensures var s := HeadText(w) + rest;
      && HeadEnd(s, 0) == Some(|HeadText(w)| - 4) && s[..|HeadText(w)|] == HeadText(w)
      && CrlfFrom(HeadText(w), 0) == Some(|Line(w)|)
      && At(HeadText(w), |Line(w)| + 2, |HeadText(w)|, HeaderTexts(w.headers) + "\r\n")
  {
    hide HeadEndsAt, Line, HeaderTexts, HeadEnd;
    var h, l, t := HeadText(w), Line(w), HeaderTexts(w.headers);
    AtWhole(h);
    AtSplit(h, 0, |h|, l, "\r\n" + (t + "\r\n"));
    AtSplit(h, |l|, |h|, "\r\n", t + "\r\n");
    LineHasNoBreak(w);
    BreakAt(h, 0, l);
    NoEndBefore(w.headers, h, |l| + 2);
    FirstEnd(h, |l|, |h| - 4);
    HeadEndStays(h, rest, 0);
  }

  lemma {:induction false} FirstEnd(s: string, l: nat, end: nat)
    requires HeadEndsAt(s, end) && (forall k :: 0 <= k < l && k < |s| ==> s[k] != '\r') && forall k :: l <= k < end ==> !HeadEndsAt(s, k)
    ensures HeadEnd(s, 0) == Some(end)
  {
    var found := HeadEnd(s, 0);
    assert HeadEndsAt(s, end);
  }

  // ----- the request line -----

  lemma {:induction false} FirstChar(s: string, c: char, from: nat, i: nat)
    requires from <= i < |s| && s[i] == c && forall k :: from <= k < i ==> s[k] != c
    ensures FindChar(s, c, from) == Some(i)
  {
  }

  lemma {:induction false} NoChar(s: string, c: char)
    requires c !in s
    ensures FindChar(s, c, 0) == None
  {
  }

  lemma {:induction false} LineParts(w: Wire)
    requires Good(w)
    ensures var l, a, b := Line(w), |w.verb|, |w.verb| + 1 + |w.target|;
      && FindChar(l, ' ', 0) == Some(a) && FindChar(l, ' ', a + 1) == Some(b)
      && l[..a] == w.verb && l[a + 1..b] == w.target && l[b + 1..] == w.version
  {
    var l, a, b := Line(w), |w.verb|, |w.verb| + 1 + |w.target|;
    forall k | 0 <= k < a ensures l[k] != ' ' { assert l[k] == w.verb[k]; }
    forall k | a + 1 <= k < b ensures l[k] != ' ' { assert l[k] == w.target[k - a - 1]; }
    assert l[a] == ' ' && l[b] == ' ';
    FirstChar(l, ' ', 0, a);
    FirstChar(l, ' ', a + 1, b);
  }

  /** Verb, target and version, and the target split at its first question
      mark; 505 for any other version. */
  lemma {:induction false} LineBack(w: Wire)
    requires Good(w)
    ensures var r := RequestLine(Line(w));
      if w.version == "HTTP/1.1" || w.version == "HTTP/1.0" then
        && r.Got? && r.value.verb == w.verb && r.value.target == w.target && r.value.version == w.version
        && Splits(w.target, r.value.path, r.value.query)
      else r.Bad? && r.status == 505
  {
    hide FindChar, Line, Splits;
    LineParts(w);
    TargetParts(w.target);
  }

  lemma {:induction false} TargetParts(target: string)
    ensures var mark := FindChar(target, '?', 0);
      Splits(target, if mark.None? then target else target[..mark.value], if mark.None? then "" else target[mark.value + 1..])
  {
    hide FindChar;
    var mark := FindChar(target, '?', 0);
    if mark.Some? {
      var m := mark.value;
      assert target[m] in target;
      assert target == target[..m] + ("?" + target[m + 1..]);
    }
  }

  // ----- the headers -----

  lemma {:induction false} LeftTrimmed(pad: string, v: string)
    requires Blanks(pad) && (v == "" || !Blanks(v[..1]))
    ensures TrimLeft(pad + v) == v
  {
    if pad == "" {
      assert pad + v == v;
    } else {
      assert (pad + v)[1..] == pad[1..] + v;
      LeftTrimmed(pad[1..], v);
    }
  }

  lemma {:induction false} RightTrimmed(v: string, pad: string)
    requires Blanks(pad) && (v == "" || !Blanks(v[|v| - 1..]))
    ensures TrimRight(v + pad) == v
  {
    if pad == "" {
      assert v + pad == v;
    } else {
      var n := |pad| - 1;
      assert (v + pad)[..|v| + n] == v + pad[..n];
      RightTrimmed(v, pad[..n]);
    }
  }

  lemma {:induction false} ValueTrimmed(h: Header)
    requires GoodHeader(h)
    ensures TrimRight(TrimLeft(h.before + (h.value + h.after))) == h.value
  {
    if h.value == "" {
      assert h.before + (h.value + h.after) == (h.before + h.after) + "";
      LeftTrimmed(h.before + h.after, "");
    } else {
      assert (h.value + h.after)[..1] == h.value[..1];
      LeftTrimmed(h.before, h.value + h.after);
      RightTrimmed(h.value, h.after);
    }
  }

  /** One header line puts its value under the small letters of its name. */
  lemma {:induction false} HeaderBack(h: Header, m: map<string, string>)
    requires GoodHeader(h)
    ensures HeaderLine(HeaderText(h), m) == Part.Got(m[Analyzer.Lower(h.name) := h.value])
  {
    hide TrimLeft, TrimRight, FindChar;
    var l, n := HeaderText(h), |h.name|;
    forall k | 0 <= k < n ensures l[k] != ':' { assert l[k] == h.name[k]; }
    assert l[n] == ':';
    FirstChar(l, ':', 0, n);
    assert l[..n] == h.name && l[n + 1..] == h.before + (h.value + h.after);
    ValueTrimmed(h);
  }

  function Collected(m: map<string, string>, hs: seq<Header>): map<string, string>
  {
    if hs == [] then m
    else Collected(m, hs[..|hs| - 1])[Analyzer.Lower(hs[|hs| - 1].name) := hs[|hs| - 1].value]
  }

  lemma {:induction false} CollectedFirst(m: map<string, string>, hs: seq<Header>)
    requires hs != []
    ensures Collected(m, hs) == Collected(m[Analyzer.Lower(hs[0].name) := hs[0].value], hs[1..])
  {
    var n := |hs| - 1;
    if n == 0 {
      assert hs[..0] == [] && hs[1..] == [];
    } else {
      CollectedFirst(m, hs[..n]);
      assert hs[..n][1..] == hs[1..][..n - 1];
    }
  }

  /** The first of several header lines, and where the others stand. */
  lemma {:induction false} FirstHeader(hs: seq<Header>, s: string, p: nat)
    requires hs != [] && GoodHeader(hs[0]) && At(s, p, |s|, HeaderTexts(hs) + "\r\n")
    ensures var t := HeaderText(hs[0]);
      && t != "" && |HeaderTexts(hs)| == |t| + 2 + |HeaderTexts(hs[1..])|
      && p + |t| + 2 <= |s| && s[p..p + |t|] == t && CrlfFrom(s, p) == Some(p + |t|) && CrlfAt(s, p + |t|)
      && (forall k :: p <= k < p + |t| ==> s[k] != '\r') && At(s, p + |t| + 2, |s|, HeaderTexts(hs[1..]) + "\r\n")
  {
    var t, rest := HeaderText(hs[0]), HeaderTexts(hs[1..]);
    hide HeaderText, GoodHeader, At, CrlfFrom;
    assert (t + ("\r\n" + rest)) + "\r\n" == t + ("\r\n" + (rest + "\r\n"));
    AtSplit(s, p, |s|, t, "\r\n" + (rest + "\r\n"));
    AtSplit(s, p + |t|, |s|, "\r\n", rest + "\r\n");
    AtSlice(s, p, |s|, t);
    HeaderHasNoBreak(hs[0]);
    BreakAt(s, p, t);
  }

  lemma {:induction false} LineStep(s: string, p: nat, stop: nat, end: nat, m: map<string, string>, next: map<string, string>)
    requires p < end && p <= stop <= end && stop + 2 <= |s| && CrlfFrom(s, p) == Some(stop)
    requires HeaderLine(s[p..stop], m) == Part.Got(next)
    ensures HeaderLines(s, p, end, m) == HeaderLines(s, stop + 2, end, next)
  {
    hide HeaderLine, CrlfFrom;
  }

  lemma {:induction false} HeadersBack(hs: seq<Header>, s: string, p: nat, end: nat, m: map<string, string>)
    requires At(s, p, |s|, HeaderTexts(hs) + "\r\n") && p + |HeaderTexts(hs)| == end + 2
    requires forall k :: 0 <= k < |hs| ==> GoodHeader(hs[k])
    ensures p <= |s| && HeaderLines(s, p, end, m) == Part.Got(Collected(m, hs))
    decreases hs
  {
    if hs != [] {
      hide HeaderText, HeaderTexts, GoodHeader, CrlfFrom, HeaderLine, At, Collected, HeaderLines;
      var t, next := HeaderText(hs[0]), m[Analyzer.Lower(hs[0].name) := hs[0].value];
      FirstHeader(hs, s, p);
      HeaderBack(hs[0], m);
      CollectedFirst(m, hs);
      LineStep(s, p, p + |t|, end, m, next);
      HeadersBack(hs[1..], s, p + |t| + 2, end, next);
    }
  }

  lemma {:induction false} CollectedHolds(hs: seq<Header>)
    ensures Holds(Collected(map[], hs), hs)
  {
    if hs != [] {
      var n := |hs| - 1;
      CollectedHolds(hs[..n]);
      forall key ensures match ValueOf(hs, key)
        case None => key !in Collected(map[], hs)
        case Some(v) => key in Collected(map[], hs) && Collected(map[], hs)[key] == v
      {
        Analyzer.FoldedIsLower(hs[n].name, key);
      }
    }
  }

  // ----- the length of the body -----

  lemma {:induction false} LengthIs(t: string)
    ensures Length(t) == if Digits(t) && Horner(t, 0) < U64 then Some(Horner(t, 0)) else None
  {
    if Digits(t) { HornerIs(t); }
  }

  /** A number in decimal notation. */
  lemma {:induction false} DecimalIs(n: nat)
    ensures Digits(Json.Decimal(n)) && Horner(Json.Decimal(n), 0) == n
  {
    JsonRoundTrip.DecimalDigits(n);
    HornerIs(Json.Decimal(n));
  }

  // ----- every written request -----

  function Body(w: Wire): Option<string> { ValueOf(w.headers, "content-length") }

  /** The length that the head announces, if it announces a number below 2^64. */
  function Announced(w: Wire): Option<nat>
  {
    match Body(w)
    case None => Some(0)
    case Some(t) => if Digits(t) && Horner(t, 0) < U64 then Some(Horner(t, 0)) else None
  }

  /** The request line is short enough and names a known version. */
  predicate LineAccepted(w: Wire, limits: Limits)
  {
    |Line(w)| <= limits.maxRequestLine && (w.version == "HTTP/1.1" || w.version == "HTTP/1.0")
  }

  /** r is the request that was written, with that body. */
  ghost predicate IsRequest(r: Request, w: Wire, body: string)
  {
    && r.verb == w.verb && r.target == w.target && r.version == w.version && r.body == body
    && Splits(w.target, r.path, r.query) && Holds(r.headers, w.headers)
  }

  lemma {:induction false} LengthOfBody(w: Wire, m: map<string, string>, limits: Limits)
    requires Holds(m, w.headers)
    ensures var r := BodyLength(m, limits);
      match Announced(w)
      case None => r.Bad? && r.status == 400
      case Some(n) =>
        if Body(w).Some? && n > limits.maxBody then r.Bad? && r.status == 413
        else if ValueOf(w.headers, "transfer-encoding").Some? then r.Bad? && r.status == 411
        else r == Part.Got(n)
  {
    hide Length, Digits, Horner, ValueOf;
    var n := ValueOf(w.headers, "content-length");
    assert n.Some? <==> "content-length" in m;
    assert ValueOf(w.headers, "transfer-encoding").Some? <==> "transfer-encoding" in m;
    if n.Some? { LengthIs(n.value); }
  }

  lemma {:induction false} HeadBack(w: Wire, limits: Limits)
    requires Good(w)
    ensures var end := |HeadText(w)| - 4;
      && end >= 0
      && var r := Head(HeadText(w), end, limits);
         if |Line(w)| > limits.maxRequestLine then r.Bad? && r.status == 414
         else if !LineAccepted(w, limits) then r.Bad? && r.status == 505
         else match Announced(w)
           case None => r.Bad? && r.status == 400
           case Some(n) =>
             if Body(w).Some? && n > limits.maxBody then r.Bad? && r.status == 413
             else if ValueOf(w.headers, "transfer-encoding").Some? then r.Bad? && r.status == 411
             else r.Got? && r.value.1 == n && IsRequest(r.value.0.(body := ""), w, "")
  {
    hide RequestLine, HeaderLines, BodyLength, Announced, Holds, Line, HeaderTexts, HeadText, Splits, Collected, CrlfFrom, HeadEnd,
         At, ValueOf, Body, GoodHeader;
    EndOfHead(w, "");
    LineBack(w);
    var s := HeadText(w);
    HeadSizes(w);
    HeadersBack(w.headers, s, |Line(w)| + 2, |s| - 4, map[]);
    CollectedHolds(w.headers);
    LengthOfBody(w, Collected(map[], w.headers), limits);
  }

  lemma {:induction false} HeadSizes(w: Wire)
    ensures |HeadText(w)| == |Line(w)| + |HeaderTexts(w.headers)| + 4 && HeadText(w)[..|Line(w)|] == Line(w)
  {
    hide Line, HeaderTexts;
  }

  /** What is answered to every written head, whatever bytes follow it. */
  lemma {:induction false} Answers(w: Wire, rest: string, limits: Limits)
    requires Good(w)
    ensures var r := TryParse(HeadText(w) + rest, limits);
      if |Line(w)| > limits.maxRequestLine then r.Failed? && r.status == 414
      else if !LineAccepted(w, limits) then r.Failed? && r.status == 505
      else match Announced(w)
        case None => r.Failed? && r.status == 400
        case Some(n) =>
          if Body(w).Some? && n > limits.maxBody then r.Failed? && r.status == 413
          else if ValueOf(w.headers, "transfer-encoding").Some? then r.Failed? && r.status == 411
          else if |rest| < n then r == NeedMore
          else r.Complete? && r.consumed == |HeadText(w)| + n && IsRequest(r.request, w, rest[..n])
  {
    hide HeadText, HeadEnd, Head, Holds, Splits, Announced, LineAccepted, Line, Body, ValueOf, CrlfFrom, At, GoodHeader, HeaderTexts;
    EndOfHead(w, rest);
    HeadBack(w, limits);
    var s, h := HeadText(w) + rest, |HeadText(w)|;
    assert |s| - h == |rest|;
    match Announced(w)
    case None =>
    case Some(n) => if n <= |rest| { assert s[h..h + n] == rest[..n]; }
  }

  /** The head with a Content-Length for n bytes. */
  function WithLength(w: Wire, n: nat): Wire
  {
    w.(headers := w.headers + [Header("Content-Length", " ", Json.Decimal(n), "")])
  }

  lemma {:induction false} LengthIsGood(w: Wire, n: nat)
    requires Good(w)
    ensures Good(WithLength(w, n))
  {
    hide GoodHeader, Json.Decimal;
    var h := Header("Content-Length", " ", Json.Decimal(n), "");
    LengthHeader(n);
    var hs := WithLength(w, n).headers;
    forall k | 0 <= k < |hs| ensures GoodHeader(hs[k]) {
      if k < |w.headers| { assert hs[k] == w.headers[k]; } else { assert hs[k] == h; }
    }
  }

  lemma {:induction false} LengthWritten(w: Wire, n: nat)
    requires n < U64
    ensures var full := WithLength(w, n);
      Announced(full) == Some(n) && ValueOf(full.headers, "transfer-encoding") == ValueOf(w.headers, "transfer-encoding")
  {
    hide Horner, Digits, ValueOf, Analyzer.Folded, Json.Decimal;
    DecimalIs(n);
    LengthName();
    var h := Header("Content-Length", " ", Json.Decimal(n), "");
    OneMoreHeader(w.headers, h, "content-length");
    OneMoreHeader(w.headers, h, "transfer-encoding");
  }

  /** Writing a request with a Content-Length and parsing it: for every body
      within the limit, and whatever follows, that request comes back, with that
      body; its bytes are consumed and no more. */
  lemma {:induction false} RequestBack(w: Wire, body: string, rest: string, limits: Limits)
    requires Good(w) && ValueOf(w.headers, "transfer-encoding") == None
    requires LineAccepted(w, limits) && |body| <= limits.maxBody && |body| < U64
    ensures var full := WithLength(w, |body|);
      var r := TryParse(HeadText(full) + (body + rest), limits);
      r.Complete? && r.consumed == |HeadText(full) + body| && IsRequest(r.request, full, body)
  {
    hide Good, HeadText, TryParse, IsRequest, WithLength, Line, LineAccepted, Announced, ValueOf;
    LengthIsGood(w, |body|);
    LengthWritten(w, |body|);
    SameHeadLine(w, |body|, limits);
    Answers(WithLength(w, |body|), body + rest, limits);
    assert (body + rest)[..|body|] == body;
  }

  lemma {:induction false} SameHeadLine(w: Wire, n: nat, limits: Limits)
    ensures Line(WithLength(w, n)) == Line(w)
    ensures LineAccepted(WithLength(w, n), limits) == LineAccepted(w, limits)
    ensures LineAccepted(w, limits) ==> |Line(w)| <= limits.maxRequestLine
  {
  }

  lemma {:induction false} OneMoreHeader(hs: seq<Header>, h: Header, key: string)
    ensures ValueOf(hs + [h], key) == if Analyzer.Folded(h.name, key) then Some(h.value) else ValueOf(hs, key)
  {
    assert (hs + [h])[..|hs|] == hs;
  }

  lemma {:induction false} LengthHeader(n: nat)
    ensures GoodHeader(Header("Content-Length", " ", Json.Decimal(n), ""))
    ensures Analyzer.Folded("Content-Length", "content-length") && !Analyzer.Folded("Content-Length", "transfer-encoding")
  {
    DecimalIs(n);
    var t := Json.Decimal(n);
    hide Json.Decimal, Horner;
    assert t[..1][0] == t[0] && t[|t| - 1..][0] == t[|t| - 1];
    assert '\r' !in t;
    LengthName();
  }

  lemma {:induction false} LengthName()
    ensures ':' !in "Content-Length" && '\r' !in "Content-Length"
    ensures Analyzer.Folded("Content-Length", "content-length") && !Analyzer.Folded("Content-Length", "transfer-encoding")
  {
    var a, b := "Content-Length", "content-length";
    assert |a| == |b| == 14 && |"transfer-encoding"| == 17;
    assert a[0] == 'C' && a[1] == 'o' && a[2] == 'n' && a[3] == 't' && a[4] == 'e' && a[5] == 'n' && a[6] == 't' && a[7] == '-'
        && a[8] == 'L' && a[9] == 'e' && a[10] == 'n' && a[11] == 'g' && a[12] == 't' && a[13] == 'h';
    assert b[0] == 'c' && b[1] == 'o' && b[2] == 'n' && b[3] == 't' && b[4] == 'e' && b[5] == 'n' && b[6] == 't' && b[7] == '-'
        && b[8] == 'l' && b[9] == 'e' && b[10] == 'n' && b[11] == 'g' && b[12] == 't' && b[13] == 'h';
  }

  // ----- every buffer -----

  /** 414 exactly when there is a whole head whose first line break comes after
      the limit. */
  lemma {:induction false} TooLongLine(buf: string, limits: Limits)
    ensures var r := TryParse(buf, limits);
      (r.Failed? && r.status == 414) <==>
      HeadEnd(buf, 0).Some? && forall k :: 0 <= k <= limits.maxRequestLine ==> !CrlfAt(buf, k)
  {
    hide HeadEnd, CrlfFrom, Head;
    var end := HeadEnd(buf, 0);
    if end.Some? {
      assert HeadEndsAt(buf, end.value);
      SameCrlf(buf, 0, end.value);
      Statuses(buf[..end.value + 4], end.value, limits);
      var first := CrlfFrom(buf, 0).value;
      assert CrlfAt(buf, first);
    }
  }

  lemma {:induction false} Statuses(head: string, end: nat, limits: Limits)
    requires CrlfFrom(head, 0).Some? && CrlfFrom(head, 0).value <= end
    ensures var r := Head(head, end, limits); r.Bad? && r.status == 414 <==> CrlfFrom(head, 0).value > limits.maxRequestLine
  {
    hide CrlfFrom, RequestLine, HeaderLines, BodyLength;
    var first := CrlfFrom(head, 0).value;
    if first <= |head| {
      LineStatus(head[..first]);
      if first + 2 <= |head| { HeaderStatus(head, first + 2, end, map[]); }
    }
    forall m: map<string, string> ensures BodyLength(m, limits).Bad? ==> BodyLength(m, limits).status != 414 { BodyStatus(m, limits); }
  }

  lemma {:induction false} LineStatus(l: string)
    ensures RequestLine(l).Bad? ==> RequestLine(l).status in {400, 505}
  {
  }

  lemma {:induction false} HeaderStatus(s: string, p: nat, end: nat, m: map<string, string>)
    requires p <= |s|
    ensures HeaderLines(s, p, end, m).Bad? ==> HeaderLines(s, p, end, m).status == 400
    decreases |s| - p
  {
    hide CrlfFrom;
    if p < end {
      var stop := CrlfFrom(s, p);
      if stop.Some? && p <= stop.value <= end && stop.value + 2 <= |s| {
        var more := HeaderLine(s[p..stop.value], m);
        if more.Got? { HeaderStatus(s, stop.value + 2, end, more.value); }
      }
    }
  }

  lemma {:induction false} BodyStatus(m: map<string, string>, limits: Limits)
    ensures BodyLength(m, limits).Bad? ==> BodyLength(m, limits).status in {400, 411, 413}
  {
  }
}

/** HTTP/1.1 request framing: what a parse attempt makes of the bytes read so
    far, as functions and as the code that computes them. */
module HttpParser {
  import opened Base
  import Analyzer
  import JsonParser

  datatype Limits = Limits(maxRequestLine: nat, maxHeadersTotal: nat, maxBody: nat)

  datatype Request = Request(
    verb: string, target: string, path: string, query: string, version: string, headers: map<string, string>, body: string)

  /** ParseResult together with the request it fills in. */
  datatype Attempt = NeedMore | Complete(request: Request, consumed: nat) | Failed(status: int, message: string)

  // ----- searching -----

  /** std::string_view::find of one character. */
  function FindChar(s: string, c: char, from: nat): (r: Option<nat>)
    requires from <= |s|
    ensures r.Some? ==> from <= r.value < |s| && s[r.value] == c
    ensures r.Some? ==> forall k :: from <= k < r.value ==> s[k] != c
    ensures r.None? ==> forall k :: from <= k < |s| ==> s[k] != c
    decreases |s| - from
  {
    if from == |s| then None else if s[from] == c then Some(from) else FindChar(s, c, from + 1)
  }

  predicate CrlfAt(s: string, i: nat)
  {
    i + 1 < |s| && s[i] == '\r' && s[i + 1] == '\n'
  }

  function CrlfFrom(s: string, from: nat): (r: Option<nat>)
    requires from <= |s|
    ensures r.Some? ==> from <= r.value && CrlfAt(s, r.value)
    ensures r.None? ==> forall k :: from <= k < |s| ==> !CrlfAt(s, k)
    ensures r.Some? ==> forall k :: from <= k < r.value ==> !CrlfAt(s, k)
    decreases |s| - from
  {
    if from == |s| then None else if CrlfAt(s, from) then Some(from) else CrlfFrom(s, from + 1)
  }

  /** FindCrlf. */
  method FindCrlf(s: string, start: nat) returns (r: Option<nat>)
    requires start <= |s|
    ensures r == CrlfFrom(s, start)
  {
    var from := start;
    while from < |s|
      invariant start <= from <= |s| && CrlfFrom(s, from) == CrlfFrom(s, start)
    {
      var pos := FindChar(s, '\r', from);
      if pos.None? {
        NoCrlf(s, from, |s|);
        return None;
      }
      NoCrlf(s, from, pos.value);
      if pos.value + 1 < |s| && s[pos.value + 1] == '\n' { return pos; }
      from := pos.value + 1;
    }
    return None;
  }

  lemma {:induction false} NoCrlf(s: string, from: nat, stop: nat)
    requires from <= stop <= |s| && forall k :: from <= k < stop ==> s[k] != '\r'
    ensures CrlfFrom(s, from) == CrlfFrom(s, stop)
    decreases stop - from
  {
    if from < stop { NoCrlf(s, from + 1, stop); }
  }

  predicate HeadEndsAt(s: string, i: nat)
  {
    CrlfAt(s, i) && CrlfAt(s, i + 2)
  }

  /** The first blank line: where find("\r\n\r\n") finds it. */
  function HeadEnd(s: string, from: nat): (r: Option<nat>)
    requires from <= |s|
    ensures r.Some? ==> from <= r.value && HeadEndsAt(s, r.value)
    ensures r.Some? ==> forall k :: from <= k < r.value ==> !HeadEndsAt(s, k)
    ensures r.None? ==> forall k :: from <= k < |s| ==> !HeadEndsAt(s, k)
    decreases |s| - from
  {
    if from == |s| then None else if HeadEndsAt(s, from) then Some(from) else HeadEnd(s, from + 1)
  }

  // ----- the head -----

  /** A part of the head, or the error to answer with. */
  datatype Part<+T> = Got(value: T) | Bad(status: int, message: string)
  {
    predicate IsFailure() { Bad? }

    function PropagateFailure<U>(): Part<U>
      requires Bad?
    {
      Bad(status, message)
    }

    function Extract(): T
      requires Got?
    {
      value
    }
  }

  function TrimLeft(s: string): string
  {
    if s != "" && (s[0] == ' ' || s[0] == '\t') then TrimLeft(s[1..]) else s
  }

  function TrimRight(s: string): string
  {
    if s != "" && (s[|s| - 1] == ' ' || s[|s| - 1] == '\t') then TrimRight(s[..|s| - 1]) else s
  }

  /** The request line up to its end. */
  function RequestLine(rl: string): Part<Request>
  {
    var sp1 := FindChar(rl, ' ', 0);
    if sp1.None? then Bad(400, "malformed request line")
    else
      var sp2 := FindChar(rl, ' ', sp1.value + 1);
      if sp2.None? then Bad(400, "malformed request line")
      else
        var target, version := rl[sp1.value + 1..sp2.value], rl[sp2.value + 1..];
        if version != "HTTP/1.1" && version != "HTTP/1.0" then Bad(505, "unsupported HTTP version: " + version)
        else
          var mark := FindChar(target, '?', 0);
          Got(Request(rl[..sp1.value], target, if mark.None? then target else target[..mark.value],
                      if mark.None? then "" else target[mark.value + 1..], version, map[], ""))
  }

  /** One header line put into the headers; an empty line is skipped. */
  function HeaderLine(line: string, headers: map<string, string>): Part<map<string, string>>
  {
    if line == "" then Got(headers)
    else
      var colon := FindChar(line, ':', 0);
      if colon.None? then Bad(400, "missing ':' in header")
      else Got(headers[Analyzer.Lower(line[..colon.value]) := TrimRight(TrimLeft(line[colon.value + 1..]))])
  }

  /** The header lines from pos up to the blank line at end. */
  function HeaderLines(s: string, pos: nat, end: nat, headers: map<string, string>): Part<map<string, string>>
    requires pos <= |s|
    decreases |s| - pos
  {
    if pos >= end then Got(headers)
    else
      var stop := CrlfFrom(s, pos);
      if stop.None? || stop.value > end then Bad(400, "malformed header line")
      else
        var more :- HeaderLine(s[pos..stop.value], headers);
        HeaderLines(s, stop.value + 2, end, more)
  }

  /** std::from_chars on the whole string: decimal digits that fit 64 bits. */
  function Length(s: string): Option<nat>
  {
    if s == "" || (exists k :: 0 <= k < |s| && !JsonParser.IsDigit(s[k])) then None
    else
      var n := JsonParser.DigitsValue(s);
      if 0 <= n < U64 then Some(n) else None
  }

  /** How long the body is. */
  function BodyLength(headers: map<string, string>, limits: Limits): Part<nat>
  {
    var n :- if "content-length" !in headers then Got(0)
             else match Length(headers["content-length"])
               case None => Bad(400, "invalid content-length")
               case Some(n) => if n > limits.maxBody then Bad(413, "body too large") else Got(n);
    if "transfer-encoding" in headers then Bad(411, "transfer-encoding not supported (use Content-Length)") else Got(n)
  }

  /** The head, blank line included, with the request without its body and the
      length of the body. */
  function Head(head: string, end: nat, limits: Limits): Part<(Request, nat)>
  {
    var first := CrlfFrom(head, 0);
    if first.None? || first.value > end then Bad(400, "missing request line")
    else if first.value > limits.maxRequestLine then Bad(414, "request line too long")
    else
      var r :- RequestLine(head[..first.value]);
      var headers :- HeaderLines(head, first.value + 2, end, map[]);
      var n :- BodyLength(headers, limits);
      Got((r.(headers := headers), n))
  }

  /** TryParseRequest: the head is looked at alone, then the body is awaited. */
  function TryParse(buf: string, limits: Limits): Attempt
  {
    match HeadEnd(buf, 0)
    case None =>
      if |buf| > limits.maxRequestLine + limits.maxHeadersTotal then Failed(400, "headers too large") else NeedMore
    case Some(end) =>
      var start := end + 4;
      match Head(buf[..start], end, limits)
      case Bad(status, message) => Failed(status, message)
      case Got(h) =>
        if |buf| - start < h.1 then NeedMore
        else Complete(h.0.(body := buf[start..start + h.1]), start + h.1)
  }

  // ----- the code -----

  /** A line break before the blank line is found alike in the head and in the
      whole buffer. */
  lemma {:induction false} SameCrlf(buf: string, from: nat, end: nat)
    requires from <= end && HeadEndsAt(buf, end)
    ensures CrlfFrom(buf, from) == CrlfFrom(buf[..end + 4], from) && CrlfFrom(buf, from).Some?
    ensures CrlfFrom(buf, from).value <= end
    decreases end - from
  {
    var head := buf[..end + 4];
    assert CrlfAt(buf, from) <==> CrlfAt(head, from);
    if from < end && !CrlfAt(buf, from) { SameCrlf(buf, from + 1, end); }
  }

  method ParseHeaders(buf: string, start: nat, end: nat) returns (r: Part<map<string, string>>)
    requires start <= end + 2 && HeadEndsAt(buf, end)
    ensures start <= end + 4 <= |buf| && r == HeaderLines(buf[..end + 4], start, end, map[])
  {
    assert end + 4 <= |buf|;
    hide HeaderLine, HeadEndsAt, CrlfFrom;
    var headers: map<string, string>, pos: nat := map[], start;
    ghost var head := buf[..end + 4];
    while pos < end
      invariant pos <= end + 2
      invariant HeaderLines(head, pos, end, headers) == HeaderLines(head, start, end, map[])
      decreases end + 4 - pos
    {
      var stop := FindCrlf(buf, pos);
      var bad := stop.None? || stop.value > end;
      SameCrlf(buf, pos, end);
      if bad { return Bad(400, "malformed header line"); }
      var line := buf[pos..stop.value];
      assert head[pos..stop.value] == line;
      headers :- HeaderLine(line, headers);
      pos := stop.value + 2;
    }
    return Got(headers);
  }

  method ParseHead(buf: string, end: nat, limits: Limits) returns (r: Part<(Request, nat)>)
    requires HeadEndsAt(buf, end)
    ensures end + 4 <= |buf| && r == Head(buf[..end + 4], end, limits)
  {
    hide RequestLine, HeaderLines, BodyLength;
    var first := FindCrlf(buf, 0);
    var bad := first.None? || first.value > end;
    SameCrlf(buf, 0, end);
    if bad { return Bad(400, "missing request line"); }
    if first.value > limits.maxRequestLine { return Bad(414, "request line too long"); }
    assert buf[..end + 4][..first.value] == buf[..first.value];
    var request :- RequestLine(buf[..first.value]);
    var headers :- ParseHeaders(buf, first.value + 2, end);
    var n :- BodyLength(headers, limits);
    return Got((request.(headers := headers), n));
  }

  method TryParseRequest(buf: string, limits: Limits) returns (r: Attempt)
    ensures r == TryParse(buf, limits)
  {
    hide Head, HeadEnd;
    var end := HeadEnd(buf, 0);
    if end.None? {
      if |buf| > limits.maxRequestLine + limits.maxHeadersTotal { return Failed(400, "headers too large"); }
      return NeedMore;
    }
    var start := end.value + 4;
    var head := ParseHead(buf, end.value, limits);
    if head.Bad? { return Failed(head.status, head.message); }
    var n := head.value.1;
    if |buf| - start < n { return NeedMore; }
    return Complete(head.value.0.(body := buf[start..start + n]), start + n);
  }

  // ----- more bytes -----

  /** Once the blank line is there, more bytes do not move it. */
  lemma {:induction false} HeadEndStays(buf: string, more: string, from: nat)
    requires from <= |buf| && HeadEnd(buf, from).Some?
    ensures HeadEnd(buf + more, from) == HeadEnd(buf, from)
    decreases |buf| - from
  {
    assert forall k :: 0 <= k < |buf| ==> (buf + more)[k] == buf[k];
    if !HeadEndsAt(buf, from) {
      var end := HeadEnd(buf, from).value;
      assert !HeadEndsAt(buf + more, from);
      HeadEndStays(buf, more, from + 1);
    }
  }

  /** A request that is complete stays the same request of the same length
      whatever follows it, and an error after the head stays that error. */
  lemma {:induction false} MoreBytes(buf: string, more: string, limits: Limits)
    requires HeadEnd(buf, 0).Some?
    ensures TryParse(buf, limits) != NeedMore ==> TryParse(buf + more, limits) == TryParse(buf, limits)
    ensures TryParse(buf + more, limits).Failed? ==> TryParse(buf, limits) == TryParse(buf + more, limits)
  {
    hide Head, HeadEnd;
    HeadEndStays(buf, more, 0);
    var start := HeadEnd(buf, 0).value + 4;
    assert (buf + more)[..start] == buf[..start];
    match Head(buf[..start], start - 4, limits)
    case Bad(_, _) =>
    case Got(h) =>
      if |buf| - start >= h.1 { assert (buf + more)[start..start + h.1] == buf[start..start + h.1]; }
  }
}

/** Serving one connection: bytes arrive in pieces, and the answer should not
    depend on how they are cut. */
module HttpConnection {
  import opened Base
  import opened HttpParser

  /** How many bytes one read returns at most. */
  const SCRATCH: nat := 8192

  datatype Options = Options(limits: Limits, maxTotal: nat)
  {
    /** The size above which a buffer without a blank line is refused. */
    function HeadLimit(): nat { limits.maxRequestLine + limits.maxHeadersTotal }

    /** The total allows for every head and body that the limits allow, as it
        does by default. */
    predicate Roomy() { HeadLimit() + limits.maxBody <= maxTotal }
  }

  const DEFAULT: Options := Options(Limits(8 * 1024, 32 * 1024, 16 * 1024 * 1024), 64 * 1024 * 1024)

  /** How the reading of a request ends. */
  datatype Ending = Received(request: Request) | Refused(status: int, message: string) | Hangup

  /** The read loop, after b bytes of the stream, when the pieces that are still
      to come have the given sizes.  After the last piece the client is gone. */
  function Serve(stream: string, b: nat, sizes: seq<nat>, o: Options): Ending
    requires b + Sum(sizes) <= |stream|
    decreases |sizes|
  {
    match TryParse(stream[..b], o.limits)
    case Complete(request, _) => Received(request)
    case Failed(status, message) => Refused(status, message)
    case NeedMore =>
      if b > o.maxTotal then Refused(413, "request too large")
      else if sizes == [] then Hangup
      else Serve(stream, b + sizes[0], sizes[1..], o)
  }

  function Sum(sizes: seq<nat>): nat
  {
    if sizes == [] then 0 else sizes[0] + Sum(sizes[1..])
  }

  /** Pieces that one read can return each. */
  ghost predicate Pieces(sizes: seq<nat>)
  {
    sizes == [] || (1 <= sizes[0] <= SCRATCH && Pieces(sizes[1..]))
  }

  /** A way to cut the rest of the stream. */
  ghost predicate Cuts(stream: string, b: nat, sizes: seq<nat>)
  {
    Pieces(sizes) && b + Sum(sizes) == |stream|
  }

  // ----- the code -----

  datatype Response = Dispatched(request: Request) | Error(status: int, message: string)

  /** A client socket. */
  class Socket {
    var sent: seq<Response>
    var closed: nat  // how often Close was called

    constructor ()
      ensures sent == [] && closed == 0
    {
      sent, closed := [], 0;
    }

    method Write(r: Response)
      modifies this`sent
      ensures sent == old(sent) + [r]
    {
      sent := sent + [r];
    }

    method Close()
      modifies this`closed
      ensures closed == old(closed) + 1
    {
      closed := closed + 1;
    }
  }

  function Joined(pieces: seq<string>): string
  {
    if pieces == [] then "" else pieces[0] + Joined(pieces[1..])
  }

  function Sizes(pieces: seq<string>): (sizes: seq<nat>)
    ensures Sum(sizes) == |Joined(pieces)|
  {
    if pieces == [] then [] else [|pieces[0]|] + Sizes(pieces[1..])
  }

  /** What is written for an ending; nobody is left to answer after a hangup. */
  function Answers(e: Ending): seq<Response>
  {
    match e
    case Received(r) => [Dispatched(r)]
    case Refused(status, message) => [Error(if status == 0 then 400 else status, message)]
    case Hangup => []
  }

  /** HandleClient: the socket is answered at most once and closed exactly once.
      Dispatching a request is represented by the response itself. */
  method HandleClient(client: Socket, pieces: seq<string>, o: Options)
    modifies client
    ensures client.closed == old(client.closed) + 1
    ensures client.sent == old(client.sent) + Answers(Serve(Joined(pieces), 0, Sizes(pieces), o))
  {
    hide TryParse;
    var buf := "";
    ghost var stream := Joined(pieces);
    var k := 0;
    while true
      invariant 0 <= k <= |pieces| && client.closed == old(client.closed) && client.sent == old(client.sent)
      invariant stream == buf + Joined(pieces[k..])
      invariant Serve(stream, |buf|, Sizes(pieces[k..]), o) == Serve(stream, 0, Sizes(pieces), o)
      decreases |pieces| - k
    {
      assert stream[..|buf|] == buf;
      var attempt := TryParseRequest(buf, o.limits);
      if attempt.Complete? {
        client.Write(Dispatched(attempt.request));
        client.Close();
        return;
      }
      if attempt.Failed? {
        client.Write(Error(if attempt.status == 0 then 400 else attempt.status, attempt.message));
        client.Close();
        return;
      }
      if |buf| > o.maxTotal {
        client.Write(Error(413, "request too large"));
        client.Close();
        return;
      }
      if k == |pieces| {
        assert client.sent + [] == client.sent;
        client.Close();
        return;
      }
      assert pieces[k..][0] == pieces[k] && pieces[k..][1..] == pieces[k + 1..];
      assert buf + (pieces[k] + Joined(pieces[k + 1..])) == (buf + pieces[k]) + Joined(pieces[k + 1..]);
      buf := buf + pieces[k];
      k := k + 1;
    }
  }

  // ----- the answer that does not look at the cuts -----

  /** The answer when the whole stream is there at once. */
  function Verdict(stream: string, o: Options): Ending
  {
    match TryParse(stream, o.limits)
    case Complete(request, _) => Received(request)
    case Failed(status, message) => Refused(status, message)
    case NeedMore => Hangup
  }

  /** A prefix has the blank line exactly when it reaches past it. */
  lemma {:induction false} PrefixHead(stream: string, b: nat)
    requires b <= |stream|
    ensures HeadEnd(stream[..b], 0) == match HeadEnd(stream, 0)
                                       case None => None
                                       case Some(end) => if end + 4 <= b then Some(end) else None
  {
    assert stream == stream[..b] + stream[b..];
    assert forall k :: 0 <= k && k + 4 <= b ==> (HeadEndsAt(stream[..b], k) <==> HeadEndsAt(stream, k));
    var here := HeadEnd(stream[..b], 0);
    if here.Some? {
      HeadEndStays(stream[..b], stream[b..], 0);
    }
  }

  /** Before the end of the stream the attempt is that on the whole stream, or
      more bytes are needed, or the head is too long so far. */
  lemma {:induction false} Attempts(stream: string, b: nat, o: Options)
    requires b <= |stream|
    ensures var now, all := TryParse(stream[..b], o.limits), TryParse(stream, o.limits);
      match HeadEnd(stream, 0)
      case None => now == if b > o.HeadLimit() then Failed(400, "headers too large") else NeedMore
      case Some(end) =>
        if b < end + 4 then now == if b > o.HeadLimit() then Failed(400, "headers too large") else NeedMore
        else (now == all || (now == NeedMore && all.Complete?)) && (now == NeedMore ==> b < end + 4 + o.limits.maxBody)
  {
    hide Head, HeadEnd;
    PrefixHead(stream, b);
    assert stream == stream[..b] + stream[b..];
    if HeadEnd(stream[..b], 0).Some? {
      MoreBytes(stream[..b], stream[b..], o.limits);
      BodyWithin(stream, HeadEnd(stream, 0).value, o);
      var start := HeadEnd(stream, 0).value + 4;
      assert stream[..b][..start] == stream[..start];
    }
  }

  lemma {:induction false} BodyWithin(stream: string, end: nat, o: Options)
    requires end + 4 <= |stream|
    ensures var h := Head(stream[..end + 4], end, o.limits); h.Got? ==> h.value.1 <= o.limits.maxBody
  {
    hide CrlfFrom, RequestLine, HeaderLines;
  }

  lemma {:induction false} HeadInside(stream: string)
    ensures HeadEnd(stream, 0).Some? ==> HeadEnd(stream, 0).value + 4 <= |stream|
  {
  }

  // ----- what one look at the buffer decides -----

  const TOO_LONG: Ending := Refused(400, "headers too large")
  const TOO_LARGE: Ending := Refused(413, "request too large")

  /** The ending that b bytes lead to, or None when more are read. */
  function Look(stream: string, b: nat, o: Options): Option<Ending>
    requires b <= |stream|
  {
    match TryParse(stream[..b], o.limits)
    case Complete(request, _) => Some(Received(request))
    case Failed(status, message) => Some(Refused(status, message))
    case NeedMore => if b > o.maxTotal then Some(TOO_LARGE) else None
  }

  lemma {:induction false} ServeLooks(stream: string, b: nat, sizes: seq<nat>, o: Options)
    requires b + Sum(sizes) <= |stream|
    ensures Serve(stream, b, sizes, o)
         == match Look(stream, b, o)
            case Some(e) => e
            case None => if sizes == [] then Hangup else Serve(stream, b + sizes[0], sizes[1..], o)
  {
    hide TryParse;
  }

  /** The request and the length of its body, or the error, once the head is
      there. */
  function HeadOf(stream: string, end: nat, o: Options): Part<(Request, nat)>
    requires end + 4 <= |stream|
  {
    Head(stream[..end + 4], end, o.limits)
  }

  /** Before the blank line only the limits count. */
  lemma {:induction false} LookBefore(stream: string, b: nat, o: Options)
    requires b <= |stream| && (HeadEnd(stream, 0).Some? ==> b < HeadEnd(stream, 0).value + 4)
    ensures Look(stream, b, o) == if b > o.HeadLimit() then Some(TOO_LONG) else if b > o.maxTotal then Some(TOO_LARGE) else None
  {
    hide TryParse, HeadEnd;
    Attempts(stream, b, o);
  }

  /** After it the head decides, and then the length of the body. */
  lemma {:induction false} LookAfter(stream: string, b: nat, end: nat, o: Options)
    requires HeadEnd(stream, 0) == Some(end) && end + 4 <= b <= |stream|
    ensures Look(stream, b, o)
         == match HeadOf(stream, end, o)
            case Bad(status, message) => Some(Refused(status, message))
            case Got(h) =>
              if b < end + 4 + h.1 then (if b > o.maxTotal then Some(TOO_LARGE) else None)
              else Some(Received(h.0.(body := stream[end + 4..end + 4 + h.1])))
  {
    hide Head, HeadEnd;
    PrefixHead(stream, b);
    assert stream[..b][..end + 4] == stream[..end + 4];
    var h := HeadOf(stream, end, o);
    if h.Got? && b >= end + 4 + h.value.1 {
      assert stream[..b][end + 4..end + 4 + h.value.1] == stream[end + 4..end + 4 + h.value.1];
    }
  }

  /** Nothing is decided before p, and whatever one read can reach from there
      decides for the same ending. */
  ghost predicate Steady(stream: string, o: Options, p: nat, e: Ending)
  {
    && (forall x :: 0 <= x < p && x <= |stream| ==> Look(stream, x, o) == None)
    && (forall x :: p <= x < p + SCRATCH && x <= |stream| ==> Look(stream, x, o) == Some(e))
  }

  lemma {:induction false} SteadyAnswer(stream: string, b: nat, sizes: seq<nat>, o: Options, p: nat, e: Ending)
    requires Cuts(stream, b, sizes) && b < p && Steady(stream, o, p, e)
    ensures Serve(stream, b, sizes, o) == if |stream| < p then Hangup else e
    decreases |sizes|
  {
    hide Look, Serve;
    ServeLooks(stream, b, sizes, o);
    if sizes != [] {
      var next := b + sizes[0];
      if next < p {
        SteadyAnswer(stream, next, sizes[1..], o, p, e);
      } else {
        ServeLooks(stream, next, sizes[1..], o);
      }
    }
  }

  // ----- the condition -----

  /** The longest buffer that is the first to exceed the total. */
  function Reach(stream: string, o: Options): nat
  {
    if o.maxTotal + SCRATCH < |stream| then o.maxTotal + SCRATCH else |stream|
  }

  /** Streams whose answer does not depend on the cuts.  With a head within the
      limits: the request fits the total, or no read can jump from within the
      total to its end.  Otherwise no read can jump over the limit that is hit
      first to where something else is answered. */
  predicate Decided(stream: string, o: Options)
  {
    var l, t := o.HeadLimit(), o.maxTotal;
    match HeadEnd(stream, 0)
    case None => l <= t || Reach(stream, o) <= l
    case Some(end) =>
      if |stream| < end + 4 then true
      else
        var h := HeadOf(stream, end, o);
        if end + 3 <= l && end + 3 <= t then h.Got? ==> end + 3 + h.value.1 <= t || Reach(stream, o) < end + 4 + h.value.1
        else if l <= t then end + 4 > l + SCRATCH
        else if Reach(stream, o) < end + 4 then Reach(stream, o) <= l
        else end + 3 <= l && h.Got? && Reach(stream, o) < end + 4 + h.value.1
  }

  /** The answer that they get. */
  function Answer(stream: string, o: Options): Ending
  {
    var l, t, n := o.HeadLimit(), o.maxTotal, |stream|;
    match HeadEnd(stream, 0)
    case None => if l <= t then (if n > l then TOO_LONG else Hangup) else if n > t then TOO_LARGE else Hangup
    case Some(end) =>
      if n < end + 4 then Hangup
      else if end + 3 <= l && end + 3 <= t then
        match HeadOf(stream, end, o)
        case Bad(status, message) => Refused(status, message)
        case Got(h) =>
          if end + 3 + h.1 > t then (if n > t then TOO_LARGE else Hangup)
          else if n < end + 4 + h.1 then Hangup
          else Received(h.0.(body := stream[end + 4..end + 4 + h.1]))
      else if l <= t then TOO_LONG
      else TOO_LARGE
  }

  /** A decided stream gets its answer, however it is cut. */
  lemma {:induction false} DecidedAnswer(stream: string, sizes: seq<nat>, o: Options)
    requires Decided(stream, o) && Cuts(stream, 0, sizes)
    ensures Serve(stream, 0, sizes, o) == Answer(stream, o)
  {
    HeadInside(stream);
    hide HeadEnd, HeadOf, Look, Serve, Cuts, Steady;
    var p, e := Turning(stream, o);
    SteadyAnswer(stream, 0, sizes, o, p, e);
  }

  /** Where a decided stream is decided, and how. */
  lemma {:induction false} Turning(stream: string, o: Options) returns (p: nat, e: Ending)
    requires Decided(stream, o)
    ensures p > 0 && Steady(stream, o, p, e) && Answer(stream, o) == if |stream| < p then Hangup else e
  {
    HeadInside(stream);
    hide HeadEnd, HeadOf, Look;
    var l, t := o.HeadLimit(), o.maxTotal;
    var end := HeadEnd(stream, 0);
    if end.Some? && end.value + 3 <= l && end.value + 3 <= t {
      p, e := TurningWithin(stream, end.value, o);
    } else {
      p, e := if l <= t then l + 1 else t + 1, if l <= t then TOO_LONG else TOO_LARGE;
      forall x | 0 <= x < p && x <= |stream| ensures Look(stream, x, o) == None { LookBefore(stream, x, o); }
      forall x | p <= x < p + SCRATCH && x <= |stream| ensures Look(stream, x, o) == Some(e) {
        if end.Some? && end.value + 4 <= x { LookAfter(stream, x, end.value, o); } else { LookBefore(stream, x, o); }
      }
    }
  }

  lemma {:induction false} TurningWithin(stream: string, end: nat, o: Options) returns (p: nat, e: Ending)
    requires Decided(stream, o) && HeadEnd(stream, 0) == Some(end) && end + 4 <= |stream|
    requires end + 3 <= o.HeadLimit() && end + 3 <= o.maxTotal
    ensures p > 0 && Steady(stream, o, p, e) && Answer(stream, o) == if |stream| < p then Hangup else e
  {
    hide HeadEnd, HeadOf, Look;
    var h := HeadOf(stream, end, o);
    if h.Bad? {
      p, e := end + 4, Refused(h.status, h.message);
    } else if end + 3 + h.value.1 > o.maxTotal {
      p, e := o.maxTotal + 1, TOO_LARGE;
    } else {
      p := end + 4 + h.value.1;
      e := if |stream| < p then Hangup else Received(h.value.0.(body := stream[end + 4..p]));
    }
    forall x | 0 <= x < p && x <= |stream| ensures Look(stream, x, o) == None {
      if end + 4 <= x { LookAfter(stream, x, end, o); } else { LookBefore(stream, x, o); }
    }
    forall x | p <= x < p + SCRATCH && x <= |stream| ensures Look(stream, x, o) == Some(e) { LookAfter(stream, x, end, o); }
  }

  // ----- streams that are not decided -----

  /** n pieces of one byte. */
  function Bytes(n: nat): (sizes: seq<nat>)
    ensures |sizes| == n
  {
    if n == 0 then [] else [1] + Bytes(n - 1)
  }

  lemma {:induction false} BytesThen(n: nat, rest: seq<nat>)
    requires Pieces(rest)
    ensures Pieces(Bytes(n) + rest) && Sum(Bytes(n) + rest) == n + Sum(rest)
  {
    if n == 0 {
      assert Bytes(0) + rest == rest;
    } else {
      BytesThen(n - 1, rest);
      assert (Bytes(n) + rest)[0] == 1 && (Bytes(n) + rest)[1..] == Bytes(n - 1) + rest;
    }
  }

  /** Single bytes while nothing is decided. */
  lemma {:induction false} ServeBytes(stream: string, b: nat, n: nat, rest: seq<nat>, o: Options)
    requires Pieces(rest) && b + n + Sum(rest) == |stream|
    requires forall x :: b <= x < b + n ==> Look(stream, x, o) == None
    ensures Pieces(Bytes(n) + rest) && Sum(Bytes(n) + rest) == n + Sum(rest)
    ensures Serve(stream, b, Bytes(n) + rest, o) == Serve(stream, b + n, rest, o)
    decreases n
  {
    hide Look, Serve;
    BytesThen(n, rest);
    if n == 0 {
      assert Bytes(0) + rest == rest;
    } else {
      assert (Bytes(n) + rest)[0] == 1 && (Bytes(n) + rest)[1..] == Bytes(n - 1) + rest;
      ServeLooks(stream, b, Bytes(n) + rest, o);
      BytesThen(n - 1, rest);
      ServeBytes(stream, b + 1, n - 1, rest, o);
    }
  }

  lemma {:induction false} OnlyBytes(n: nat)
    ensures Pieces(Bytes(n)) && Sum(Bytes(n)) == n
  {
    BytesThen(n, []);
    assert Bytes(n) + [] == Bytes(n);
  }

  /** p is where byte-by-byte reading decides, and one read can go from before p
      to q: two ways to cut the stream. */
  lemma {:induction false} TwoWays(stream: string, o: Options, p: nat, q: nat, e: Ending) returns (a: seq<nat>, b: seq<nat>)
    requires 0 < p < q < p + SCRATCH && q <= |stream| && Look(stream, p, o) == Some(e)
    requires forall x :: 0 <= x < p ==> Look(stream, x, o) == None
    ensures Cuts(stream, 0, a) && Cuts(stream, 0, b) && Serve(stream, 0, a, o) == e
    ensures Pieces(Bytes(|stream| - q)) && Sum(Bytes(|stream| - q)) == |stream| - q
    ensures Serve(stream, 0, b, o) == Serve(stream, q, Bytes(|stream| - q), o)
  {
    hide Look, Serve;
    var n := |stream|;
    OnlyBytes(n - p);
    OnlyBytes(n - q);
    ServeBytes(stream, 0, p, Bytes(n - p), o);
    ServeLooks(stream, p, Bytes(n - p), o);
    a := Bytes(p) + Bytes(n - p);
    var rest := [q - (p - 1)] + Bytes(n - q);
    assert rest[0] == q - (p - 1) && rest[1..] == Bytes(n - q);
    ServeBytes(stream, 0, p - 1, rest, o);
    ServeLooks(stream, p - 1, rest, o);
    b := Bytes(p - 1) + rest;
  }

  /** Byte by byte nothing is decided up to both limits, before the blank line. */
  lemma {:induction false} NothingBefore(stream: string, p: nat, o: Options)
    requires p <= o.HeadLimit() + 1 && p <= o.maxTotal + 1 && p <= |stream|
    requires HeadEnd(stream, 0).Some? ==> p <= HeadEnd(stream, 0).value + 4
    ensures forall x :: 0 <= x < p ==> Look(stream, x, o) == None
  {
    hide HeadEnd, Look;
    forall x | 0 <= x < p ensures Look(stream, x, o) == None { LookBefore(stream, x, o); }
  }

  /** The head is within the limits, and a read can jump over the total to the
      end of the request. */
  lemma {:induction false} TwoWithin(stream: string, end: nat, o: Options) returns (a: seq<nat>, b: seq<nat>)
    requires !Decided(stream, o) && HeadEnd(stream, 0) == Some(end) && end + 4 <= |stream|
    requires end + 3 <= o.HeadLimit() && end + 3 <= o.maxTotal
    ensures Cuts(stream, 0, a) && Cuts(stream, 0, b) && Serve(stream, 0, a, o) == TOO_LARGE && Serve(stream, 0, b, o).Received?
  {
    hide HeadEnd, HeadOf, Look, Serve, Cuts;
    var p, q := o.maxTotal + 1, end + 4 + HeadOf(stream, end, o).value.1;
    forall x | 0 <= x < p ensures Look(stream, x, o) == None {
      if end + 4 <= x { LookAfter(stream, x, end, o); } else { LookBefore(stream, x, o); }
    }
    LookAfter(stream, p, end, o);
    LookAfter(stream, q, end, o);
    a, b := TwoWays(stream, o, p, q, TOO_LARGE);
    ServeLooks(stream, q, Bytes(|stream| - q), o);
  }

  /** A read can jump over the limit of the head to its blank line. */
  lemma {:induction false} TwoLong(stream: string, end: nat, o: Options) returns (a: seq<nat>, b: seq<nat>)
    requires HeadEnd(stream, 0) == Some(end) && end + 4 <= |stream| && o.HeadLimit() <= o.maxTotal
    requires o.HeadLimit() < end + 3 && end + 4 <= o.HeadLimit() + SCRATCH
    ensures Cuts(stream, 0, a) && Cuts(stream, 0, b) && Serve(stream, 0, a, o) == TOO_LONG != Serve(stream, 0, b, o)
  {
    hide HeadEnd, Look, Serve, Cuts;
    var p, q := o.HeadLimit() + 1, end + 4;
    NothingBefore(stream, p, o);
    LookBefore(stream, p, o);
    a, b := TwoWays(stream, o, p, q, TOO_LONG);
    NotTooLarge(stream, q, Bytes(|stream| - q), o);
  }

  /** A read can jump over the total and the limit of the head. */
  lemma {:induction false} TwoLarge(stream: string, o: Options) returns (a: seq<nat>, b: seq<nat>)
    requires o.maxTotal < o.HeadLimit() < Reach(stream, o)
    requires HeadEnd(stream, 0).Some? ==> o.HeadLimit() < HeadEnd(stream, 0).value + 3
    ensures Cuts(stream, 0, a) && Cuts(stream, 0, b) && Serve(stream, 0, a, o) == TOO_LARGE && Serve(stream, 0, b, o) == TOO_LONG
  {
    hide HeadEnd, Look, Serve, Cuts;
    var p, q := o.maxTotal + 1, o.HeadLimit() + 1;
    NothingBefore(stream, p, o);
    LookBefore(stream, p, o);
    LookBefore(stream, q, o);
    a, b := TwoWays(stream, o, p, q, TOO_LARGE);
    ServeLooks(stream, q, Bytes(|stream| - q), o);
  }

  /** A read can jump over the total to where the head, or the whole request,
      decides. */
  lemma {:induction false} TwoHeads(stream: string, end: nat, o: Options) returns (a: seq<nat>, b: seq<nat>)
    requires HeadEnd(stream, 0) == Some(end) && o.maxTotal < end + 3 <= o.HeadLimit() && end + 4 <= |stream|
    requires var h := HeadOf(stream, end, o); end + 4 + (if h.Got? then h.value.1 else 0) <= Reach(stream, o)
    ensures Cuts(stream, 0, a) && Cuts(stream, 0, b) && Serve(stream, 0, a, o) == TOO_LARGE != Serve(stream, 0, b, o)
  {
    HeadMessages(stream[..end + 4], end, o);
    hide HeadEnd, Look, Serve, Cuts, Head;
    var h := HeadOf(stream, end, o);
    var p, q := o.maxTotal + 1, end + 4 + (if h.Got? then h.value.1 else 0);
    NothingBefore(stream, p, o);
    LookBefore(stream, p, o);
    LookAfter(stream, q, end, o);
    a, b := TwoWays(stream, o, p, q, TOO_LARGE);
    ServeLooks(stream, q, Bytes(|stream| - q), o);
  }

  /** A stream that is not decided gets two different answers: read byte by byte
      it is refused at the limit that is hit first, and one long read goes over
      that limit to where something else is answered. */
  lemma {:induction false} TwoAnswers(stream: string, o: Options) returns (a: seq<nat>, b: seq<nat>)
    requires !Decided(stream, o)
    ensures Cuts(stream, 0, a) && Cuts(stream, 0, b) && Serve(stream, 0, a, o) != Serve(stream, 0, b, o)
    ensures Serve(stream, 0, a, o) == TOO_LONG || Serve(stream, 0, a, o) == TOO_LARGE
  {
    HeadInside(stream);
    hide HeadEnd, HeadOf, Serve, Cuts;
    var l, t := o.HeadLimit(), o.maxTotal;
    var end := HeadEnd(stream, 0);
    if end.Some? && end.value + 3 <= l && end.value + 3 <= t {
      a, b := TwoWithin(stream, end.value, o);
    } else if l <= t {
      a, b := TwoLong(stream, end.value, o);
    } else if end.None? || l < end.value + 3 {
      a, b := TwoLarge(stream, o);
    } else {
      a, b := TwoHeads(stream, end.value, o);
    }
  }

  /** Past the blank line the answer is never "headers too large". */
  lemma {:induction false} NotTooLarge(stream: string, b: nat, sizes: seq<nat>, o: Options)
    requires b + Sum(sizes) <= |stream| && HeadEnd(stream, 0).Some? && b >= HeadEnd(stream, 0).value + 4
    ensures Serve(stream, b, sizes, o) != Refused(400, "headers too large")
    decreases |sizes|
  {
    hide TryParse, HeadEnd, Head;
    Attempts(stream, b, o);
    HeadErrors(stream, HeadEnd(stream, 0).value, o);
    PrefixHead(stream, b);
    if sizes != [] { NotTooLarge(stream, b + sizes[0], sizes[1..], o); }
  }

  lemma {:induction false} HeadErrors(stream: string, end: nat, o: Options)
    requires HeadEnd(stream, 0) == Some(end)
    ensures TryParse(stream, o.limits) != Failed(400, "headers too large")
    ensures TryParse(stream, o.limits) != Failed(413, "request too large")
  {
    HeadMessages(stream[..end + 4], end, o);
  }

  lemma {:induction false} HeadMessages(head: string, end: nat, o: Options)
    ensures Head(head, end, o.limits) != Bad(400, "headers too large")
    ensures Head(head, end, o.limits) != Bad(413, "request too large")
  {
    hide CrlfFrom, HeaderLines, RequestLine, BodyLength;
    assert |"headers too large"| == 17 && |"missing request line"| == 20;
    var first := CrlfFrom(head, 0);
    if first.Some? && first.value <= |head| {
      LineMessages(head[..first.value]);
      if first.value + 2 <= |head| { HeaderMessages(head, first.value + 2, end, map[]); }
    }
    forall headers: map<string, string>
      ensures BodyLength(headers, o.limits) != Bad(400, "headers too large")
      ensures BodyLength(headers, o.limits) != Bad(413, "request too large")
    {
      LengthMessages(headers, o.limits);
    }
  }

  lemma {:induction false} LineMessages(rl: string)
    ensures RequestLine(rl) != Bad(400, "headers too large") && RequestLine(rl) != Bad(413, "request too large")
  {
    assert |"headers too large"| == 17 && |"malformed request line"| == 22;
  }

  lemma {:induction false} HeaderMessages(s: string, pos: nat, end: nat, headers: map<string, string>)
    requires pos <= |s|
    ensures HeaderLines(s, pos, end, headers) != Bad(400, "headers too large")
    ensures HeaderLines(s, pos, end, headers) != Bad(413, "request too large")
    decreases |s| - pos
  {
    hide HeaderLine, CrlfFrom;
    assert |"headers too large"| == 17 && |"malformed header line"| == 21;
    if pos < end {
      var stop := CrlfFrom(s, pos);
      if stop.Some? && pos <= stop.value <= end && stop.value + 2 <= |s| {
        ColonMessage(s[pos..stop.value], headers);
        var more := HeaderLine(s[pos..stop.value], headers);
        if more.Got? { HeaderMessages(s, stop.value + 2, end, more.value); }
      }
    }
  }

  lemma {:induction false} ColonMessage(line: string, headers: map<string, string>)
    ensures HeaderLine(line, headers) != Bad(400, "headers too large") && HeaderLine(line, headers) != Bad(413, "request too large")
  {
    assert |"headers too large"| == 17 && |"missing ':' in header"| == 21;
  }

  lemma {:induction false} LengthMessages(headers: map<string, string>, limits: Limits)
    ensures BodyLength(headers, limits) != Bad(400, "headers too large") && BodyLength(headers, limits) != Bad(413, "request too large")
  {
    assert |"request too large"| == 17 && |"body too large"| == 14;
    assert |"headers too large"| == 17 && |"invalid content-length"| == 22;
  }

  /** The answer is independent of the cuts exactly for decided streams, and then
      it is known. */
  lemma {:induction false} CutsDoNotMatter(stream: string, o: Options)
    ensures Decided(stream, o) <==>
      forall a, b :: Cuts(stream, 0, a) && Cuts(stream, 0, b) ==> Serve(stream, 0, a, o) == Serve(stream, 0, b, o)
    ensures Decided(stream, o) ==> forall a :: Cuts(stream, 0, a) ==> Serve(stream, 0, a, o) == Answer(stream, o)
  {
    hide Decided, Answer, Serve;
    if Decided(stream, o) {
      forall a | Cuts(stream, 0, a) ensures Serve(stream, 0, a, o) == Answer(stream, o) { DecidedAnswer(stream, a, o); }
    } else {
      var a, b := TwoAnswers(stream, o);
    }
  }

  /** Under options whose total allows for every head and body within the limits,
      a stream is decided when it has no head, when its head is within the limit,
      or when it is so far beyond that no read can jump over the check. */
  lemma {:induction false} RoomyDecided(stream: string, o: Options)
    requires o.Roomy()
    ensures Decided(stream, o) <==>
      var end := HeadEnd(stream, 0);
      end.None? || end.value + 3 <= o.HeadLimit() || end.value + 4 > o.HeadLimit() + SCRATCH
    ensures DEFAULT.Roomy()
  {
    HeadInside(stream);
    hide HeadEnd, Head;
    var end := HeadEnd(stream, 0);
    if end.Some? { BodyWithin(stream, end.value, o); }
  }

  /** With the options of the server: a head of at most 40960 bytes, counting
      three of its blank line, or of more than 49152. */
  lemma {:induction false} DefaultDecided(stream: string)
    ensures Decided(stream, DEFAULT) <==>
      var end := HeadEnd(stream, 0); end.None? || end.value + 3 <= 40960 || end.value + 4 > 49152
  {
    hide Decided, HeadEnd;
    RoomyDecided(stream, DEFAULT);
  }

  /** The head and the body that it announces are within all limits, or there is
      no head and no limit is exceeded. */
  predicate Within(stream: string, o: Options)
  {
    match HeadEnd(stream, 0)
    case None => |stream| <= o.HeadLimit() && |stream| <= o.maxTotal
    case Some(end) =>
      && end + 3 <= o.HeadLimit() && end + 3 <= o.maxTotal && end + 4 <= |stream|
      && (HeadOf(stream, end, o).Got? ==> end + 3 + HeadOf(stream, end, o).value.1 <= o.maxTotal)
  }

  /** Within the limits, however the stream is cut, the answer is that of a look
      at the whole stream. */
  lemma {:induction false} WithinIsVerdict(stream: string, sizes: seq<nat>, o: Options)
    requires Cuts(stream, 0, sizes) && Within(stream, o)
    ensures Serve(stream, 0, sizes, o) == Verdict(stream, o)
  {
    DecidedAnswer(stream, sizes, o);
    hide HeadEnd, Head;
    var end := HeadEnd(stream, 0);
    assert stream[..|stream|] == stream;
    if end.Some? { LookAfter(stream, |stream|, end.value, o); } else { LookBefore(stream, |stream|, o); }
  }

  // ----- an instance -----

  const TIGHT: Options := Options(Limits(14, 2, 0), 18)

  const SHORT_GET: string := "GET / HTTP/1.1\r\n\r\n"

  /** A request whose blank line straddles the head limit: in one piece it is
      received, cut before its last byte it is refused. */
  lemma {:induction false} Straddling()
    ensures TIGHT.Roomy() && Cuts(SHORT_GET, 0, [18]) && Cuts(SHORT_GET, 0, [17, 1])
    ensures Serve(SHORT_GET, 0, [18], TIGHT)
         == Received(Request("GET", "/", "/", "", "HTTP/1.1", map[], ""))
    ensures Serve(SHORT_GET, 0, [17, 1], TIGHT) == TOO_LONG
  {
    hide Look, Serve, Sum, Pieces;
    StraddlingLooks();
    StraddlingCuts();
    ServeLooks(SHORT_GET, 0, [18], TIGHT);
    ServeLooks(SHORT_GET, 18, [], TIGHT);
    ServeLooks(SHORT_GET, 0, [17, 1], TIGHT);
    ServeLooks(SHORT_GET, 17, [1], TIGHT);
  }

  lemma {:induction false} StraddlingCuts()
    ensures [18][1..] == [] && [17, 1][1..] == [1] && [1][1..] == []
    ensures Sum([]) == 0 && Sum([1]) == 1 && Sum([18]) == 18 && Sum([17, 1]) == 18
    ensures Pieces([]) && Pieces([1]) && Pieces([18]) && Pieces([17, 1])
  {
  }

  lemma {:induction false} StraddlingLooks()
    ensures |SHORT_GET| == 18 && Look(SHORT_GET, 0, TIGHT) == None && Look(SHORT_GET, 17, TIGHT) == Some(TOO_LONG)
    ensures Look(SHORT_GET, 18, TIGHT) == Some(Received(Request("GET", "/", "/", "", "HTTP/1.1", map[], "")))
  {
    StraddlingHead();
    hide HeadEnd, HeadOf, Look;
    LookBefore(SHORT_GET, 0, TIGHT);
    LookBefore(SHORT_GET, 17, TIGHT);
    LookAfter(SHORT_GET, 18, 14, TIGHT);
    assert SHORT_GET[18..18] == "";
  }

  lemma {:induction false} StraddlingHead()
    ensures |SHORT_GET| == 18 && HeadEnd(SHORT_GET, 0) == Some(14)
    ensures HeadOf(SHORT_GET, 14, TIGHT) == Got((Request("GET", "/", "/", "", "HTTP/1.1", map[], ""), 0))
  {
    var s := SHORT_GET;
    assert |s| == 18 && HeadEndsAt(s, 14) && s[14] == '\r';
    var end := HeadEnd(s, 0);
    assert forall k :: 0 <= k < 14 ==> s[k] != '\r';
    assert end == Some(14) by { hide HeadEnd; }
    assert s[..18] == s;
    var first := CrlfFrom(s, 0);
    assert first == Some(14) by { hide CrlfFrom; assert CrlfAt(s, 14); }
    var rl := s[..14];
    assert rl == "GET / HTTP/1.1";
    assert rl[3] == ' ' && rl[5] == ' ' && (forall k :: 0 <= k < 3 ==> rl[k] != ' ') && rl[4] != ' ';
    hide FindChar;
    assert FindChar(rl, ' ', 0) == Some(3);
    assert FindChar(rl, ' ', 4) == Some(5);
    assert rl[4..5] == "/" && rl[6..] == "HTTP/1.1" && rl[..3] == "GET";
    assert FindChar("/", '?', 0) == None;
  }
}

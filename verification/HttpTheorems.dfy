/** A connection from its first byte to do_request(), in one statement. */
module HttpTheorems {
  import opened Wrappers
  import opened CString
  import opened HttpLine
  import opened HttpMachine
  import opened HttpChunks
  import opened HttpReference
  import opened HttpRefinement
  import opened HttpCuts
  import opened HttpResponse

  /** init() leaves a fresh connection, whatever the previous request left in cgi and m_string. */
  lemma InitIsFresh(cgi: bool, body: Option<nat>)
    ensures FreshConn(Init(cgi, body)) && Entry(Init(cgi, body)) && |Init(cgi, body).buf| == READ_BUFFER_SIZE == 2048
    ensures Init(cgi, body).verb == GET && Init(cgi, body).cgi == cgi && Init(cgi, body).body == body
    ensures Init(cgi, body).url == Init(cgi, body).version == None
    ensures forall k :: 0 <= k < READ_BUFFER_SIZE ==> Init(cgi, body).buf[k] == NUL
  {
  }

  /** do_request() is called with the reference's fields. */
  ghost predicate Delivers(c: Conn, code: Code, r: Request)
  {
    && code == GetRequest && Bounds(c)
    && c.url.Some? && Settled(c, c.url) && Settled(c, c.host) && Seen(c) == r
  }

  /** The body as m_string shows it. */
  ghost predicate ShowsBody(c: Conn, text: string)
  {
    && c.state == Content && c.body.Some? && c.body.value + |text| < |c.buf|
    && CStr(c.buf, c.body.value) == text
  }

  /** A body that has arrived in full is handed over exactly. */
  lemma BodyDelivered(h: Conn, r: Request, rest: string)
    requires Shows(h, NoRequest, Body(r, rest)) && NulFree(rest)
    requires 0 < r.length <= |rest| && h.readIdx < |h.buf| == READ_BUFFER_SIZE
    ensures Process(h).1 == GetRequest
    ensures Delivers(Process(h).0, GetRequest, r) && ShowsBody(Process(h).0, rest[..r.length])
  {
    hide Loop, ParseLine, Settled, StringAt, CStr;
    BodyDecided(h);
    var d := OnContent(h).0;
    StaysSettled(h, d, h.url);
    StaysSettled(h, d, h.host);
    assert d.buf[..h.checkIdx] == h.buf[..h.checkIdx];
    assert forall k :: 0 <= k < |rest| ==> rest[k] == h.buf[h.checkIdx + k];
    CStrIs(d.buf, h.checkIdx, rest[..r.length]);
  }

  /** While a body is incomplete, process_read goes on over the complete lines of what is there, and
      the sum of length and position overflows if it does at the last of them. */
  lemma {:induction false} BodyScan(c: Conn)
    requires Good(c) && c.state == Content && c.startLine == c.checkIdx && NulFree(Unread(c))
    requires c.readIdx < c.contentLength + c.checkIdx <= INT_MAX
    ensures Loop(c, false).1 ==
            if c.contentLength + c.checkIdx + LinesEnd(Unread(c)) > INT_MAX then Fault else NoRequest
    decreases c.readIdx - c.checkIdx
  {
    hide ParseLine, NextLine;
    ParseLineGood(c);
    LineRefines(c);
    var (l, status) := ParseLine(c);
    if status == LineOk {
      var (line, rest) := NextLine(Unread(c)).value;
      assert |Unread(c)| - |rest| == l.checkIdx - c.checkIdx;
      if l.contentLength + l.checkIdx <= INT_MAX {
        var d := OnContent(l).0;
        assert d == l.(startLine := l.checkIdx);
        BodyScan(d);
      }
    }
  }

  lemma ScansBody(h: Conn)
    requires Waiting(h)
    ensures Process(h) == Loop(h, false)
  {
    hide ParseLine;
    assert OnContent(h) == (h, NoRequest);
  }

  /** A body that has not arrived in full is waited for, unless the sum overflows. */
  lemma BodyAwaited(h: Conn, r: Request, rest: string)
    requires Shows(h, NoRequest, Body(r, rest)) && NulFree(rest)
    requires |rest| < r.length && h.readIdx < |h.buf| == READ_BUFFER_SIZE
    ensures Process(h).1 == if h.checkIdx + r.length + LinesEnd(rest) > INT_MAX then Fault else NoRequest
  {
    hide Loop, Process, ParseLine, Settled, StringAt, CStr, LinesEnd;
    if r.length + h.checkIdx <= INT_MAX {
      BodyScan(h);
      ScansBody(h);
    } else {
      BodyDecided(h);
    }
  }

  /** A negative length is not refused: the NUL is written before the body, or outside the buffer. */
  lemma NegativeLength(h: Conn, r: Request, rest: string)
    requires Shows(h, NoRequest, Body(r, rest)) && h.readIdx < |h.buf| == READ_BUFFER_SIZE
    requires r.length < 0
    ensures Process(h).1 == if h.checkIdx + r.length >= 0 then GetRequest else Fault
  {
    hide Loop, ParseLine, Settled, StringAt, CStr;
    BodyDecided(h);
  }

  /** What process_read answers when it has received s, in every case. */
  ghost predicate Answers(d: Conn, code: Code, s: string)
  {
    match ReadRequest(s)
    case More => code == NoRequest
    case Rejected => code == BadRequest
    case Crashed => code == Fault
    case Ready(r) => Delivers(d, code, r)
    case Body(r, rest) =>
      var head := |s| - |rest|;
      if r.length < 0 then
        code == if head + r.length >= 0 then GetRequest else Fault
      else if r.length <= |rest| then
        Delivers(d, code, r) && ShowsBody(d, rest[..r.length])
      else
        code == if head + r.length + LinesEnd(rest) > 0x7FFF_FFFF then Fault else NoRequest
  }

  /** All bytes at once. */
  lemma ProcessRefines(c: Conn, s: string)
    requires FreshConn(c) && Entry(c) && |s| < |c.buf| == READ_BUFFER_SIZE && NulFree(s)
    ensures var (d, code) := Process(Feed(c, s)); Answers(d, code, s)
  {
    hide Loop, HeaderPhase, ReadRequest, Settled, ParseLine, CStr, Feed, LinesEnd;
    var e := Feed(c, s);
    ParserRefines(c, s);
    LoopIsHeaderThenBody(e);
    var h := HeaderPhase(e).0;
    match ReadRequest(s)
    case Body(r, rest) =>
      BodyIsSuffix(s);
      LengthNotZero(s);
      if r.length < 0 {
        NegativeLength(h, r, rest);
      } else if r.length <= |rest| {
        BodyDelivered(h, r, rest);
      } else {
        BodyAwaited(h, r, rest);
      }
    case _ =>
  }

  /** Only a length other than 0 makes a body. */
  lemma LengthNotZero(s: string)
    ensures ReadRequest(s).Body? ==> ReadRequest(s).request.length != 0
  {
    hide ReadHeaders, ReadRequestLine, NextLine;
    if NextLine(s).Some? {
      var (line, rest) := NextLine(s).value;
      var v := ReadRequestLine(line);
      if v.Accept? {
        BodyIffLength(Request(v.verb, v.target, None, 0, false), rest);
      }
    }
  }

  lemma SameDelivery(d: Conn, e: Conn, r: Request)
    requires Good(d) && SameParse(d, e, GetRequest) && Delivers(e, GetRequest, r)
    ensures Delivers(d, GetRequest, r)
    ensures forall text :: r.length >= 0 && ShowsBody(e, text) ==> ShowsBody(d, text)
  {
    hide Settled, StringAt, CStr;
    assert d.buf[..d.checkIdx] == d.buf[..d.readIdx][..d.checkIdx];
    assert e.buf[..d.checkIdx] == e.buf[..d.readIdx][..d.checkIdx];
    StaysSettled(e, d, e.url);
    StaysSettled(e, d, e.host);
  }

  /** Any request, any chunks with safe cuts: process_read answers every fresh connection as the
      reference reads the concatenated bytes. */
  lemma ServeRefines(c: Conn, chunks: seq<seq<char>>)
    requires FreshConn(c) && Entry(c) && |c.buf| == READ_BUFFER_SIZE
    requires |Concat(chunks)| < READ_BUFFER_SIZE && NulFree(Concat(chunks))
    requires chunks != [] && SafeCuts(chunks)
    ensures var (d, code) := Serve(c, chunks); Answers(d, code, Concat(chunks))
  {
    hide Process, HeaderPhase, Serve, SameParse, ReadRequest, Feed, CleanCuts, SafeCuts, LinesEnd, Delivers, ShowsBody;
    var s := Concat(chunks);
    CleanCutsIff(c, chunks);
    ChunkingIndependence(c, chunks);
    ProcessRefines(c, s);
    ServeMoves(c, chunks);
    var (d, code) := Serve(c, chunks);
    var e := Process(Feed(c, s)).0;
    assert forall r :: Delivers(e, code, r) ==> code == GetRequest by { DeliveryIsRequest(e, code); }
    match ReadRequest(s)
    case Ready(r) => SameDelivery(d, e, r);
    case Body(r, rest) => if 0 <= r.length <= |rest| { SameDelivery(d, e, r); }
    case _ =>
  }

  lemma DeliveryIsRequest(e: Conn, code: Code)
    ensures forall r :: Delivers(e, code, r) ==> code == GetRequest
  {
  }

  /** The other direction: when the bytes make a request, chunks that do not all end safely make
      none, or none in the same place; and none at all if the message ends with its body. */
  lemma ServeIff(c: Conn, chunks: seq<seq<char>>)
    requires FreshConn(c) && Entry(c) && |c.buf| == READ_BUFFER_SIZE
    requires |Concat(chunks)| < READ_BUFFER_SIZE && NulFree(Concat(chunks)) && chunks != []
    requires Process(Feed(c, Concat(chunks))).1 == GetRequest
    ensures Fits(c, Concat(chunks))
    ensures var (d, code) := Serve(c, chunks);
            var e := Process(Feed(c, Concat(chunks))).0;
            && (code == GetRequest && SameParse(d, e, code) <==> SafeCuts(chunks))
            && (ExactBody(e) ==> (code == GetRequest <==> SafeCuts(chunks)))
  {
    hide Process, Serve, SameParse, CleanCuts, SafeCuts, ExactBody;
    CleanCutsIff(c, chunks);
    ChunkingIff(c, chunks);
  }

  // ----- Headers printed and read -----

  /** The headers that add_headers prints, arriving where headers are expected: the header phase
      ends with them, with their length and flag. */
  lemma HeadersRoundTrip(c: Conn, n: int, linger: bool, rest: string)
    requires InHeaders(c) && -0x8000_0000 <= n < 0x8000_0000
    requires Unread(c) == HeaderText(n, linger) + rest
    ensures var (h, code) := HeaderPhase(c);
            && Bounds(h) && h.contentLength == n && h.linger == (c.linger || linger)
            && (if n == 0 then code == GetRequest else code == NoRequest && h.state == Content && Unread(h) == rest)
  {
    hide HeaderPhase, HeaderText, ReadHeaders, Settled, StringAt, Unread;
    HeadersRefine(c);
    PrintedHeadersRead(Seen(c), n, linger, rest);
  }

  // ----- cgi -----

  /** cgi is set by POST and never reset: it tells a POST from a GET if and only if it was
      not set when the connection was initialised. */
  lemma {:induction false} CgiIsSticky(c: Conn)
    requires Good(c) && c.state == RequestLine ==> c.verb == GET
    requires Good(c)
    ensures var h := HeaderPhase(c).0; h.cgi == (c.cgi || (c.state == RequestLine && h.verb == POST))
    ensures c.state != RequestLine ==> HeaderPhase(c).0.verb == c.verb
    decreases c.readIdx - c.checkIdx
  {
    hide ParseLine, OnRequestLine, OnHeader;
    if c.state != Content {
      var (l, status) := ParseLine(c);
      ParseLineGood(c);
      if status == LineOk {
        LineComplete(c);
        CgiStep(l);
        var (d, code) := OnLine(l);
        if code == NoRequest {
          CgiIsSticky(d);
        }
      }
    }
  }

  lemma CgiStep(l: Conn)
    requires AtLine(l)
    ensures l.state == RequestLine && l.verb == GET ==>
              var (d, code) := OnRequestLine(l);
              d.cgi == (l.cgi || d.verb == POST) && (code == NoRequest ==> d.state == Header)
    ensures var d := OnHeader(l).0;
            d.cgi == l.cgi && d.verb == l.verb && (l.state == Header ==> d.state != RequestLine)
  {
    hide ParseRequestLine, ParseHeader, CStr, PutLine;
  }

  /** In a request that chunks make, cgi is set if it was before, and by POST. */
  lemma ServeCgi(c: Conn, chunks: seq<seq<char>>)
    requires FreshConn(c) && Entry(c) && |c.buf| == READ_BUFFER_SIZE
    requires |Concat(chunks)| < READ_BUFFER_SIZE && NulFree(Concat(chunks))
    requires chunks != [] && SafeCuts(chunks)
    ensures Fits(c, Concat(chunks))
    ensures var (d, code) := Serve(c, chunks); code == GetRequest ==> d.cgi == (c.cgi || d.verb == POST)
  {
    hide Process, HeaderPhase, Serve, SafeCuts, CleanCuts;
    CleanCutsIff(c, chunks);
    ChunkingIndependence(c, chunks);
    var fed := Feed(c, Concat(chunks));
    CgiIsSticky(fed);
    if Process(fed).1 == GetRequest {
      BodyKeepsCgi(fed);
    }
  }

  lemma BodyKeepsCgi(c: Conn)
    requires Entry(c) && Process(c).1 == GetRequest
    ensures var d, h := Process(c).0, HeaderPhase(c).0; d.cgi == h.cgi && d.verb == h.verb
  {
    hide Loop, HeaderPhase, ParseLine;
    var (h, code) := HeaderPhase(c);
    HeaderPhaseEntry(c);
    LoopIsHeaderThenBody(c);
    if h.state == Content && code == NoRequest {
      if Waiting(h) {
        WaitingStep(h);
        assert false;
      }
      BodyDecided(h);
    }
  }

  /** On a connection initialised with the given cgi, reading s leaves cgi set just for a POST. */
  ghost predicate CgiTells(cgi: bool, body: Option<nat>, s: string)
  {
    |s| <= READ_BUFFER_SIZE ==>
      var h := HeaderPhase(Feed(Init(cgi, body), s)).0;
      h.cgi <==> h.verb == POST
  }

  lemma CgiMeansPostIff(cgi: bool, body: Option<nat>)
    ensures (forall s :: CgiTells(cgi, body, s)) <==> !cgi
  {
    hide HeaderPhase, Init, Feed;
    forall s ensures !cgi ==> CgiTells(cgi, body, s) {
      if |s| <= READ_BUFFER_SIZE {
        InitIsFresh(cgi, body);
        CgiIsSticky(Feed(Init(cgi, body), s));
      }
    }
    if cgi {
      InitIsFresh(cgi, body);
      CgiIsSticky(Feed(Init(cgi, body), ""));
      NothingYet(cgi, body);
      assert !CgiTells(cgi, body, "");
    }
  }

  lemma NothingYet(cgi: bool, body: Option<nat>)
    ensures HeaderPhase(Feed(Init(cgi, body), "")).0.verb == GET
  {
    assert ParseLine(Feed(Init(cgi, body), "")).1 == LineOpen;
  }
}

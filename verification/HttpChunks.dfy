/** Delivering a request in pieces: when process_read ends up where it would have ended up had
    the bytes come at once. */
module HttpChunks {
  import opened CString
  import opened HttpLine
  import opened HttpMachine

  predicate Fits(c: Conn, bytes: seq<char>)
  {
    Good(c) && c.readIdx + |bytes| <= |c.buf|
  }

  lemma FeedTwice(c: Conn, a: seq<char>, b: seq<char>)
    requires Fits(c, a + b)
    ensures Fits(c, a) && Fits(Feed(c, a), b) && Feed(Feed(c, a), b) == Feed(c, a + b)
  {
    FeedMore(c, a, b);
  }

  // ----- One step -----

  /** Ending a line and receiving more commute. */
  lemma CutFeed(c: Conn, b: seq<char>, p: nat)
    requires 0 <= c.readIdx && c.readIdx + |b| <= |c.buf| && p + 1 < c.readIdx
    ensures var two := c.buf[p := NUL][p + 1 := NUL];
            Feed(c.(buf := two, checkIdx := p + 2), b)
            == Feed(c, b).(buf := Feed(c, b).buf[p := NUL][p + 1 := NUL], checkIdx := p + 2)
  {
    hide Feed, Good;
    var one := Feed(c.(buf := c.buf[p := NUL][p + 1 := NUL], checkIdx := p + 2), b).buf;
    var all := Feed(c, b).buf[p := NUL][p + 1 := NUL];
    assert |one| == |all|;
    forall k | 0 <= k < |all| ensures one[k] == all[k] {
      assert k != p && k != p + 1 ==> all[k] == Feed(c, b).buf[k];
    }
    assert one == all;
  }

  lemma CrLfFeed(c: Conn, b: seq<char>)
    requires Fits(c, b) && c.checkIdx + 1 < c.readIdx
    requires c.buf[c.checkIdx] == '\r' && c.buf[c.checkIdx + 1] == '\n'
    ensures ParseLine(Feed(c, b)) == (Feed(ParseLine(c).0, b), LineOk)
  {
    hide Feed, ParseLine;
    EndsLine(c);
    EndsLine(Feed(c, b));
    CutFeed(c, b, c.checkIdx);
  }

  lemma EndsLine(c: Conn)
    requires Bounds(c) && c.checkIdx + 1 < c.readIdx
    requires c.buf[c.checkIdx] == '\r' && c.buf[c.checkIdx + 1] == '\n'
    ensures ParseLine(c) ==
            (c.(buf := c.buf[c.checkIdx := NUL][c.checkIdx + 1 := NUL], checkIdx := c.checkIdx + 2), LineOk)
  {
  }

  /** Feeding does not look at m_check_idx. */
  lemma AtOther(c: Conn, b: seq<char>, checkIdx: int)
    requires 0 <= c.readIdx && c.readIdx + |b| <= |c.buf|
    ensures Feed(c.(checkIdx := checkIdx), b) == Feed(c, b).(checkIdx := checkIdx)
  {
  }

  /** More input changes nothing about a finished or rejected line, and resumes an open one. */
  lemma {:induction false} ParseLineFeed(c: Conn, b: seq<char>)
    requires Fits(c, b)
    ensures var (d, status) := ParseLine(c);
            if status == LineOpen then ParseLine(Feed(c, b)) == ParseLine(Feed(d, b))
            else ParseLine(Feed(c, b)) == (Feed(d, b), status)
    decreases c.readIdx - c.checkIdx
  {
    hide Feed;
    var p := c.checkIdx;
    if p < c.readIdx {
      assert p > 0 ==> Feed(c, b).buf[p - 1] == c.buf[p - 1];
      if c.buf[p] == '\r' {
        if p + 1 < c.readIdx && c.buf[p + 1] == '\n' {
          CrLfFeed(c, b);
        }
      } else if c.buf[p] != '\n' {
        AtOther(c, b, p + 1);
        ParseLineFeed(c.(checkIdx := p + 1), b);
      }
    }
  }

  lemma TakeFeed(c: Conn, out: RequestOut, b: seq<char>)
    requires Fits(c, b) && c.startLine + |out.seg| == c.checkIdx && NoCr(out.seg)
    ensures TakeRequestLine(Feed(c, b), out) == Feed(TakeRequestLine(c, out), b)
  {
    assert TakeRequestLine(Feed(c, b), out).buf == Feed(TakeRequestLine(c, out), b).buf;
  }

  /** The rewriting of a request line stays left of m_check_idx, so bytes behind it do not matter. */
  lemma OnRequestLineFeed(c: Conn, b: seq<char>)
    requires AtLine(c) && Fits(c, b)
    ensures AtLine(Feed(c, b))
    ensures OnRequestLine(Feed(c, b)) == (Feed(OnRequestLine(c).0, b), OnRequestLine(c).1)
  {
    hide ParseRequestLine, Feed, TakeRequestLine;
    var line := c.buf[c.startLine..c.checkIdx];
    assert Feed(c, b).buf[c.startLine..c.checkIdx] == line;
    TakeFeed(c, ParseRequestLine(line), b);
  }

  lemma OnHeaderFeed(c: Conn, b: seq<char>)
    requires AtLine(c) && Fits(c, b)
    ensures AtLine(Feed(c, b))
    ensures OnHeader(Feed(c, b)) == (Feed(OnHeader(c).0, b), OnHeader(c).1)
  {
    hide ParseHeader;
    var line := c.buf[c.startLine..c.checkIdx];
    assert Feed(c, b).buf[c.startLine..c.checkIdx] == line;
    match ParseHeader(CStr(line, 0))
    case EndOfHeaders =>
    case KeepAlive =>
    case Length(n) =>
    case Host(at) =>
    case Other =>
  }

  // ----- The header phase -----

  /** process_read as far as the end of the headers. */
  function HeaderPhase(c: Conn): (r: (Conn, Code))
    requires Good(c)
    ensures Good(r.0) && |r.0.buf| == |c.buf| && r.0.readIdx == c.readIdx && c.checkIdx <= r.0.checkIdx
    ensures r.0.state == Content && c.state != Content ==> r.1 == NoRequest && r.0.startLine == r.0.checkIdx
    decreases c.readIdx - c.checkIdx
  {
    if c.state == Content then (c, NoRequest)
    else
      var (l, status) := ParseLine(c);
      ParseLineGood(c);
      if status != LineOk then (l, NoRequest)
      else
        LineComplete(c);
        var (d, code) := OnLine(l);
        if code == NoRequest then HeaderPhase(d) else (d, code)
  }

  lemma {:induction false} LoopIsHeaderThenBody(c: Conn)
    requires Good(c)
    ensures var (h, code) := HeaderPhase(c);
            Process(c) == if h.state == Content && code == NoRequest then Loop(h, true) else (h, code)
    decreases c.readIdx - c.checkIdx
  {
    if c.state != Content {
      var (l, status) := ParseLine(c);
      ParseLineGood(c);
      if status == LineOk {
        LineComplete(c);
        var (d, code) := OnLine(l);
        if code == NoRequest {
          LoopIsHeaderThenBody(d);
        }
      }
    }
  }

  /** The header phase never minds how its bytes were cut. */
  lemma {:induction false} HeaderPhaseFeed(c: Conn, b: seq<char>)
    requires Fits(c, b)
    ensures var (h, code) := HeaderPhase(c);
            if code != NoRequest || h.state == Content then HeaderPhase(Feed(c, b)) == (Feed(h, b), code)
            else HeaderPhase(Feed(c, b)) == HeaderPhase(Feed(h, b))
    decreases c.readIdx - c.checkIdx
  {
    hide OnRequestLine, OnHeader, ParseLine, Feed;
    if c.state != Content {
      var (l, status) := ParseLine(c);
      ParseLineGood(c);
      ParseLineFeed(c, b);
      if status == LineOk {
        LineComplete(c);
        if l.state == RequestLine {
          OnRequestLineFeed(l, b);
        } else {
          OnHeaderFeed(l, b);
        }
        var (d, code) := OnLine(l);
        if code == NoRequest {
          HeaderPhaseFeed(d, b);
        }
      } else if status == LineBad {
        ParseLineAgain(c, b);
      }
    }
  }

  /** A rejected line is rejected again. */
  lemma {:induction false} ParseLineAgain(c: Conn, b: seq<char>)
    requires Fits(c, b) && ParseLine(c).1 == LineBad
    ensures ParseLine(Feed(ParseLine(c).0, b)) == ParseLine(Feed(c, b))
  {
    ParseLineFeed(c, b);
    StaysBad(c);
    ParseLineFeed(ParseLine(c).0, b);
  }

  lemma {:induction false} StaysBad(c: Conn)
    requires Good(c) && ParseLine(c).1 == LineBad
    ensures Good(ParseLine(c).0) && ParseLine(ParseLine(c).0) == ParseLine(c)
    decreases c.readIdx - c.checkIdx
  {
    var p := c.checkIdx;
    if c.buf[p] != '\r' && c.buf[p] != '\n' {
      StaysBad(c.(checkIdx := p + 1));
    }
  }

  // ----- The body -----

  /** parse_content is waiting for the rest of the body. */
  predicate Waiting(c: Conn)
  {
    && Good(c) && c.state == Content && c.startLine == c.checkIdx
    && c.readIdx < c.contentLength + c.checkIdx <= INT_MAX
  }

  /** The delivered part of a body that parse_line, which runs over it, cannot get past. */
  predicate Harmless(part: seq<char>)
  {
    part == [] || part[0] == '\n' || (part[0] == '\r' && !(|part| > 1 && part[1] == '\n'))
  }

  /** After an incomplete body process_read runs parse_line over it; the position moves unless the
      first byte stops it. */
  lemma WaitingStep(c: Conn)
    requires Waiting(c)
    ensures Process(c).1 == NoRequest || (Process(c).1 == Fault && c.contentLength + Process(c).0.checkIdx > INT_MAX)
    ensures Process(c).0.state == Content && Process(c).0.contentLength == c.contentLength
    ensures if Harmless(c.buf[c.checkIdx..c.readIdx]) then Process(c) == (c, NoRequest)
            else Process(c).0.checkIdx > c.checkIdx
  {
    ParseLineGood(c);
    var (l, status) := ParseLine(c);
    var part := c.buf[c.checkIdx..c.readIdx];
    if part != [] {
      assert part[0] == c.buf[c.checkIdx];
      assert |part| > 1 ==> part[1] == c.buf[c.checkIdx + 1];
    }
    StillWaiting(c, false);
  }

  /** Moving on never completes a body that is waited for. */
  lemma {:induction false} StillWaiting(c: Conn, lineOk: bool)
    requires Good(c) && c.state == Content && c.readIdx < c.contentLength + c.checkIdx
    ensures var (d, code) := Loop(c, lineOk);
            code == NoRequest || (code == Fault && c.contentLength + d.checkIdx > INT_MAX)
    ensures Loop(c, lineOk).0.state == Content && Loop(c, lineOk).0.contentLength == c.contentLength
    decreases 2 * (c.readIdx - c.checkIdx) + if lineOk then 1 else 0
  {
    if lineOk {
      if c.contentLength + c.checkIdx <= INT_MAX {
        StillWaiting(OnContent(c).0, false);
      }
    } else {
      ParseLineGood(c);
      var (l, status) := ParseLine(c);
      if status == LineOk && l.contentLength + l.checkIdx <= INT_MAX {
        StillWaiting(OnContent(l).0, false);
      }
    }
  }

  // ----- Any delivery -----

  /** Calls of process_read start where the last one suspended. */
  predicate Entry(c: Conn)
  {
    Good(c) && (c.state == Content ==> c.startLine == c.checkIdx)
  }

  /** The bytes do not end inside a body, or only where that does no harm. */
  predicate CleanCut(c: Conn, bytes: seq<char>)
    requires Entry(c) && Fits(c, bytes)
  {
    var (h, code) := HeaderPhase(Feed(c, bytes));
    code == NoRequest && Waiting(h) ==> Harmless(h.buf[h.checkIdx..h.readIdx])
  }

  /** The same parse, up to bytes that one of the two has not received yet. */
  predicate SameParse(d: Conn, e: Conn, code: Code)
  {
    && |d.buf| == |e.buf| && 0 <= d.readIdx <= |d.buf|
    && e.(buf := d.buf, readIdx := d.readIdx) == d
    && e.buf[..d.readIdx] == d.buf[..d.readIdx]
    && (code == GetRequest && d.state == Content && d.contentLength >= 0
        && d.body.Some? && d.body.value <= |d.buf| ==>
          CStr(d.buf, d.body.value) == CStr(e.buf, d.body.value))
  }

  lemma HeaderPhaseEntry(c: Conn)
    requires Entry(c)
    ensures Entry(HeaderPhase(c).0)
    ensures HeaderPhase(c).1 != NoRequest ==> HeaderPhase(c).0.state != Content
  {
    hide ParseLine, OnRequestLine, OnHeader;
  }

  lemma ResumeHeaders(c: Conn, b: seq<char>, d: Conn)
    requires Entry(c) && Fits(c, b) && Fits(c, []) && CleanCut(c, [])
    requires Process(c) == (d, NoRequest)
    ensures Entry(d) && Fits(d, b)
    ensures HeaderPhase(Feed(d, b)) == HeaderPhase(Feed(c, b))
  {
    hide Loop, OnRequestLine, OnHeader, ParseLine, OnContent;
    var (h, code) := HeaderPhase(c);
    assert Feed(c, []) == c;
    LoopIsHeaderThenBody(c);
    HeaderPhaseFeed(c, b);
    if h.state == Content && code == NoRequest {
      BodyGivesUp(h);
      WaitingStep(h);
    }
  }

  /** A clean cut that asks for more is resumed as if there had been no cut. */
  lemma Resume(c: Conn, b: seq<char>, d: Conn)
    requires Entry(c) && Fits(c, b) && Fits(c, []) && CleanCut(c, [])
    requires Process(c) == (d, NoRequest)
    ensures Entry(d) && Fits(d, b)
    ensures HeaderPhase(Feed(d, b)) == HeaderPhase(Feed(c, b))
    ensures Process(Feed(d, b)) == Process(Feed(c, b))
  {
    hide Process, Loop, HeaderPhase;
    ResumeHeaders(c, b, d);
    LoopIsHeaderThenBody(Feed(c, b));
    LoopIsHeaderThenBody(Feed(d, b));
  }

  lemma BodyGivesUp(h: Conn)
    requires Entry(h) && h.state == Content && Process(h).1 == NoRequest
    ensures Waiting(h)
  {
  }

  /** A body that is not waited for is decided by parse_content alone. */
  lemma BodyDecided(h: Conn)
    requires Entry(h) && h.state == Content && !Waiting(h)
    ensures Process(h) == OnContent(h) && Process(h).1 != NoRequest
  {
  }

  lemma StopInBody(h: Conn, b: seq<char>)
    requires Entry(h) && h.state == Content && Fits(h, b) && !Waiting(h)
    ensures !Waiting(Feed(h, b)) && OnContent(Feed(h, b)).1 == OnContent(h).1
    ensures SameParse(OnContent(h).0, OnContent(Feed(h, b)).0, OnContent(h).1)
  {
    var (d, code) := OnContent(h);
    var (e, _) := OnContent(Feed(h, b));
    assert e.buf[..d.readIdx] == d.buf[..d.readIdx];
    if code == GetRequest && d.contentLength >= 0 {
      SameBody(d.buf, e.buf, h.startLine, h.startLine + h.contentLength);
    }
  }

  lemma SameBody(buf: seq<char>, other: seq<char>, s: nat, end: nat)
    requires s <= end < |buf| == |other| && buf[end] == NUL && other[end] == NUL
    requires forall k :: s <= k < end ==> buf[k] == other[k]
    ensures CStr(buf, s) == CStr(other, s)
  {
    CStrEnds(buf, s, end);
    CStrIs(other, s, CStr(buf, s));
  }

  /** The first result other than NO_REQUEST does not depend on what comes after it. */
  lemma Stop(c: Conn, b: seq<char>)
    requires Entry(c) && Fits(c, b) && CleanCut(c, [])
    requires Process(c).1 != NoRequest
    ensures Process(Feed(c, b)).1 == Process(c).1
    ensures SameParse(Process(c).0, Process(Feed(c, b)).0, Process(c).1)
  {
    hide Loop, HeaderPhase, OnContent, ParseLine;
    var (h, code) := HeaderPhase(c);
    assert Feed(c, []) == c;
    HeaderPhaseEntry(c);
    LoopIsHeaderThenBody(c);
    HeaderPhaseFeed(c, b);
    LoopIsHeaderThenBody(Feed(c, b));
    if h.state == Content && code == NoRequest {
      if Waiting(h) {
        WaitingStep(h);
        assert false;
      }
      StopInBody(h, b);
      BodyDecided(h);
      BodyDecided(Feed(h, b));
    } else {
      assert Feed(h, b).buf[..h.readIdx] == h.buf[..h.readIdx];
    }
  }

  /** read() and process_read once per chunk, until there is a result. */
  function Serve(c: Conn, chunks: seq<seq<char>>): (Conn, Code)
    requires Fits(c, Concat(chunks))
    decreases |chunks|
  {
    if chunks == [] then (c, NoRequest)
    else
      FeedTwice(c, chunks[0], Concat(chunks[1..]));
      var (d, code) := Process(Feed(c, chunks[0]));
      if code == NoRequest then Serve(d, chunks[1..]) else (d, code)
  }

  ghost predicate CleanCuts(c: Conn, chunks: seq<seq<char>>)
    requires Entry(c) && Fits(c, Concat(chunks))
  {
    forall n :: 0 < n < |chunks| ==> CleanAt(c, chunks, n)
  }

  /** The cut behind the first n chunks. */
  predicate CleanAt(c: Conn, chunks: seq<seq<char>>, n: nat)
    requires Entry(c) && n <= |chunks|
  {
    Fits(c, Concat(chunks[..n])) && CleanCut(c, Concat(chunks[..n]))
  }

  /** Chunking independence: whatever the chunks, as long as none ends harmfully inside a body,
      the result, the indices, the parser state and the parsed fields are those of delivering
      all bytes at once. */
  lemma {:induction false} ChunkingIndependence(c: Conn, chunks: seq<seq<char>>)
    requires Entry(c) && Fits(c, Concat(chunks)) && chunks != []
    requires CleanCuts(c, chunks)
    ensures var (d, code) := Serve(c, chunks);
            var (e, code') := Process(Feed(c, Concat(chunks)));
            && code' == code && SameParse(d, e, code)
            && (code == NoRequest ==> e == d)
    decreases |chunks|
  {
    hide Process, HeaderPhase, CleanAt, CleanCut;
    var first, rest := chunks[0], chunks[1..];
    FeedTwice(c, first, Concat(rest));
    FirstCut(c, chunks);
    var c1 := Feed(c, first);
    var (d, code) := Process(c1);
    if rest == [] {
      assert Concat(chunks) == first;
    } else {
      assert CleanAt(c, chunks, 1);
      if code == NoRequest {
        Resume(c1, Concat(rest), d);
        CutsCarryOver(c, chunks, d);
        ChunkingIndependence(d, rest);
      } else {
        Stop(c1, Concat(rest));
      }
    }
  }

  /** Behind a clean cut, the next cut is as clean for the suspended parser as from the start. */
  lemma CutCarriesOver(c: Conn, first: seq<char>, x: seq<char>)
    requires Entry(c) && Fits(c, first + x)
    requires Fits(c, first) && Entry(Feed(c, first)) && CleanCut(Feed(c, first), [])
    requires Process(Feed(c, first)).1 == NoRequest
    ensures var d := Process(Feed(c, first)).0;
            Entry(d) && Fits(d, x) && (CleanCut(d, x) <==> CleanCut(c, first + x))
  {
    hide Process, HeaderPhase;
    FeedTwice(c, first, x);
    Resume(Feed(c, first), x, Process(Feed(c, first)).0);
  }

  lemma ConcatFirst(chunks: seq<seq<char>>, n: nat)
    requires n < |chunks|
    ensures Concat(chunks[..n + 1]) == chunks[0] + Concat(chunks[1..][..n])
  {
    assert chunks[..n + 1][1..] == chunks[1..][..n];
  }

  /** A prefix of what fits fits. */
  lemma {:induction false} PrefixLength(chunks: seq<seq<char>>, n: nat)
    requires n <= |chunks|
    ensures |Concat(chunks[..n])| <= |Concat(chunks)|
    ensures Concat(chunks[..n]) == Concat(chunks)[..|Concat(chunks[..n])|]
    decreases n
  {
    if n > 0 {
      ConcatFirst(chunks, n - 1);
      PrefixLength(chunks[1..], n - 1);
    }
  }

  lemma CutsCarryOver(c: Conn, chunks: seq<seq<char>>, d: Conn)
    requires Entry(c) && Fits(c, Concat(chunks)) && |chunks| > 1
    requires CleanAt(c, chunks, 1) && Fits(c, chunks[0])
    requires Process(Feed(c, chunks[0])) == (d, NoRequest) && Entry(d) && Fits(d, Concat(chunks[1..]))
    ensures CleanCuts(d, chunks[1..]) <==> CleanCuts(c, chunks)
  {
    hide Process, HeaderPhase, CleanAt;
    forall n | 0 < n < |chunks| - 1
      ensures CleanAt(d, chunks[1..], n) <==> CleanAt(c, chunks, n + 1)
    {
      CutAtCarriesOver(c, chunks, d, n);
    }
    if CleanCuts(d, chunks[1..]) {
      forall n | 0 < n < |chunks| ensures CleanAt(c, chunks, n) {
        assert n > 1 ==> CleanAt(d, chunks[1..], n - 1);
      }
    }
  }

  lemma CutAtCarriesOver(c: Conn, chunks: seq<seq<char>>, d: Conn, n: nat)
    requires Entry(c) && Fits(c, Concat(chunks)) && 0 < n < |chunks| - 1
    requires CleanAt(c, chunks, 1) && Fits(c, chunks[0])
    requires Process(Feed(c, chunks[0])) == (d, NoRequest) && Entry(d) && Fits(d, Concat(chunks[1..]))
    ensures CleanAt(d, chunks[1..], n) <==> CleanAt(c, chunks, n + 1)
  {
    hide Process, HeaderPhase, CleanCut;
    FirstCut(c, chunks);
    ConcatFirst(chunks, n);
    PrefixLength(chunks, n + 1);
    CutCarriesOver(c, chunks[0], Concat(chunks[1..][..n]));
  }

  /** The first cut, seen from the state behind the first chunk. */
  lemma FirstCut(c: Conn, chunks: seq<seq<char>>)
    requires Entry(c) && chunks != [] && Fits(c, chunks[0])
    ensures Entry(Feed(c, chunks[0])) && Fits(Feed(c, chunks[0]), [])
    ensures CleanAt(c, chunks, 1) <==> CleanCut(Feed(c, chunks[0]), [])
  {
    hide HeaderPhase;
    assert chunks[..1] == [chunks[0]] && Concat([chunks[0]]) == chunks[0] + Concat([]) == chunks[0];
    assert Feed(Feed(c, chunks[0]), []) == Feed(c, chunks[0]);
  }

  // ----- Cuts inside a body -----

  /** Delivered at once, the body is read whole. */
  lemma Uncut(c: Conn, b: seq<char>, h: Conn)
    requires Entry(c) && c.readIdx + |b| < |c.buf| == READ_BUFFER_SIZE
    requires HeaderPhase(c) == (h, NoRequest) && Waiting(h)
    requires c.readIdx + |b| >= h.contentLength + h.checkIdx
    ensures Entry(h) && Fits(h, b) && Fits(c, b) && Good(Feed(h, b)) && Good(Feed(c, b))
    ensures Process(Feed(c, b)) == Process(Feed(h, b))
    ensures Process(Feed(c, b)).1 == GetRequest && Process(Feed(c, b)).0.checkIdx == h.checkIdx
    ensures Process(c) == Process(h)
  {
    hide Loop, HeaderPhase, ParseLine;
    LoopIsHeaderThenBody(c);
    HeaderPhaseEntry(c);
    HeaderPhaseFeed(c, b);
    LoopIsHeaderThenBody(Feed(c, b));
    BodyDecided(Feed(h, b));
  }

  lemma FedStillWaiting(d: Conn, b: seq<char>)
    requires Good(d) && Fits(d, b) && d.state == Content && |d.buf| == READ_BUFFER_SIZE
    requires d.readIdx + |b| < d.contentLength + d.checkIdx
    requires d.contentLength <= READ_BUFFER_SIZE
    ensures Process(Feed(d, b)).1 == NoRequest
  {
    StillWaiting(Feed(d, b), true);
  }

  /** A body cut in two is put together again if and only if the cut is harmless: c has received
      the head and part of the body, b is the rest and maybe more. */
  lemma BodyCutIff(c: Conn, b: seq<char>, h: Conn, d: Conn)
    requires Entry(c) && c.readIdx + |b| < |c.buf| == READ_BUFFER_SIZE
    requires HeaderPhase(c) == (h, NoRequest) && Waiting(h) && d == Process(c).0
    requires c.readIdx + |b| >= h.contentLength + h.checkIdx
    ensures Process(c).1 == NoRequest && Fits(d, b)
    ensures Process(Feed(d, b)) == Process(Feed(c, b)) <==> Harmless(h.buf[h.checkIdx..h.readIdx])
    ensures Process(Feed(c, b)).1 == GetRequest
    ensures c.readIdx + |b| == h.contentLength + h.checkIdx ==>
              (Process(Feed(d, b)).1 == GetRequest <==> Harmless(h.buf[h.checkIdx..h.readIdx]))
  {
    hide Process, Loop, HeaderPhase, ParseLine, Harmless;
    Uncut(c, b, h);
    WaitingStep(h);
    if Harmless(h.buf[h.checkIdx..h.readIdx]) {
      assert d == h;
    } else {
      assert Process(Feed(d, b)).0.checkIdx >= d.checkIdx;
      if c.readIdx + |b| == h.contentLength + h.checkIdx {
        FedStillWaiting(d, b);
      }
    }
  }
}

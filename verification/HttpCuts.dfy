/** Which deliveries do no harm: a condition on the bytes that a sender can check, and both
    directions of chunking independence. */
module HttpCuts {
  import opened Wrappers
  import opened CString
  import opened HttpLine
  import opened HttpMachine
  import opened HttpChunks
  import opened HttpReference
  import opened HttpRefinement

  // ----- The condition on the bytes -----

  /** Ending a delivery after p does no harm: p does not end inside a body, or only with a part of
      it that parse_line cannot get past. A body whose end overflows is never waited for. */
  predicate SafeCut(p: string)
  {
    match ReadRequest(p)
    case Body(r, part) => |part| < r.length <= INT_MAX - (|p| - |part|) ==> Harmless(part)
    case _ => true
  }

  predicate SafeCuts(chunks: seq<string>)
  {
    forall n :: 0 < n < |chunks| ==> SafeCut(Concat(chunks[..n]))
  }

  /** The parser's own state after the head says the same as the bytes. */
  lemma CleanCutIff(c: Conn, p: string)
    requires FreshConn(c) && Entry(c) && |p| <= |c.buf| && NulFree(p)
    ensures CleanCut(c, p) <==> SafeCut(p)
  {
    hide HeaderPhase, ReadRequest, Settled, StringAt, Harmless;
    ParserRefines(c, p);
    var (h, code) := HeaderPhase(Feed(c, p));
    assert h.readIdx == |p|;
  }

  lemma CleanCutsIff(c: Conn, chunks: seq<string>)
    requires FreshConn(c) && Entry(c) && |Concat(chunks)| <= |c.buf| && NulFree(Concat(chunks))
    ensures Fits(c, Concat(chunks)) && (CleanCuts(c, chunks) <==> SafeCuts(chunks))
  {
    hide CleanCut, SafeCut;
    forall n | 0 < n < |chunks|
      ensures CleanAt(c, chunks, n) <==> SafeCut(Concat(chunks[..n]))
    {
      PrefixLength(chunks, n);
      CleanCutIff(c, Concat(chunks[..n]));
    }
  }

  /** In terms of the whole message p + q: the cut is safe unless it falls strictly inside the body
      and leaves a part there that parse_line gets past. */
  lemma SafeCutIff(p: string, q: string)
    ensures SafeCut(p) <==>
            match ReadRequest(p + q)
            case Body(r, rest) =>
              var head := |p + q| - |rest|;
              head < |p| < head + r.length <= INT_MAX ==> Harmless((p + q)[head..|p|])
            case _ => true
  {
    hide ReadRequest, Harmless;
    HeadGrows(p, q);
    if ReadRequest(p).Body? {
      var part := ReadRequest(p).rest;
      BodyIsSuffix(p);
      assert (p + q)[|p| - |part|..|p|] == part;
      assert |part + q| == |part| + |q|;
      assert part == [] ==> Harmless(part) by { EmptyIsHarmless(); }
    }
  }

  lemma EmptyIsHarmless()
    ensures Harmless([])
  {
  }

  lemma BodyIsSuffix(s: string)
    ensures match ReadRequest(s)
            case Body(_, rest) => rest == s[|s| - |rest|..]
            case _ => true
  {
    hide NextLine, ReadHeaders, ReadRequestLine;
    if NextLine(s).Some? {
      NextLineSplits(s);
      var (line, tail) := NextLine(s).value;
      var v := ReadRequestLine(line);
      if v.Accept? {
        RestIsSuffix(Request(v.verb, v.target, None, 0, false), tail);
      }
    }
  }

  lemma {:induction false} RestIsSuffix(r: Request, s: string)
    ensures match ReadHeaders(r, s)
            case Body(_, rest) => rest == s[|s| - |rest|..]
            case _ => true
    decreases |s|
  {
    hide NextLine, ReadHeader;
    if NextLine(s).Some? {
      NextLineSplits(s);
      var (line, tail) := NextLine(s).value;
      if line != [] {
        RestIsSuffix(ReadHeader(r, line), tail);
      }
    }
  }

  /** p ends strictly inside the body of s. */
  predicate InsideBody(p: string, s: string)
  {
    match ReadRequest(s)
    case Body(r, rest) => |s| - |rest| < |p| < |s| - |rest| + r.length
    case _ => false
  }

  lemma OutsideCut(p: string, s: string)
    requires |p| <= |s| && p == s[..|p|] && !InsideBody(p, s)
    ensures SafeCut(p)
  {
    hide ReadRequest, SafeCut, Harmless;
    assert s == p + s[|p|..];
    SafeCutIff(p, s[|p|..]);
    EmptyIsHarmless();
  }

  /** Chunks that do not end inside a body are safe; for a message without body any chunks are. */
  lemma OutsideIsSafe(chunks: seq<string>)
    requires forall n :: 0 < n < |chunks| ==> !InsideBody(Concat(chunks[..n]), Concat(chunks))
    ensures SafeCuts(chunks)
  {
    hide SafeCut, InsideBody;
    forall n | 0 < n < |chunks| ensures SafeCut(Concat(chunks[..n])) {
      PrefixLength(chunks, n);
      OutsideCut(Concat(chunks[..n]), Concat(chunks));
    }
  }

  // ----- What a harmful cut does -----

  lemma {:induction false} ServeMoves(c: Conn, chunks: seq<seq<char>>)
    requires Fits(c, Concat(chunks))
    ensures Good(Serve(c, chunks).0) && c.checkIdx <= Serve(c, chunks).0.checkIdx
    decreases |chunks|
  {
    hide Process;
    if chunks != [] {
      FeedTwice(c, chunks[0], Concat(chunks[1..]));
      var (d, code) := Process(Feed(c, chunks[0]));
      if code == NoRequest {
        ServeMoves(d, chunks[1..]);
      }
    }
  }

  /** Once more is waited for than is left to come, there is no request any more. */
  lemma {:induction false} LostForever(d: Conn, chunks: seq<seq<char>>)
    requires Fits(d, Concat(chunks)) && d.state == Content
    requires d.readIdx + |Concat(chunks)| < d.contentLength + d.checkIdx
    ensures Serve(d, chunks).1 != GetRequest
    decreases |chunks|
  {
    hide Loop;
    if chunks != [] {
      FeedTwice(d, chunks[0], Concat(chunks[1..]));
      var fed := Feed(d, chunks[0]);
      StillWaiting(fed, true);
      if Process(fed).1 == NoRequest {
        LostForever(Process(fed).0, chunks[1..]);
      }
    }
  }

  /** Cuts behind a result are clean. */
  lemma CleanAfterResult(c: Conn, x: seq<char>)
    requires Entry(c) && Fits(c, x) && CleanCut(c, []) && Process(c).1 != NoRequest
    ensures CleanCut(c, x)
  {
    hide Loop, HeaderPhase, OnContent, ParseLine, Harmless;
    var (h, code) := HeaderPhase(c);
    assert Feed(c, []) == c;
    HeaderPhaseEntry(c);
    LoopIsHeaderThenBody(c);
    HeaderPhaseFeed(c, x);
    if h.state == Content && code == NoRequest {
      if Waiting(h) {
        WaitingStep(h);
        assert false;
      }
      StopInBody(h, x);
    }
  }

  lemma AllCleanAfterResult(c: Conn, chunks: seq<seq<char>>)
    requires Entry(c) && Fits(c, Concat(chunks)) && |chunks| > 1
    requires CleanAt(c, chunks, 1) && Fits(c, chunks[0]) && Process(Feed(c, chunks[0])).1 != NoRequest
    ensures CleanCuts(c, chunks)
  {
    hide Process, HeaderPhase, CleanCut;
    FirstCut(c, chunks);
    forall n | 0 < n < |chunks| ensures CleanAt(c, chunks, n) {
      PrefixLength(chunks, n);
      assert chunks[..n] == chunks[..(n - 1) + 1];
      ConcatFirst(chunks, n - 1);
      var x := Concat(chunks[1..][..n - 1]);
      FeedTwice(c, chunks[0], x);
      CleanAfterResult(Feed(c, chunks[0]), x);
      SameCut(c, chunks[0], x);
    }
  }

  lemma SameCut(c: Conn, first: seq<char>, x: seq<char>)
    requires Entry(c) && Fits(c, first + x) && Fits(c, first) && Entry(Feed(c, first)) && Fits(Feed(c, first), x)
    ensures CleanCut(Feed(c, first), x) <==> CleanCut(c, first + x)
  {
    hide HeaderPhase, Harmless;
    FeedTwice(c, first, x);
  }

  /** All of the body has come, and nothing after it. */
  predicate ExactBody(e: Conn) { e.state == Content && e.readIdx == e.contentLength + e.checkIdx }

  /** A harmful cut in the body of c, whose rest is y and maybe more. */
  lemma HarmfulCut(c: Conn, y: seq<char>)
    requires Entry(c) && Fits(c, y) && !CleanCut(c, [])
    requires Process(Feed(c, y)).1 == GetRequest
    ensures var (d, code) := Process(c);
            var e := Process(Feed(c, y)).0;
            && Fits(d, y) && code != GetRequest && e.checkIdx < d.checkIdx
            && (ExactBody(e) ==> d.state == Content && d.readIdx + |y| < d.contentLength + d.checkIdx)
  {
    hide Loop, HeaderPhase, ParseLine, Harmless;
    var h := HeaderPhase(c).0;
    assert Feed(c, []) == c;
    HeaderPhaseEntry(c);
    LoopIsHeaderThenBody(c);
    HeaderPhaseFeed(c, y);
    LoopIsHeaderThenBody(Feed(c, y));
    WaitingStep(h);
    if Waiting(Feed(h, y)) {
      WaitingStep(Feed(h, y));
      assert false;
    }
    BodyDecided(Feed(h, y));
  }

  /** With one harmful cut, a result that comes all the same comes from further on than it should;
      and it does not come at all if the message ends with its body. */
  lemma {:induction false} HarmfulCutShows(c: Conn, chunks: seq<seq<char>>)
    requires Entry(c) && Fits(c, Concat(chunks)) && !CleanCuts(c, chunks)
    requires Process(Feed(c, Concat(chunks))).1 == GetRequest
    ensures var e := Process(Feed(c, Concat(chunks))).0;
            && (Serve(c, chunks).1 == GetRequest ==> e.checkIdx < Serve(c, chunks).0.checkIdx)
            && (ExactBody(e) ==> Serve(c, chunks).1 != GetRequest)
    decreases |chunks|
  {
    hide Process, HeaderPhase, CleanAt, CleanCut, ExactBody;
    var first, rest := chunks[0], chunks[1..];
    FeedTwice(c, first, Concat(rest));
    FirstCut(c, chunks);
    var (d, code) := Process(Feed(c, first));
    if !CleanAt(c, chunks, 1) {
      HarmfulCut(Feed(c, first), Concat(rest));
      if code == NoRequest {
        ServeMoves(d, rest);
        if ExactBody(Process(Feed(c, Concat(chunks))).0) {
          LostForever(d, rest);
        }
      }
    } else if code == NoRequest {
      Resume(Feed(c, first), Concat(rest), d);
      CutsCarryOver(c, chunks, d);
      HarmfulCutShows(d, rest);
    } else {
      AllCleanAfterResult(c, chunks);
    }
  }

  /** Chunking independence in both directions: when one delivery gives a request, chunks give that
      request if and only if every cut is clean. If the message ends with its body, they give a
      request at all only then. */
  lemma ChunkingIff(c: Conn, chunks: seq<seq<char>>)
    requires Entry(c) && Fits(c, Concat(chunks)) && chunks != []
    requires Process(Feed(c, Concat(chunks))).1 == GetRequest
    ensures var (d, code) := Serve(c, chunks);
            var e := Process(Feed(c, Concat(chunks))).0;
            && (code == GetRequest && SameParse(d, e, code) <==> CleanCuts(c, chunks))
            && (ExactBody(e) ==> (code == GetRequest <==> CleanCuts(c, chunks)))
  {
    hide Process, CleanCuts, Serve, ExactBody;
    if CleanCuts(c, chunks) {
      ChunkingIndependence(c, chunks);
    } else {
      HarmfulCutShows(c, chunks);
    }
  }
}

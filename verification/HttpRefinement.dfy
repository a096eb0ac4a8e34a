/** The in-place parser computes what HttpReference says: for input without NUL, the header
    phase of process_read is "split at CR LF, then fold over the lines". */
module HttpRefinement {
  import opened Wrappers
  import opened CString
  import opened HttpLine
  import opened HttpMachine
  import opened HttpChunks
  import opened HttpReference

  predicate NulFree(s: string) { forall k :: 0 <= k < |s| ==> s[k] != NUL }

  // ----- One line -----

  lemma SchemeRefines(seg: seq<char>, at: nat, scheme: string)
    requires at <= |seg|
    ensures var r := SkipScheme(seg, at, scheme);
            var t := Strip(CStr(seg, at), scheme);
            && (r.Some? <==> t.Some?)
            && (r.Some? ==> r.value <= |seg| && CStr(seg, r.value) == t.value)
  {
  }

  /** m_version is an accepted version. */
  ghost predicate ShowsVersion(out: RequestOut)
  {
    && out.version.Set? && out.version.to.Some? && out.version.to.value <= |out.seg|
    && SameText(CStr(out.seg, out.version.to.value), "HTTP/1.1")
  }

  /** Verdict of the reference as result code; an accepted target is the string at m_url, and unless
      the start page has been written over it the version is the string at m_version. */
  ghost predicate Agrees(out: RequestOut, v: Verdict)
  {
    match v
    case Reject => out.code == BadRequest
    case Crash => out.code == Fault
    case Accept(verb, target) =>
      && out.code == NoRequest && out.verb == Some(verb)
      && out.url.Some? && out.url.value + |target| < |out.seg| && CStr(out.seg, out.url.value) == target
      && (target == "/judge.html" || ShowsVersion(out))
  }

  lemma RootRefines(out: RequestOut, u: nat)
    requires u <= |out.seg| && u + |CStr(out.seg, u)| + 11 <= |out.seg| && out.url == Some(u) && out.verb.Some?
    requires ShowsVersion(out)
    ensures var t := CStr(out.seg, u);
            Agrees(Root(out, u), if t == [] || t[0] != '/' then Reject
                                 else Accept(out.verb.value, if |t| == 1 then "/judge.html" else t))
  {
    var t := CStr(out.seg, u);
    if t != [] && t[0] == '/' && |t| == 1 {
      CStrIs(Root(out, u).seg, u, "/judge.html");
    }
  }

  lemma TargetRefines(out: RequestOut, u: nat, sep: nat)
    requires u <= sep && sep + 11 <= |out.seg| && u + |CStr(out.seg, u)| == sep && out.verb.Some?
    requires ShowsVersion(out)
    ensures Agrees(Target(out, u, sep), TargetOf(out.verb.value, CStr(out.seg, u)))
  {
    hide Root, SkipScheme, Strip;
    SchemeRefines(out.seg, u, HTTP);
    var u1 := SkipScheme(out.seg, u, HTTP);
    if u1.Some? {
      SchemeRefines(out.seg, u1.value, HTTPS);
      var u2 := SkipScheme(out.seg, u1.value, HTTPS);
      if u2.Some? {
        RootRefines(out.(url := u2), u2.value);
      }
    }
  }

  lemma AfterUrlRefines(out: RequestOut, u: nat, sep: nat)
    requires IsLine(out.seg) && sep + 1 <= |out.seg| - 2
    requires u <= sep && u + |CStr(out.seg, u)| == sep && out.verb.Some?
    ensures Agrees(AfterUrl(out, u, sep),
                   if EqNoCase(Rest(CStr(out.seg, sep + 1)), VERSION)
                   then TargetOf(out.verb.value, CStr(out.seg, u)) else Reject)
  {
    hide Target, TargetOf, EqNoCase;
    var w := CStr(out.seg, sep + 1);
    CStrTail(out.seg, sep + 1, SkipBlanks(w));
    CStrEnds(out.seg, sep + 1, |out.seg| - 2);
    var v := sep + 1 + SkipBlanks(w);
    CStrEnds(out.seg, v, |out.seg| - 2);
    if EqNoCase(Rest(w), VERSION) {
      assert |Rest(w)| == 8 by { VersionStarts(Rest(w)); }
      EqNoCaseIs(Rest(w), VERSION);
      TargetRefines(out.(version := Set(Some(v))), u, sep);
    }
  }

  lemma CutUrlRefines(out: RequestOut, u: nat)
    requires IsLine(out.seg) && u <= |out.seg| - 2 && out.verb.Some?
    ensures Agrees(CutUrl(out, u), UrlThenVersion(out.verb.value, CStr(out.seg, u)))
  {
    hide AfterUrl, TargetOf, EqNoCase, CStr, FindBlank;
    var i := FindBlank(CStr(out.seg, u));
    if i < |CStr(out.seg, u)| {
      CStrCut(out.seg, u, i);
      CutLine(out.seg, u + i);
      CStrEnds(out.seg, u, |out.seg| - 2);
      AfterUrlRefines(out.(seg := out.seg[u + i := NUL]), u, u + i);
    }
  }

  lemma AfterMethodRefines(out: RequestOut, at: nat)
    requires IsLine(out.seg) && at <= |out.seg| - 2 && out.verb.Some?
    ensures Agrees(AfterMethod(out, at), UrlAndVersion(out.verb.value, CStr(out.seg, at)))
  {
    hide CutUrl, UrlThenVersion, EqNoCase, CStr, FindBlank, SkipBlanks, Agrees;
    var s := CStr(out.seg, at);
    var u := at + SkipBlanks(s);
    CStrTail(out.seg, at, SkipBlanks(s));
    CStrEnds(out.seg, at, |out.seg| - 2);
    CutUrlRefines(out.(url := Some(u)), u);
  }

  lemma MethodNameRefines(out: RequestOut, at: nat)
    requires IsLine(out.seg) && at <= |out.seg| - 2 && out.code == BadRequest
    ensures var name, s := CStr(out.seg, 0), CStr(out.seg, at);
            Agrees(MethodName(out, at),
                   if EqNoCase(name, "GET") then UrlAndVersion(GET, s)
                   else if EqNoCase(name, "POST") then UrlAndVersion(POST, s) else Reject)
  {
    hide AfterMethod, UrlAndVersion, EqNoCase, CStr;
    AfterMethodRefines(out.(verb := Some(GET)), at);
    AfterMethodRefines(out.(verb := Some(POST)), at);
  }

  /** parse_request_line on a line and its two NULs is the reference on the line. */
  lemma RequestLineRefines(line: string)
    requires NulFree(line)
    ensures Agrees(ParseRequestLine(line + [NUL, NUL]), ReadRequestLine(line))
  {
    hide MethodName, UrlAndVersion, EqNoCase, CStr, FindBlank, Agrees;
    var seg := line + [NUL, NUL];
    CStrIs(seg, 0, line);
    if FindBlank(line) < |line| {
      CutLineRefines(seg, line, FindBlank(line));
    } else {
      NoMethodRefines(seg);
    }
  }

  lemma NoMethodRefines(seg: seq<char>)
    ensures Agrees(RequestOut(seg, BadRequest, None, None, Keep), Reject)
  {
  }

  lemma CutLineRefines(seg: seq<char>, line: string, i: nat)
    requires IsLine(seg) && i < |line| <= |seg| - 2 && CStr(seg, 0) == line
    ensures IsLine(seg[i := NUL])
    ensures Agrees(MethodName(RequestOut(seg[i := NUL], BadRequest, None, Some(i + 1), Keep), i + 1),
                   if EqNoCase(line[..i], "GET") then UrlAndVersion(GET, line[i + 1..])
                   else if EqNoCase(line[..i], "POST") then UrlAndVersion(POST, line[i + 1..]) else Reject)
  {
    hide MethodName, UrlAndVersion, EqNoCase, CStr, Agrees;
    CStrCut(seg, 0, i);
    CutLine(seg, i);
    MethodNameRefines(RequestOut(seg[i := NUL], BadRequest, None, Some(i + 1), Keep), i + 1);
  }

  // ----- Lines of the buffer -----

  /** What is left to scan. */
  function Unread(c: Conn): string
    requires Bounds(c)
  {
    c.buf[c.checkIdx..c.readIdx]
  }

  /** At the start of a line parse_line finds a line exactly when the reference does, and hands
      out that line. */
  lemma LineRefines(c: Conn)
    requires Good(c) && c.startLine == c.checkIdx && NulFree(Unread(c))
    ensures var (l, status) := ParseLine(c);
            match NextLine(Unread(c))
            case None => status != LineOk
            case Some((line, rest)) =>
              && status == LineOk && Good(l) && Bounds(l)
              && l.buf[l.startLine..l.checkIdx] == line + [NUL, NUL]
              && Unread(l) == rest && NulFree(rest) && NulFree(line)
              && l.buf[..c.checkIdx] == c.buf[..c.checkIdx]
  {
    hide ParseLine, NextLine, CStr;
    ParseLineGood(c);
    var (l, status) := ParseLine(c);
    var s := Unread(c);
    var n := l.checkIdx - (if status == LineOk then 2 else 0) - c.checkIdx;
    assert forall k :: 0 <= k < |s| ==> s[k] == c.buf[c.checkIdx + k];
    NextLineAt(s, n);
    if status == LineOk {
      assert l.buf[l.startLine..l.checkIdx] == s[..n] + [NUL, NUL];
      assert Unread(l) == s[n + 2..];
      assert l.buf[..c.checkIdx] == c.buf[..c.checkIdx];
    }
  }

  /** The first CR or LF decides the next line. */
  lemma NextLineAt(s: string, n: nat)
    requires n <= |s| && (forall k :: 0 <= k < n ==> s[k] != '\r' && s[k] != '\n')
    requires n < |s| ==> s[n] == '\r' || s[n] == '\n'
    ensures NextLine(s) == if n + 1 < |s| && s[n] == '\r' && s[n + 1] == '\n'
                           then Some((s[..n], s[n + 2..])) else None
  {
    LineEndAt(s, n);
  }

  lemma {:induction false} LineEndAt(s: string, n: nat)
    requires n <= |s| && (forall k :: 0 <= k < n ==> s[k] != '\r' && s[k] != '\n')
    requires n < |s| ==> s[n] == '\r' || s[n] == '\n'
    ensures FindLineEnd(s) == n
  {
    if n > 0 {
      LineEndAt(s[1..], n - 1);
    }
  }

  /** The string at offset o ends before the next line to be scanned, so it is final. */
  predicate Settled(c: Conn, at: Option<nat>)
    requires Bounds(c)
  {
    at.Some? ==> at.value < c.checkIdx && at.value + |CStr(c.buf, at.value)| < c.checkIdx
  }

  function StringAt(c: Conn, at: Option<nat>): Option<string>
    requires Bounds(c) && Settled(c, at)
  {
    if at == None then None else Some(CStr(c.buf, at.value))
  }

  lemma StaysSettled(c: Conn, d: Conn, at: Option<nat>)
    requires Bounds(c) && Bounds(d) && Settled(c, at) && c.checkIdx <= d.checkIdx
    requires d.buf[..c.checkIdx] == c.buf[..c.checkIdx]
    ensures Settled(d, at) && StringAt(d, at) == StringAt(c, at)
  {
    if at.Some? {
      var s := CStr(c.buf, at.value);
      assert forall k :: 0 <= k < c.checkIdx ==> d.buf[..c.checkIdx][k] == c.buf[..c.checkIdx][k];
      CStrIs(d.buf, at.value, s);
    }
  }

  /** Between two header lines. */
  predicate InHeaders(c: Conn)
  {
    && Good(c) && c.startLine == c.checkIdx && c.state == Header && NulFree(Unread(c))
    && c.url.Some? && Settled(c, c.url) && Settled(c, c.host)
  }

  function Seen(c: Conn): Request
    requires Bounds(c) && c.url.Some? && Settled(c, c.url) && Settled(c, c.host)
  {
    Request(c.verb, StringAt(c, c.url).value, StringAt(c, c.host), c.contentLength, c.linger)
  }

  /** What the state and code after the header phase mean. */
  ghost predicate Shows(c: Conn, code: Code, o: Outcome)
  {
    match o
    case More => code == NoRequest && c.state != Content
    case Rejected => code == BadRequest
    case Crashed => code == Fault
    case Ready(r) =>
      && code == GetRequest && c.state == Header
      && Bounds(c) && c.url.Some? && Settled(c, c.url) && Settled(c, c.host) && Seen(c) == r
    case Body(r, rest) =>
      && code == NoRequest && c.state == Content && Good(c) && c.startLine == c.checkIdx
      && c.url.Some? && Settled(c, c.url) && Settled(c, c.host) && Seen(c) == r && Unread(c) == rest
  }

  lemma HeaderStep(c: Conn, l: Conn, line: string)
    requires InHeaders(c) && AtLine(l) && l.startLine == c.checkIdx && NulFree(line)
    requires l == c.(buf := l.buf, checkIdx := l.checkIdx) && l.buf[..c.checkIdx] == c.buf[..c.checkIdx]
    requires l.buf[l.startLine..l.checkIdx] == line + [NUL, NUL] && NulFree(Unread(l))
    ensures CStr(l.buf[l.startLine..l.checkIdx], 0) == line
    ensures line != [] ==>
              OnHeader(l).1 == NoRequest && InHeaders(OnHeader(l).0)
              && Seen(OnHeader(l).0) == ReadHeader(Seen(c), line) && Unread(OnHeader(l).0) == Unread(l)
    ensures line == [] ==> Shows(OnHeader(l).0, OnHeader(l).1, Finish(Seen(c), Unread(l)))
  {
    hide CStr, ParseHeader, Settled, StringAt, IsLine;
    TextOfLine(line);
    StaysSettled(c, l, c.url);
    StaysSettled(c, l, c.host);
    if ParseHeader(line).Host? {
      HostString(l, line, ParseHeader(line).at);
    }
    SeenAfter(l, OnHeader(l).0);
  }

  lemma TextOfLine(line: string)
    requires NulFree(line)
    ensures CStr(line + [NUL, NUL], 0) == line
  {
    CStrIs(line + [NUL, NUL], 0, line);
  }

  lemma SeenAfter(l: Conn, d: Conn)
    requires Bounds(l) && Bounds(d) && d.buf == l.buf && d.checkIdx == l.checkIdx
    requires l.url.Some? && d.url == l.url && Settled(l, l.url) && Settled(l, d.host)
    ensures Settled(d, d.url) && Settled(d, d.host)
    ensures Seen(d) == Request(d.verb, StringAt(l, l.url).value, StringAt(l, d.host), d.contentLength, d.linger)
  {
  }

  lemma HostString(l: Conn, line: string, at: nat)
    requires Bounds(l) && at <= |line| && NulFree(line)
    requires l.buf[l.startLine..l.checkIdx] == line + [NUL, NUL]
    ensures Settled(l, Some(l.startLine + at)) && StringAt(l, Some(l.startLine + at)) == Some(line[at..])
  {
    var seg := line + [NUL, NUL];
    assert forall k :: 0 <= k < |seg| ==> l.buf[l.startLine + k] == seg[k];
    CStrIs(l.buf, l.startLine + at, line[at..]);
  }

  lemma {:induction false} HeadersRefine(c: Conn)
    requires InHeaders(c)
    ensures var (h, code) := HeaderPhase(c); Shows(h, code, ReadHeaders(Seen(c), Unread(c)))
    decreases c.readIdx - c.checkIdx
  {
    hide ParseLine, OnHeader, OnRequestLine, NextLine, ReadHeader, CStr;
    LineRefines(c);
    ParseLineGood(c);
    var (l, status) := ParseLine(c);
    if status == LineOk {
      LineComplete(c);
      var (line, rest) := NextLine(Unread(c)).value;
      HeaderStep(c, l, line);
      if line != [] {
        HeadersRefine(OnHeader(l).0);
      } else {
        HeaderEnd(l);
      }
    }
  }

  lemma HeaderEnd(l: Conn)
    requires AtLine(l) && l.state == Header && CStr(l.buf[l.startLine..l.checkIdx], 0) == []
    ensures var (d, code) := OnHeader(l);
            if code == NoRequest then d.state == Content && HeaderPhase(d) == (d, code) else code == GetRequest
  {
  }

  lemma TakeShows(l: Conn, out: RequestOut, target: string)
    requires Good(l) && l.startLine + |out.seg| == l.checkIdx && NoCr(out.seg) && NulFree(Unread(l))
    requires l.host == None && out.code == NoRequest && out.verb.Some?
    requires out.url.Some? && out.url.value + |target| < |out.seg| && CStr(out.seg, out.url.value) == target
    ensures var d := TakeRequestLine(l, out);
            && InHeaders(d) && Unread(d) == Unread(l)
            && Seen(d) == Request(out.verb.value, target, None, l.contentLength, l.linger)
  {
    hide CStr;
    var d := TakeRequestLine(l, out);
    UrlString(l, out, target);
    assert Unread(d) == Unread(l);
  }

  lemma UrlString(l: Conn, out: RequestOut, target: string)
    requires Good(l) && l.startLine + |out.seg| == l.checkIdx
    requires out.url.Some? && out.url.value + |target| < |out.seg| && CStr(out.seg, out.url.value) == target
    ensures CStr(PutLine(l, l.startLine, out.seg).buf, l.startLine + out.url.value) == target
  {
    hide CStr, PutLine;
    CStrIs(PutLine(l, l.startLine, out.seg).buf, l.startLine + out.url.value, target);
  }

  lemma RequestStep(l: Conn, line: string)
    requires AtLine(l) && l.state == RequestLine && NulFree(line) && l.host == None
    requires l.buf[l.startLine..l.checkIdx] == line + [NUL, NUL] && NulFree(Unread(l))
    ensures var (d, code) := OnRequestLine(l);
            match ReadRequestLine(line)
            case Reject => code == BadRequest
            case Crash => code == Fault
            case Accept(verb, target) =>
              && code == NoRequest && InHeaders(d) && Unread(d) == Unread(l)
              && Seen(d) == Request(verb, target, None, l.contentLength, l.linger)
  {
    hide ParseRequestLine, ReadRequestLine, CStr, TakeRequestLine, InHeaders, Seen;
    var out := ParseRequestLine(line + [NUL, NUL]);
    RequestLineRefines(line);
    assert NoCr(l.buf[l.startLine..l.checkIdx]);
    if out.code == NoRequest {
      TakeShows(l, out, CStr(out.seg, out.url.value));
    }
  }

  /** A fresh connection: everything init() sets. */
  predicate FreshConn(c: Conn)
  {
    && c.readIdx == c.checkIdx == c.startLine == 0 && c.state == RequestLine
    && c.verb == GET && c.host == None && c.contentLength == 0 && !c.linger
  }

  /** The scanner and the fold: for NUL-free input of any shape, valid or not, the header phase
      ends as the reference says, with the same fields. */
  lemma ParserRefines(c: Conn, s: string)
    requires FreshConn(c) && |s| <= |c.buf| && NulFree(s)
    ensures var (h, code) := HeaderPhase(Feed(c, s)); Shows(h, code, ReadRequest(s))
  {
    hide ParseLine, OnRequestLine, NextLine, ReadRequestLine, OnHeader;
    var e := Feed(c, s);
    assert Unread(e) == s;
    LineRefines(e);
    ParseLineGood(e);
    var (l, status) := ParseLine(e);
    if status == LineOk {
      LineComplete(e);
      var (line, rest) := NextLine(s).value;
      RequestStep(l, line);
      var (d, code) := OnRequestLine(l);
      if code == NoRequest {
        HeadersRefine(d);
      }
    }
  }
}

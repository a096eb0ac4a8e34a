/** class http_conn: the parser on its real buffer, each method proved against HttpMachine. */
module HttpConn {
  import opened Wrappers
  import opened CString
  import L = HttpLine
  import M = HttpMachine
  import opened HttpInPlace

  lemma FeedNothing(c: Conn)
    requires 0 <= c.readIdx <= |c.buf|
    ensures M.Feed(c, []) == c
  {
    assert M.Feed(c, []).buf == c.buf;
  }

  /** The next piece, or its first characters, go behind the first m. */
  lemma ConcatStep(bytes: seq<char>, m: nat, pieces: seq<seq<char>>, k: nat, piece: seq<char>)
    requires m <= |bytes| && k < |pieces| && bytes[m..] == M.Concat(pieces[k..])
    requires piece <= pieces[k]
    ensures m + |piece| <= |bytes| && bytes[..m] + piece == bytes[..m + |piece|]
    ensures piece == pieces[k] ==> bytes[m + |piece|..] == M.Concat(pieces[k + 1..])
  {
    assert pieces[k..][0] == pieces[k] && pieces[k..][1..] == pieces[k + 1..];
    assert bytes[m..][..|piece|] == piece;
    assert bytes[m + |piece|..] == bytes[m..][|piece|..];
  }

  lemma NothingLeft(bytes: seq<char>, m: nat, pieces: seq<seq<char>>)
    requires m <= |bytes| && bytes[m..] == M.Concat(pieces[|pieces|..])
    ensures m == |bytes| && bytes[..m] == bytes
  {
  }

  /** What recv returns when there are no more pieces: -1 with EAGAIN or EWOULDBLOCK, 0 because the
      peer has closed the connection, or -1 with another error. */
  datatype RecvEnd = WouldBlock | Closed | Failed

  class HttpConn {
    const readBuf: array<char>
    var readIdx: int
    var checkIdx: int
    var startLine: int
    var checkState: M.CheckState
    var verb: Method
    var url: Option<nat>
    var version: Option<nat>
    var host: Option<nat>
    var contentLength: int
    var linger: bool
    var cgi: bool
    var body: Option<nat>

    function State(): Conn
      reads this, readBuf
    {
      M.Conn(readBuf[..], readIdx, checkIdx, startLine, checkState, verb, url, version, host,
             contentLength, linger, cgi, body)
    }

    constructor ()
      ensures fresh(readBuf) && readBuf.Length == M.READ_BUFFER_SIZE
    {
      readBuf := new char[M.READ_BUFFER_SIZE];
    }

    /** init(): everything but cgi and m_string. */
    method Init()
      requires readBuf.Length == M.READ_BUFFER_SIZE
      modifies this, readBuf
      ensures State() == M.Init(old(cgi), old(body))
    {
      checkState := M.RequestLine;
      linger := false;
      verb := L.GET;
      url, version := None, None;
      contentLength := 0;
      host := None;
      startLine, checkIdx, readIdx := 0, 0, 0;
      forall i | 0 <= i < readBuf.Length {
        readBuf[i] := NUL;
      }
      assert readBuf[..] == M.Init(cgi, body).buf;
    }

    /** One recv that delivers bytes. */
    method Receive(bytes: seq<char>)
      requires 0 <= readIdx && readIdx + |bytes| <= readBuf.Length
      modifies this`readIdx, readBuf
      ensures State() == M.Feed(old(State()), bytes)
    {
      ghost var c := State();
      forall i | 0 <= i < |bytes| {
        readBuf[readIdx + i] := bytes[i];
      }
      readIdx := readIdx + |bytes|;
      assert readBuf[..] == M.Feed(c, bytes).buf;
    }

    /** read(): recv hands over what has arrived, piece by piece, and then ends as it does. A buffer
        that fills up makes recv return 0, which read() takes for a closed connection. What has
        been received stays in the buffer in any case. */
    method Read(pieces: seq<seq<char>>, end: RecvEnd) returns (ok: bool)
      requires 0 <= readIdx <= readBuf.Length
      requires forall k :: 0 <= k < |pieces| ==> pieces[k] != []
      modifies this`readIdx, readBuf
      ensures var bytes, room := M.Concat(pieces), readBuf.Length - old(readIdx);
              && State() == M.Feed(old(State()), if |bytes| <= room then bytes else bytes[..room])
              && (ok <==> |bytes| < room && end == WouldBlock)
    {
      hide M.Feed, M.Concat;
      ghost var c, bytes := State(), M.Concat(pieces);
      ghost var m: nat := 0;
      FeedNothing(c);
      if readIdx >= readBuf.Length {
        return false;
      }
      var k := 0;
      while k < |pieces|
        invariant 0 <= k <= |pieces| && m <= |bytes| && bytes[m..] == M.Concat(pieces[k..])
        invariant c.readIdx + m == readIdx < readBuf.Length && State() == M.Feed(c, bytes[..m])
      {
        var room := readBuf.Length - readIdx;
        var piece := if |pieces[k]| < room then pieces[k] else pieces[k][..room];
        ConcatStep(bytes, m, pieces, k, piece);
        M.FeedMore(c, bytes[..m], piece);
        Receive(piece);
        m := m + |piece|;
        if readIdx == readBuf.Length {
          return false;
        }
        k := k + 1;
      }
      NothingLeft(bytes, m, pieces);
      ok := end == WouldBlock;
    }

    /** parse_line. */
    method ParseLine() returns (status: M.LineStatus)
      requires M.Bounds(State())
      modifies this`checkIdx, readBuf
      ensures (State(), status) == M.ParseLine(old(State()))
    {
      hide M.ParseLine;
      ghost var c := State();
      while checkIdx < readIdx
        invariant c.checkIdx <= checkIdx <= readIdx && State() == c.(checkIdx := checkIdx)
        invariant M.ParseLine(State()) == M.ParseLine(c)
        decreases readIdx - checkIdx
      {
        ScanCases(State());
        var temp := readBuf[checkIdx];
        if temp == '\r' {
          if checkIdx + 1 == readIdx {
            return M.LineOpen;
          } else if readBuf[checkIdx + 1] == '\n' {
            readBuf[checkIdx] := NUL;
            checkIdx := checkIdx + 1;
            readBuf[checkIdx] := NUL;
            checkIdx := checkIdx + 1;
            return M.LineOk;
          }
          return M.LineBad;
        } else if temp == '\n' {
          if checkIdx > 1 && readBuf[checkIdx - 1] == '\r' {
            readBuf[checkIdx - 1] := NUL;
            readBuf[checkIdx] := NUL;
            checkIdx := checkIdx + 1;
            return M.LineOk;
          }
          return M.LineBad;
        }
        checkIdx := checkIdx + 1;
      }
      ScanCases(State());
      return M.LineOpen;
    }

    /** parse_request_line on the line at text, which ends at m_check_idx. */
    method ParseRequestLine(text: nat) returns (code: Code)
      requires M.Good(State()) && startLine == checkIdx && text + 2 <= checkIdx
      requires L.IsLine(readBuf[text..checkIdx])
      modifies this, readBuf
      ensures var c := old(State()).(startLine := text);
              var out := L.ParseRequestLine(c.buf[text..c.checkIdx]);
              State() == M.TakeRequestLine(c, out) && code == out.code
    {
      hide CStr, FindBlank, L.ParseRequestLine, L.MethodName, M.TakeRequestLine, L.NoCr;
      ghost var c := State().(startLine := text);
      LineCases(c);
      var s := CStr(readBuf[..], text);
      var i := FindBlank(s);
      if i == |s| {
        url := None;
        return L.BadRequest;
      }
      ghost var line := readBuf[text..checkIdx];
      readBuf[text + i] := NUL;
      url := Some(text + i + 1);
      code := ParseMethodName(text, text + i + 1, c,
                              L.RequestOut(line[i := NUL], L.BadRequest, None, Some(i + 1), L.Keep));
    }

    /** Lines 252 to 265. c is the state at the start of the line, out what has happened to it. */
    method ParseMethodName(text: nat, at: nat, ghost c: Conn, ghost out: L.RequestOut) returns (code: Code)
      requires Mid(c, out) && L.IsLine(out.seg) && out.verb == None
      requires text == c.startLine && text <= at && at - text <= |out.seg| - 2
      requires State() == M.TakeRequestLine(c, out)
      modifies this, readBuf
      ensures var r := L.MethodName(out, at - text); State() == M.TakeRequestLine(c, r) && code == r.code
    {
      hide CStr, EqNoCase, L.MethodName, L.AfterMethod, M.TakeRequestLine, L.NoCr, Mid, L.IsLine;
      NameCases(c, out, at - text);
      var name := CStr(readBuf[..], text);
      if EqNoCase(name, "GET") {
        verb := L.GET;
        code := ParseAfterMethod(text, at, c, out.(verb := Some(L.GET)));
      } else if EqNoCase(name, "POST") {
        verb := L.POST;
        cgi := true;
        code := ParseAfterMethod(text, at, c, out.(verb := Some(L.POST)));
      } else {
        assert out.code == L.BadRequest by { MidCode(c, out); }
        code := L.BadRequest;
      }
    }

    /** Lines 267 to 269. */
    method ParseAfterMethod(text: nat, at: nat, ghost c: Conn, ghost out: L.RequestOut) returns (code: Code)
      requires Mid(c, out) && L.IsLine(out.seg)
      requires text == c.startLine && text <= at && at - text <= |out.seg| - 2
      requires State() == M.TakeRequestLine(c, out)
      modifies this, readBuf
      ensures var r := L.AfterMethod(out, at - text); State() == M.TakeRequestLine(c, r) && code == r.code
    {
      hide CStr, SkipBlanks, L.AfterMethod, L.CutUrl, M.TakeRequestLine, L.NoCr, Mid, L.IsLine;
      BlanksCases(c, out, at - text);
      var u := at + SkipBlanks(CStr(readBuf[..], at));
      url := Some(u);
      code := ParseUrl(text, u, c, out.(url := Some(u - text)));
    }

    /** Lines 272 to 277. */
    method ParseUrl(text: nat, u: nat, ghost c: Conn, ghost out: L.RequestOut) returns (code: Code)
      requires Mid(c, out) && L.IsLine(out.seg)
      requires text == c.startLine && text <= u && u - text <= |out.seg| - 2
      requires State() == M.TakeRequestLine(c, out)
      modifies this, readBuf
      ensures var r := L.CutUrl(out, u - text); State() == M.TakeRequestLine(c, r) && code == r.code
    {
      hide CStr, FindBlank, L.CutUrl, L.AfterUrl, M.TakeRequestLine, L.NoCr, Mid, L.IsLine;
      UrlCases(c, out, u - text);
      var s := CStr(readBuf[..], u);
      var i := FindBlank(s);
      if i == |s| {
        version := None;
        return L.BadRequest;
      }
      readBuf[u + i] := NUL;
      code := ParseVersion(text, u, u + i, c, out.(seg := out.seg[u - text + i := NUL]));
    }

    /** Lines 278 to 283, the separator of URL and version at sep. */
    method ParseVersion(text: nat, u: nat, sep: nat, ghost c: Conn, ghost out: L.RequestOut) returns (code: Code)
      requires Mid(c, out) && L.IsLine(out.seg)
      requires text == c.startLine && text <= u <= sep && sep - text + 1 <= |out.seg| - 2
      requires u - text + |CStr(out.seg, u - text)| == sep - text
      requires State() == M.TakeRequestLine(c, out)
      modifies this, readBuf
      ensures var r := L.AfterUrl(out, u - text, sep - text); State() == M.TakeRequestLine(c, r) && code == r.code
    {
      hide CStr, SkipBlanks, EqNoCase, L.AfterUrl, L.Target, M.TakeRequestLine, L.NoCr, Mid, L.IsLine;
      VersionCases(c, out, u - text, sep - text);
      var v := sep + 1 + SkipBlanks(CStr(readBuf[..], sep + 1));
      version := Some(v);
      if !EqNoCase(CStr(readBuf[..], v), L.VERSION) {
        return L.BadRequest;
      }
      code := ParseTarget(text, u, sep, c, out.(version := L.Set(Some(v - text))));
    }

    /** m_url after "http://" or "https://" has been skipped; None is the null pointer. */
    method SkipScheme(u: nat, scheme: string) returns (r: Option<nat>)
      requires u <= readBuf.Length
      ensures r == L.SkipScheme(readBuf[..], u, scheme)
    {
      var s := CStr(readBuf[..], u);
      if PrefixNoCase(s, scheme) {
        var i := FindChar(s[|scheme|..], '/');
        r := if |scheme| + i == |s| then None else Some(u + |scheme| + i);
      } else {
        r := Some(u);
      }
    }

    /** Lines 285 to 300. */
    method ParseTarget(text: nat, u: nat, sep: nat, ghost c: Conn, ghost out: L.RequestOut) returns (code: Code)
      requires Mid(c, out) && L.IsLine(out.seg)
      requires text == c.startLine && text <= u <= sep && sep - text + 11 <= |out.seg|
      requires u - text + |CStr(out.seg, u - text)| == sep - text
      requires State() == M.TakeRequestLine(c, out)
      modifies this, readBuf
      ensures var r := L.Target(out, u - text, sep - text); State() == M.TakeRequestLine(c, r) && code == r.code
    {
      hide CStr, L.Target, L.Root, L.SkipScheme, M.TakeRequestLine, L.NoCr, Mid, L.IsLine;
      TargetCases(c, out, u - text, sep - text);
      url := SkipScheme(u, L.HTTP);
      if url == None {
        return L.Fault;
      }
      url := SkipScheme(url.value, L.HTTPS);
      if url == None {
        return L.BadRequest;
      }
      code := ParseRoot(text, url.value, c, out.(url := Some(url.value - text)));
    }

    /** Lines 301 to 313. */
    method ParseRoot(text: nat, u: nat, ghost c: Conn, ghost out: L.RequestOut) returns (code: Code)
      requires Mid(c, out) && L.IsLine(out.seg)
      requires text == c.startLine && text <= u && u - text <= |out.seg|
      requires u - text + |CStr(out.seg, u - text)| + 11 <= |out.seg|
      requires State() == M.TakeRequestLine(c, out)
      modifies this, readBuf
      ensures var r := L.Root(out, u - text); State() == M.TakeRequestLine(c, r) && code == r.code
    {
      hide CStr, L.Root, M.TakeRequestLine, L.NoCr, Mid, L.IsLine, L.Overwrite;
      RootCases(c, out, u - text);
      var s := CStr(readBuf[..], u);
      if s == [] || s[0] != '/' {
        return L.BadRequest;
      }
      if |s| == 1 {
        CopyString(u + 1, L.JUDGE + [NUL]);
      }
      checkState := M.Header;
      return L.NoRequest;
    }

    /** The copying of strcat: the characters of s, the terminator included, from dst on. */
    method CopyString(dst: nat, s: seq<char>)
      requires dst + |s| <= readBuf.Length
      modifies readBuf
      ensures readBuf[..] == L.Overwrite(old(readBuf[..]), dst, s)
    {
      hide L.Overwrite;
      var k := 0;
      ghost var was := readBuf[..];
      while k < |s|
        invariant 0 <= k <= |s|
        invariant forall j :: 0 <= j < |was| ==> readBuf[j] == if dst <= j < dst + k then s[j - dst] else was[j]
      {
        readBuf[dst + k] := s[k];
        k := k + 1;
      }
      forall j | 0 <= j < |was| ensures readBuf[j] == L.Overwrite(was, dst, s)[j] {
        OverwriteAt(was, dst, s, j);
      }
    }

    /** parse_headers on the line at text. */
    method ParseHeaders(text: nat) returns (code: Code)
      requires M.Good(State()) && startLine == checkIdx && text + 2 <= checkIdx
      requires L.IsLine(readBuf[text..checkIdx])
      modifies this
      ensures (State(), code) == M.OnHeader(old(State()).(startLine := text))
    {
      hide CStr, EqNoCase, PrefixNoCase, SkipBlanks, Atol, L.IsLine, L.NoCr, L.Value, M.OnHeader;
      OnHeaderCases(State().(startLine := text));
      var line := CStr(readBuf[..], text);
      if line == [] {
        if contentLength != 0 {
          checkState := M.Content;
          return L.NoRequest;
        }
        return L.GetRequest;
      } else if PrefixNoCase(line, L.CONNECTION) {
        if EqNoCase(L.Value(line, L.CONNECTION), L.KEEP_ALIVE) {
          linger := true;
        }
      } else if PrefixNoCase(line, L.CONTENT_LENGTH) {
        contentLength := Atol(L.Value(line, L.CONTENT_LENGTH));
      } else if PrefixNoCase(line, L.HOST) {
        host := Some(text + (|L.HOST| + SkipBlanks(line[|L.HOST|..])));
      }
      return L.NoRequest;
    }

    /** parse_content. */
    method ParseContent(text: nat) returns (code: Code)
      requires M.Good(State()) && startLine == checkIdx && text <= checkIdx
      modifies this`body, readBuf
      ensures (State(), code) == M.OnContent(old(State()).(startLine := text))
    {
      if contentLength + checkIdx > M.INT_MAX {
        return L.Fault;
      }
      if readIdx >= contentLength + checkIdx {
        if !(0 <= text + contentLength < readBuf.Length) {
          return L.Fault;
        }
        readBuf[text + contentLength] := NUL;
        body := Some(text);
        return L.GetRequest;
      }
      return L.NoRequest;
    }

    /** process_read: GET_REQUEST stands for the call of do_request(). */
    method ProcessRead() returns (code: Code)
      requires M.Good(State())
      modifies this, readBuf
      ensures (State(), code) == M.Process(old(State()))
      ensures M.Good(State())
    {
      hide M.ParseLine, M.OnRequestLine, M.OnHeader, M.OnContent, CStr, L.NoCr, L.IsLine;
      ghost var c := State();
      var lineStatus := M.LineOk;
      code := L.NoRequest;
      while true
        invariant M.Good(State()) && code == L.NoRequest
        invariant lineStatus != M.LineOk ==> checkState == M.Content
        invariant M.Loop(State(), lineStatus == M.LineOk) == M.Loop(c, true)
        decreases 2 * (readIdx - checkIdx) + if checkState == M.Content && lineStatus == M.LineOk then 1 else 0
      {
        if !(checkState == M.Content && lineStatus == M.LineOk) {
          ghost var before := State();
          M.ParseLineGood(before);
          lineStatus := ParseLine();
          if lineStatus != M.LineOk {
            break;
          }
          M.LineComplete(before);
        }
        var inBody := checkState == M.Content;
        code := OnLine();
        if code != L.NoRequest {
          return;
        }
        if inBody {
          lineStatus := M.LineOpen;
        }
      }
    }

    /** The body of the loop of process_read: hands a line, or the body, to its parser. */
    method OnLine() returns (code: Code)
      requires M.Good(State()) && (checkState != M.Content ==> M.AtLine(State()))
      modifies this, readBuf
      ensures (State(), code) == if old(checkState) == M.Content then M.OnContent(old(State()))
                                 else M.OnLine(old(State()))
    {
      hide M.OnHeader, M.OnContent, M.TakeRequestLine, L.ParseRequestLine, CStr;
      var text := startLine;
      startLine := checkIdx;
      match checkState {
        case RequestLine => code := ParseRequestLine(text);
        case Header => code := ParseHeaders(text);
        case Content => code := ParseContent(text);
      }
    }
  }
}

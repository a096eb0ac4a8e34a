/** parse_request_line works on the buffer, HttpLine on the line alone. Here is what each part of
    it finds and leaves in the buffer, in terms of the line. */
module HttpInPlace {
  import opened Wrappers
  import opened CString
  import L = HttpLine
  import M = HttpMachine

  type Method = L.Method
  type Code = L.Code
  type Conn = M.Conn

  /** A string that ends inside a segment is the same string in the buffer. */
  lemma CStrInSegment(buf: seq<char>, text: nat, end: nat, k: nat)
    requires text + k < end <= |buf| && buf[end - 1] == NUL
    ensures CStr(buf, text + k) == CStr(buf[text..end], k)
  {
    hide CStr;
    var seg := buf[text..end];
    CStrEnds(seg, k, |seg| - 1);
    CStrIs(buf, text + k, CStr(seg, k));
  }

  /** The line being parsed sits in the buffer as out.seg, and the fields are those of out. */
  ghost predicate Mid(c: Conn, out: L.RequestOut)
  {
    M.Good(c) && c.startLine + |out.seg| == c.checkIdx && L.NoCr(out.seg) && out.code == L.BadRequest
  }

  lemma MidCode(c: Conn, out: L.RequestOut)
    requires Mid(c, out)
    ensures out.code == L.BadRequest
  {
  }

  lemma MidString(c: Conn, out: L.RequestOut, k: nat)
    requires Mid(c, out) && L.IsLine(out.seg) && k < |out.seg|
    ensures 0 <= c.startLine && c.startLine + |out.seg| <= |M.TakeRequestLine(c, out).buf|
    ensures CStr(M.TakeRequestLine(c, out).buf, c.startLine + k) == CStr(out.seg, k)
  {
    var d := M.TakeRequestLine(c, out);
    assert d.buf[c.startLine..c.checkIdx] == out.seg;
    CStrInSegment(d.buf, c.startLine, c.checkIdx, k);
  }

  lemma MidCut(c: Conn, out: L.RequestOut, k: nat)
    requires Mid(c, out) && k < |out.seg|
    ensures Mid(c, out.(seg := out.seg[k := NUL]))
    ensures var d := M.TakeRequestLine(c, out);
            && 0 <= c.startLine && c.startLine + k < |d.buf|
            && M.TakeRequestLine(c, out.(seg := out.seg[k := NUL])) == d.(buf := d.buf[c.startLine + k := NUL])
  {
    var d := M.TakeRequestLine(c, out);
    assert M.TakeRequestLine(c, out.(seg := out.seg[k := NUL])).buf == d.buf[c.startLine + k := NUL];
  }

  /** Where a string inside a line may end, and how long an accepted version is. */
  lemma LineString(seg: seq<char>, k: nat)
    requires L.IsLine(seg) && k <= |seg| - 2
    ensures k + |CStr(seg, k)| <= |seg| - 2
    ensures EqNoCase(CStr(seg, k), L.VERSION) ==> |CStr(seg, k)| == 8
  {
    CStrEnds(seg, k, |seg| - 2);
  }

  /** Setting a field of out is setting the field of the connection. */
  lemma MidFields(c: Conn, out: L.RequestOut, url: Option<nat>, version: Option<nat>, code: Code)
    requires Mid(c, out) && code != L.NoRequest
    ensures var d := M.TakeRequestLine(c, out);
            && M.TakeRequestLine(c, out.(url := url, code := code)) == d.(url := M.Shift(c.startLine, url))
            && M.TakeRequestLine(c, out.(version := L.Set(version))) == d.(version := M.Shift(c.startLine, version))
            && M.TakeRequestLine(c, out.(code := L.NoRequest)) == d.(state := M.Header)
  {
    hide M.PutLine;
  }

  lemma MidVerb(c: Conn, out: L.RequestOut, verb: Method)
    requires Mid(c, out) && out.verb == None
    ensures var d := M.TakeRequestLine(c, out);
            M.TakeRequestLine(c, out.(verb := Some(verb)))
            == d.(verb := verb, cgi := if verb == L.POST then true else d.cgi)
  {
    hide M.PutLine;
  }

  lemma OverwriteAt(seg: seq<char>, at: nat, s: string, i: nat)
    requires at + |s| <= |seg| && i < |seg|
    ensures L.Overwrite(seg, at, s)[i] == if at <= i < at + |s| then s[i - at] else seg[i]
  {
  }

  /** Overwriting in the line is overwriting in the buffer. */
  lemma PutOverwritten(c: Conn, text: nat, seg: seq<char>, k: nat, s: string)
    requires text + |seg| == c.checkIdx <= |c.buf| && k + |s| <= |seg|
    ensures M.PutLine(c, text, L.Overwrite(seg, k, s)).buf
            == L.Overwrite(M.PutLine(c, text, seg).buf, text + k, s)
  {
    hide M.PutLine, L.Overwrite, L.NoCr;
    var buf := M.PutLine(c, text, seg).buf;
    var now := M.PutLine(c, text, L.Overwrite(seg, k, s)).buf;
    forall i | 0 <= i < |buf| ensures now[i] == L.Overwrite(buf, text + k, s)[i] {
      OverwriteAt(buf, text + k, s, i);
      if text <= i < c.checkIdx {
        OverwriteAt(seg, k, s, i - text);
      }
    }
  }

  lemma MidOverwrite(c: Conn, out: L.RequestOut, k: nat, s: string)
    requires Mid(c, out) && k + |s| <= |out.seg| && L.NoCr(s)
    ensures var now := out.(seg := L.Overwrite(out.seg, k, s));
            var d := M.TakeRequestLine(c, out);
            && Mid(c, now) && c.startLine + k + |s| <= |d.buf|
            && M.TakeRequestLine(c, now) == d.(buf := L.Overwrite(d.buf, c.startLine + k, s))
  {
    hide M.PutLine, L.Overwrite;
    PutOverwritten(c, c.startLine, out.seg, k, s);
  }

  lemma SchemeInSegment(c: Conn, out: L.RequestOut, k: nat, scheme: string)
    requires Mid(c, out) && L.IsLine(out.seg) && k < |out.seg|
    ensures c.startLine + k <= |M.TakeRequestLine(c, out).buf|
    ensures L.SkipScheme(M.TakeRequestLine(c, out).buf, c.startLine + k, scheme)
         == M.Shift(c.startLine, L.SkipScheme(out.seg, k, scheme))
  {
    hide CStr, PrefixNoCase, FindChar, M.TakeRequestLine, L.NoCr, L.IsLine;
    MidString(c, out, k);
  }

  // In what follows d is the state before a part, r what the part makes of the line.

  lemma RootCases(c: Conn, out: L.RequestOut, k: nat)
    requires Mid(c, out) && L.IsLine(out.seg) && k <= |out.seg| && k + |CStr(out.seg, k)| + 11 <= |out.seg|
    ensures var d, u := M.TakeRequestLine(c, out), c.startLine + k;
            var r, s, page := L.Root(out, k), CStr(out.seg, k), L.JUDGE + [NUL];
            && u <= |d.buf| && CStr(d.buf, u) == s
            && (if s == [] || s[0] != '/' then r.code == L.BadRequest && M.TakeRequestLine(c, r) == d
                else if |s| == 1 then
                  && r.code == L.NoRequest && u + 1 + |page| <= |d.buf|
                  && M.TakeRequestLine(c, r) == d.(buf := L.Overwrite(d.buf, u + 1, page), state := M.Header)
                else r.code == L.NoRequest && M.TakeRequestLine(c, r) == d.(state := M.Header))
  {
    hide CStr, M.TakeRequestLine, L.Overwrite, M.PutLine;
    MidString(c, out, k);
    var s, page := CStr(out.seg, k), L.JUDGE + [NUL];
    MidFields(c, out, None, None, L.BadRequest);
    if |s| == 1 {
      assert |page| == 11 && L.NoCr(page);
      MidOverwrite(c, out, k + 1, page);
      MidFields(c, out.(seg := L.Overwrite(out.seg, k + 1, page)), None, None, L.BadRequest);
    }
  }

  lemma TargetCases(c: Conn, out: L.RequestOut, k: nat, sep: nat)
    requires Mid(c, out) && L.IsLine(out.seg)
    requires k <= sep && sep + 11 <= |out.seg| && k + |CStr(out.seg, k)| == sep
    ensures var d, u, r := M.TakeRequestLine(c, out), c.startLine + k, L.Target(out, k, sep);
            && u <= |d.buf|
            && var p1 := L.SkipScheme(d.buf, u, L.HTTP);
               if p1 == None then r.code == L.Fault && M.TakeRequestLine(c, r) == d.(url := None)
               else
                 && p1.value <= |d.buf|
                 && var p2 := L.SkipScheme(d.buf, p1.value, L.HTTPS);
                    if p2 == None then r.code == L.BadRequest && M.TakeRequestLine(c, r) == d.(url := None)
                    else
                      var q := p2.value - c.startLine;
                      && 0 <= q <= |out.seg| && q + |CStr(out.seg, q)| + 11 <= |out.seg|
                      && Mid(c, out.(url := Some(q)))
                      && M.TakeRequestLine(c, out.(url := Some(q))) == d.(url := p2)
                      && r == L.Root(out.(url := Some(q)), q)
  {
    hide CStr, M.TakeRequestLine, L.Root, L.SkipScheme, L.NoCr;
    SchemeInSegment(c, out, k, L.HTTP);
    MidFields(c, out, None, None, L.Fault);
    MidFields(c, out, None, None, L.BadRequest);
    var u1 := L.SkipScheme(out.seg, k, L.HTTP);
    if u1.Some? {
      SchemeInSegment(c, out, u1.value, L.HTTPS);
      MidFields(c, out, L.SkipScheme(out.seg, u1.value, L.HTTPS), None, L.BadRequest);
    }
  }

  lemma VersionCases(c: Conn, out: L.RequestOut, k: nat, sep: nat)
    requires Mid(c, out) && L.IsLine(out.seg)
    requires sep + 1 <= |out.seg| - 2 && k <= sep && k + |CStr(out.seg, k)| == sep
    ensures var d, r := M.TakeRequestLine(c, out), L.AfterUrl(out, k, sep);
            && c.startLine + sep + 1 <= |d.buf|
            && var v := c.startLine + sep + 1 + SkipBlanks(CStr(d.buf, c.startLine + sep + 1));
               var next := out.(version := L.Set(Some(v - c.startLine)));
               && c.startLine <= v <= |d.buf|
               && M.TakeRequestLine(c, next) == d.(version := Some(v))
               && (if EqNoCase(CStr(d.buf, v), L.VERSION) then
                     && Mid(c, next) && L.IsLine(next.seg) && sep + 11 <= |out.seg|
                     && r == L.Target(next, k, sep)
                   else r.code == L.BadRequest && r == next)
  {
    hide CStr, M.TakeRequestLine, L.Target, SkipBlanks, EqNoCase, L.NoCr;
    MidString(c, out, sep + 1);
    LineString(out.seg, sep + 1);
    var v := sep + 1 + SkipBlanks(CStr(out.seg, sep + 1));
    MidString(c, out, v);
    LineString(out.seg, v);
    MidFields(c, out, None, Some(v), L.BadRequest);
  }

  lemma BlanksCases(c: Conn, out: L.RequestOut, at: nat)
    requires Mid(c, out) && L.IsLine(out.seg) && at <= |out.seg| - 2
    ensures var d, r := M.TakeRequestLine(c, out), L.AfterMethod(out, at);
            && 0 <= c.startLine && c.startLine + at <= |d.buf|
            && var u := c.startLine + at + SkipBlanks(CStr(d.buf, c.startLine + at));
               var k := u - c.startLine;
               && c.startLine <= u && k <= |out.seg| - 2 && Mid(c, out.(url := Some(k)))
               && M.TakeRequestLine(c, out.(url := Some(k))) == d.(url := Some(u))
               && r == L.CutUrl(out.(url := Some(k)), k)
  {
    hide CStr, M.TakeRequestLine, L.CutUrl, SkipBlanks, L.NoCr;
    MidString(c, out, at);
    LineString(out.seg, at);
    MidFields(c, out, Some(at + SkipBlanks(CStr(out.seg, at))), None, L.BadRequest);
  }

  lemma UrlCases(c: Conn, out: L.RequestOut, k: nat)
    requires Mid(c, out) && L.IsLine(out.seg) && k <= |out.seg| - 2
    ensures var d, r, u := M.TakeRequestLine(c, out), L.CutUrl(out, k), c.startLine + k;
            && 0 <= c.startLine && u <= |d.buf|
            && var s := CStr(d.buf, u);
               var i := FindBlank(s);
               if i == |s| then r.code == L.BadRequest && M.TakeRequestLine(c, r) == d.(version := None)
               else
                 && u + i < |d.buf| && k + i < |out.seg|
                 && var next := out.(seg := out.seg[k + i := NUL]);
                    && Mid(c, next) && L.IsLine(next.seg) && k + i + 1 <= |out.seg| - 2
                    && k + |CStr(next.seg, k)| == k + i
                    && M.TakeRequestLine(c, next) == d.(buf := d.buf[u + i := NUL])
                    && r == L.AfterUrl(next, k, k + i)
  {
    hide CStr, M.TakeRequestLine, L.AfterUrl, FindBlank, L.NoCr;
    MidString(c, out, k);
    LineString(out.seg, k);
    MidFields(c, out, None, None, L.BadRequest);
    var i := FindBlank(CStr(out.seg, k));
    if i < |CStr(out.seg, k)| {
      MidCut(c, out, k + i);
      CStrCut(out.seg, k, i);
      L.CutLine(out.seg, k + i);
    }
  }

  lemma NameCases(c: Conn, out: L.RequestOut, at: nat)
    requires Mid(c, out) && L.IsLine(out.seg) && at <= |out.seg| - 2 && out.verb == None
    ensures var d, r := M.TakeRequestLine(c, out), L.MethodName(out, at);
            var get, post := out.(verb := Some(L.GET)), out.(verb := Some(L.POST));
            && 0 <= c.startLine <= |d.buf| && Mid(c, get) && Mid(c, post)
            && M.TakeRequestLine(c, get) == d.(verb := L.GET)
            && M.TakeRequestLine(c, post) == d.(verb := L.POST, cgi := true)
            && var name := CStr(d.buf, c.startLine);
               if EqNoCase(name, "GET") then r == L.AfterMethod(get, at)
               else if EqNoCase(name, "POST") then r == L.AfterMethod(post, at)
               else r == out
  {
    hide CStr, EqNoCase, L.AfterMethod, M.TakeRequestLine, L.NoCr;
    MidString(c, out, 0);
    MidVerb(c, out, L.GET);
    MidVerb(c, out, L.POST);
  }

  lemma LineStarts(c: Conn)
    requires M.AtLine(c)
    ensures var line := c.buf[c.startLine..c.checkIdx];
            var start := L.RequestOut(line, L.BadRequest, None, None, L.Keep);
            && Mid(c, start) && L.IsLine(line) && |line| >= 2
            && |CStr(line, 0)| <= |line| - 2 && CStr(c.buf, c.startLine) == CStr(line, 0)
            && M.TakeRequestLine(c, start) == c.(startLine := c.checkIdx, url := None)
  {
    hide CStr;
    var line := c.buf[c.startLine..c.checkIdx];
    assert L.NoCr(line);
    CStrInSegment(c.buf, c.startLine, c.checkIdx, 0);
    LineString(line, 0);
    assert M.PutLine(c, c.startLine, line).buf == c.buf;
  }

  lemma LineCases(c: Conn)
    requires M.AtLine(c)
    ensures var line, text, d := c.buf[c.startLine..c.checkIdx], c.startLine, c.(startLine := c.checkIdx);
            var s, r := CStr(c.buf, text), L.ParseRequestLine(line);
            var i := FindBlank(s);
            if i == |s| then r.code == L.BadRequest && M.TakeRequestLine(c, r) == d.(url := None)
            else
              && text + i < |c.buf| && i + 1 <= |line| - 2
              && var out := L.RequestOut(line[i := NUL], L.BadRequest, None, Some(i + 1), L.Keep);
                 && Mid(c, out) && L.IsLine(out.seg) && r == L.MethodName(out, i + 1)
                 && M.TakeRequestLine(c, out) == d.(buf := c.buf[text + i := NUL], url := Some(text + i + 1))
  {
    hide CStr, FindBlank, L.MethodName, M.TakeRequestLine, L.NoCr, L.IsLine;
    var line := c.buf[c.startLine..c.checkIdx];
    LineStarts(c);
    var i := FindBlank(CStr(line, 0));
    var start := L.RequestOut(line, L.BadRequest, None, None, L.Keep);
    if i < |CStr(line, 0)| {
      MidCut(c, start, i);
      L.CutLine(line, i);
      MidFields(c, start.(seg := line[i := NUL]), Some(i + 1), None, L.BadRequest);
    }
  }

  /** One round of the loop of parse_line. */
  lemma ScanCases(c: Conn)
    requires M.Bounds(c)
    ensures var p, r := c.checkIdx, M.ParseLine(c);
            if p >= c.readIdx then r == (c, M.LineOpen)
            else if c.buf[p] == '\r' then
              if p + 1 == c.readIdx then r == (c, M.LineOpen)
              else if c.buf[p + 1] == '\n' then
                r == (c.(buf := c.buf[p := NUL][p + 1 := NUL], checkIdx := p + 2), M.LineOk)
              else r == (c, M.LineBad)
            else if c.buf[p] == '\n' then
              if p > 1 && c.buf[p - 1] == '\r' then
                r == (c.(buf := c.buf[p - 1 := NUL][p := NUL], checkIdx := p + 1), M.LineOk)
              else r == (c, M.LineBad)
            else r == M.ParseLine(c.(checkIdx := p + 1))
  {
  }

  /** The cases of parse_headers. */
  lemma HeaderCases(line: string)
    ensures var h := L.ParseHeader(line);
            if line == [] then h == L.EndOfHeaders
            else if PrefixNoCase(line, L.CONNECTION) then
              |L.CONNECTION| <= |line|
              && h == if EqNoCase(L.Value(line, L.CONNECTION), L.KEEP_ALIVE) then L.KeepAlive else L.Other
            else if PrefixNoCase(line, L.CONTENT_LENGTH) then
              |L.CONTENT_LENGTH| <= |line| && h == L.Length(Atol(L.Value(line, L.CONTENT_LENGTH)))
            else if PrefixNoCase(line, L.HOST) then
              |L.HOST| <= |line| && h == L.Host(|L.HOST| + SkipBlanks(line[|L.HOST|..]))
            else h == L.Other
  {
    hide L.Value, Atol, EqNoCase;
  }

  /** What parse_headers does to the connection, with the text found in the buffer. */
  lemma OnHeaderCases(c: Conn)
    requires M.AtLine(c)
    ensures var text := c.startLine;
            var d, line := c.(startLine := c.checkIdx), CStr(c.buf, text);
            if line == [] then
              M.OnHeader(c) == if c.contentLength != 0 then (d.(state := M.Content), L.NoRequest) else (d, L.GetRequest)
            else if PrefixNoCase(line, L.CONNECTION) then
              && |L.CONNECTION| <= |line|
              && M.OnHeader(c) == (if EqNoCase(L.Value(line, L.CONNECTION), L.KEEP_ALIVE)
                                   then d.(linger := true) else d, L.NoRequest)
            else if PrefixNoCase(line, L.CONTENT_LENGTH) then
              && |L.CONTENT_LENGTH| <= |line|
              && M.OnHeader(c) == (d.(contentLength := Atol(L.Value(line, L.CONTENT_LENGTH))), L.NoRequest)
            else if PrefixNoCase(line, L.HOST) then
              && |L.HOST| <= |line|
              && M.OnHeader(c)
                 == (d.(host := Some(text + (|L.HOST| + SkipBlanks(line[|L.HOST|..])))), L.NoRequest)
            else M.OnHeader(c) == (d, L.NoRequest)
  {
    hide CStr, EqNoCase, PrefixNoCase, SkipBlanks, Atol, L.NoCr, L.ParseHeader, L.Value;
    CStrInSegment(c.buf, c.startLine, c.checkIdx, 0);
    HeaderCases(CStr(c.buf, c.startLine));
  }
}

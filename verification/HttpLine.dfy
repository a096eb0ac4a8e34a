/** What parse_request_line and parse_headers do to one line of the read buffer.
    A line is the segment of the buffer from its first character to m_check_idx: the text with
    the two NULs that parse_line wrote over CR and LF. Offsets are relative to the segment. */
module HttpLine {
  import opened Wrappers
  import opened CString

  datatype Method = GET | POST

  datatype Code =
    | NoRequest
    | GetRequest   // do_request() is called
    | BadRequest
    | Fault        // behaviour of the source undefined

  predicate IsLine(seg: seq<char>)
  {
    |seg| >= 2 && seg[|seg| - 2] == NUL && seg[|seg| - 1] == NUL
  }

  /** What happens to a pointer field. */
  datatype Change = Keep | Set(to: Option<nat>)

  /** The segment after parse_request_line, its result and the fields it sets. */
  datatype RequestOut = RequestOut(
    seg: seq<char>, code: Code, verb: Option<Method>, url: Option<nat>, version: Change)

  const HTTP := "http://"
  const HTTPS := "https://"
  const VERSION := "HTTP/1.1"
  const JUDGE := "judge.html"

  predicate NoCr(s: seq<char>) { forall k :: 0 <= k < |s| ==> s[k] != '\r' }

  lemma CutLine(seg: seq<char>, k: nat)
    requires k < |seg|
    ensures IsLine(seg) ==> IsLine(seg[k := NUL])
    ensures NoCr(seg) ==> NoCr(seg[k := NUL])
  {
  }

  function Overwrite(seg: seq<char>, at: nat, s: string): (r: seq<char>)
    requires at + |s| <= |seg|
    ensures |r| == |seg|
    ensures NoCr(seg) && NoCr(s) ==> NoCr(r)
  {
    seg[..at] + s + seg[at + |s|..]
  }

  /** Past "http://" or "https://" the URL starts at the next slash; null if there is none. */
  function SkipScheme(seg: seq<char>, at: nat, scheme: string): (r: Option<nat>)
    requires at <= |seg|
    ensures r.Some? ==> at <= r.value <= |seg| && r.value + |CStr(seg, r.value)| == at + |CStr(seg, at)|
  {
    var s := CStr(seg, at);
    if PrefixNoCase(s, scheme) then
      var i := FindChar(s[|scheme|..], '/');
      if |scheme| + i == |s| then None
      else
        CStrTail(seg, at, |scheme| + i);
        Some(at + |scheme| + i)
    else
      Some(at)
  }

  /** Lines 285 to 309: the target at offset u, whose separator at sep has been overwritten.
      The rewrite of "/" needs 11 bytes after the slash, and the line has them. */
  function Target(out: RequestOut, u: nat, sep: nat): (r: RequestOut)
    requires u <= sep && sep + 11 <= |out.seg| && u + |CStr(out.seg, u)| == sep
    ensures |r.seg| == |out.seg| && (NoCr(out.seg) ==> NoCr(r.seg))
  {
    var u1 := SkipScheme(out.seg, u, HTTP);
    if u1 == None then
      out.(url := None, code := Fault)  // a null pointer goes to strncasecmp
    else
      var u2 := SkipScheme(out.seg, u1.value, HTTPS);
      if u2 == None then out.(url := None, code := BadRequest)
      else Root(out.(url := u2), u2.value)
  }

  /** Lines 301 to 312, with m_url at offset u. */
  function Root(out: RequestOut, u: nat): (r: RequestOut)
    requires u <= |out.seg| && u + |CStr(out.seg, u)| + 11 <= |out.seg|
    ensures |r.seg| == |out.seg| && (NoCr(out.seg) ==> NoCr(r.seg))
  {
    var s := CStr(out.seg, u);
    if s == [] || s[0] != '/' then out.(code := BadRequest)
    else if |s| == 1 then
      var page := JUDGE + [NUL];
      assert |page| == 11 && NoCr(page);
      out.(seg := Overwrite(out.seg, u + 1, page), code := NoRequest)
    else out.(code := NoRequest)
  }

  /** Lines 267 to 283: what follows the method, from offset at. */
  function AfterMethod(out: RequestOut, at: nat): (r: RequestOut)
    requires IsLine(out.seg) && at <= |out.seg| - 2
    ensures |r.seg| == |out.seg| && (NoCr(out.seg) ==> NoCr(r.seg))
  {
    var u := at + SkipBlanks(CStr(out.seg, at));
    CStrEnds(out.seg, at, |out.seg| - 2);
    CutUrl(out.(url := Some(u)), u)
  }

  /** Lines 272 to 277: the URL at offset u ends at the next blank. */
  function CutUrl(out: RequestOut, u: nat): (r: RequestOut)
    requires IsLine(out.seg) && u <= |out.seg| - 2
    ensures |r.seg| == |out.seg| && (NoCr(out.seg) ==> NoCr(r.seg))
  {
    var i := FindBlank(CStr(out.seg, u));
    if i == |CStr(out.seg, u)| then
      out.(version := Set(None), code := BadRequest)
    else
      CStrCut(out.seg, u, i);
      CutLine(out.seg, u + i);
      CStrEnds(out.seg, u, |out.seg| - 2);
      AfterUrl(out.(seg := out.seg[u + i := NUL]), u, u + i)
  }

  /** Lines 278 to 283, with the separator of URL and version at sep. */
  function AfterUrl(out: RequestOut, u: nat, sep: nat): (r: RequestOut)
    requires IsLine(out.seg) && sep + 1 <= |out.seg| - 2
    requires u <= sep && u + |CStr(out.seg, u)| == sep
    ensures |r.seg| == |out.seg| && (NoCr(out.seg) ==> NoCr(r.seg))
  {
    var v := sep + 1 + SkipBlanks(CStr(out.seg, sep + 1));
    CStrEnds(out.seg, sep + 1, |out.seg| - 2);
    CStrEnds(out.seg, v, |out.seg| - 2);
    var next := out.(version := Set(Some(v)));
    if EqNoCase(CStr(out.seg, v), VERSION) then Target(next, u, sep)
    else next.(code := BadRequest)
  }

  /** Lines 252 to 265: the method, cut off before offset at. */
  function MethodName(out: RequestOut, at: nat): (r: RequestOut)
    requires IsLine(out.seg) && at <= |out.seg| - 2
    ensures |r.seg| == |out.seg| && (NoCr(out.seg) ==> NoCr(r.seg))
  {
    var name := CStr(out.seg, 0);
    if EqNoCase(name, "GET") then AfterMethod(out.(verb := Some(GET)), at)
    else if EqNoCase(name, "POST") then AfterMethod(out.(verb := Some(POST)), at)
    else out
  }

  /** parse_request_line. */
  function ParseRequestLine(seg: seq<char>): (r: RequestOut)
    requires IsLine(seg)
    ensures |r.seg| == |seg| && (NoCr(seg) ==> NoCr(r.seg))
  {
    var i := FindBlank(CStr(seg, 0));
    CStrEnds(seg, 0, |seg| - 2);
    if i == |CStr(seg, 0)| then
      RequestOut(seg, BadRequest, None, None, Keep)
    else
      CutLine(seg, i);
      MethodName(RequestOut(seg[i := NUL], BadRequest, None, Some(i + 1), Keep), i + 1)
  }

  /** The fields parse_headers sets; host is relative to the line. */
  datatype HeaderOut =
    | EndOfHeaders
    | KeepAlive
    | Length(n: int)
    | Host(at: nat)
    | Other

  const CONNECTION := "Connection:"
  const CONTENT_LENGTH := "Content-Length:"
  const HOST := "Host:"
  const KEEP_ALIVE := "keep-alive"

  function Value(text: string, name: string): (v: string)
    requires |name| <= |text|
  {
    text[|name| + SkipBlanks(text[|name|..])..]
  }

  /** parse_headers on the text of a line. */
  function ParseHeader(text: string): (r: HeaderOut)
    ensures r.EndOfHeaders? <==> text == []
    ensures r.Host? ==> r.at <= |text|
  {
    if text == [] then EndOfHeaders
    else if PrefixNoCase(text, CONNECTION) then
      if EqNoCase(Value(text, CONNECTION), KEEP_ALIVE) then KeepAlive else Other
    else if PrefixNoCase(text, CONTENT_LENGTH) then
      Length(Atol(Value(text, CONTENT_LENGTH)))
    else if PrefixNoCase(text, HOST) then
      Host(|HOST| + SkipBlanks(text[|HOST|..]))
    else Other
  }
}

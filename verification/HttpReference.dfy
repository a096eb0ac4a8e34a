/** What the parser should compute, on strings alone: split the input at CR LF, then fold over
    the lines. Section 2.2 of RFC 9112 describes messages this way; the grammar of the lines is
    the source's own, more lenient one. */
module HttpReference {
  import opened Wrappers
  import opened CString
  import opened HttpLine

  datatype Request = Request(verb: Method, target: string, host: Option<string>, length: int, linger: bool)

  datatype Outcome =
    | More                                  // no complete head, and nothing wrong with it yet
    | Rejected
    | Crashed                               // undefined behaviour
    | Ready(request: Request)               // a request without body
    | Body(request: Request, rest: string)  // the head of a request with body, and what follows

  function FindLineEnd(s: string): (i: nat)
    ensures i <= |s| && (forall k :: 0 <= k < i ==> s[k] != '\r' && s[k] != '\n')
    ensures i < |s| ==> s[i] == '\r' || s[i] == '\n'
  {
    if s == [] || s[0] == '\r' || s[0] == '\n' then 0 else 1 + FindLineEnd(s[1..])
  }

  /** The first line and the rest; None also when a bare CR or LF comes first. */
  function NextLine(s: string): (r: Option<(string, string)>)
    ensures r.Some? ==> |r.value.1| < |s|
  {
    var i := FindLineEnd(s);
    if i + 1 < |s| && s[i] == '\r' && s[i + 1] == '\n' then Some((s[..i], s[i + 2..])) else None
  }

  datatype Verdict = Accept(verb: Method, target: string) | Reject | Crash

  /** The target without scheme and authority. */
  function Strip(t: string, scheme: string): Option<string>
  {
    if PrefixNoCase(t, scheme) then
      var i := FindChar(t[|scheme|..], '/');
      if |scheme| + i == |t| then None else Some(t[|scheme| + i..])
    else Some(t)
  }

  function TargetOf(verb: Method, t: string): Verdict
  {
    var t1 := Strip(t, HTTP);
    if t1 == None then Crash
    else
      var t2 := Strip(t1.value, HTTPS);
      if t2 == None || t2.value == [] || t2.value[0] != '/' then Reject
      else Accept(verb, if |t2.value| == 1 then "/judge.html" else t2.value)
  }

  function Rest(s: string): string { s[SkipBlanks(s)..] }

  /** From the first character of the target on. */
  function UrlThenVersion(verb: Method, u: string): Verdict
  {
    var i := FindBlank(u);
    if i == |u| then Reject
    else if EqNoCase(Rest(u[i + 1..]), VERSION) then TargetOf(verb, u[..i])
    else Reject
  }

  function UrlAndVersion(verb: Method, s: string): Verdict { UrlThenVersion(verb, Rest(s)) }

  function ReadRequestLine(line: string): Verdict
  {
    var i := FindBlank(line);
    if i == |line| then Reject
    else if EqNoCase(line[..i], "GET") then UrlAndVersion(GET, line[i + 1..])
    else if EqNoCase(line[..i], "POST") then UrlAndVersion(POST, line[i + 1..])
    else Reject
  }

  function ReadHeader(r: Request, line: string): Request
  {
    match ParseHeader(line)
    case KeepAlive => r.(linger := true)
    case Length(n) => r.(length := n)
    case Host(at) => r.(host := Some(line[at..]))
    case _ => r
  }

  function Finish(r: Request, rest: string): Outcome
  {
    if r.length != 0 then Body(r, rest) else Ready(r)
  }

  function ReadHeaders(r: Request, s: string): (o: Outcome)
    ensures o.Body? ==> |o.rest| <= |s|
    decreases |s|
  {
    match NextLine(s)
    case None => More
    case Some((line, rest)) => if line == [] then Finish(r, rest) else ReadHeaders(ReadHeader(r, line), rest)
  }

  function ReadRequest(s: string): (o: Outcome)
    ensures o.Body? ==> |o.rest| <= |s|
  {
    match NextLine(s)
    case None => More
    case Some((line, rest)) =>
      match ReadRequestLine(line)
      case Accept(verb, target) => ReadHeaders(Request(verb, target, None, 0, false), rest)
      case Reject => Rejected
      case Crash => Crashed
  }

  // ----- What is accepted -----

  predicate IsText(s: string) { forall k :: 0 <= k < |s| ==> s[k] != '\r' && s[k] != '\n' }

  predicate AllText(lines: seq<string>) { forall k :: 0 <= k < |lines| ==> IsText(lines[k]) && lines[k] != [] }

  const CRLF := "\r\n"

  /** Header lines, each ended by CR LF, an empty line and what follows. */
  function Render(lines: seq<string>, rest: string): string
  {
    if lines == [] then CRLF + rest else lines[0] + CRLF + Render(lines[1..], rest)
  }

  function FoldHeaders(r: Request, lines: seq<string>): Request
    decreases |lines|
  {
    if lines == [] then r else FoldHeaders(ReadHeader(r, lines[0]), lines[1..])
  }

  lemma {:induction false} LineEndIs(line: string, tail: string)
    requires IsText(line)
    ensures FindLineEnd(line + CRLF + tail) == |line|
    ensures NextLine(line + CRLF + tail) == Some((line, tail))
  {
    var s := line + CRLF + tail;
    if line != [] {
      assert s[1..] == line[1..] + CRLF + tail;
      LineEndIs(line[1..], tail);
    }
    assert s[..|line|] == line && s[|line| + 2..] == tail;
  }

  lemma NextLineSplits(s: string)
    requires NextLine(s).Some?
    ensures var (line, rest) := NextLine(s).value; IsText(line) && s == line + CRLF + rest
  {
    var i := FindLineEnd(s);
    assert s == s[..i] + [s[i], s[i + 1]] + s[i + 2..];
  }

  /** Any well-formed head is read to its end, whatever follows it. */
  lemma {:induction false} HeadersComplete(r: Request, lines: seq<string>, rest: string)
    requires AllText(lines)
    ensures ReadHeaders(r, Render(lines, rest)) == Finish(FoldHeaders(r, lines), rest)
    decreases |lines|
  {
    if lines == [] {
      assert [] + CRLF + rest == CRLF + rest;
      LineEndIs([], rest);
    } else {
      LineEndIs(lines[0], Render(lines[1..], rest));
      HeadersComplete(ReadHeader(r, lines[0]), lines[1..], rest);
    }
  }

  /** The end of the headers is reached only through header lines and an empty line, all ended
      by CR LF. */
  lemma {:induction false} HeadersSound(r: Request, s: string) returns (lines: seq<string>, rest: string)
    ensures ReadHeaders(r, s) != More ==>
              && AllText(lines) && s == Render(lines, rest)
              && ReadHeaders(r, s) == Finish(FoldHeaders(r, lines), rest)
    decreases |s|
  {
    lines, rest := [], [];
    if NextLine(s).Some? {
      NextLineSplits(s);
      var (line, tail) := NextLine(s).value;
      if line == [] {
        rest := tail;
      } else {
        var more;
        more, rest := HeadersSound(ReadHeader(r, line), tail);
        lines := [line] + more;
      }
    }
  }

  /** Later lines are folded in later. */
  lemma {:induction false} FoldAppends(r: Request, lines: seq<string>, line: string)
    ensures FoldHeaders(r, lines + [line]) == ReadHeader(FoldHeaders(r, lines), line)
    decreases |lines|
  {
    if lines == [] {
      assert ([] + [line])[1..] == [];
    } else {
      assert (lines + [line])[1..] == lines[1..] + [line];
      FoldAppends(ReadHeader(r, lines[0]), lines[1..], line);
    }
  }

  /** The first line decides, if there is one; an accepted request starts without host, without body
      and not to be kept open, and every header line after that adds what it says. */
  lemma FirstLineDecides(s: string, line: string, lines: seq<string>, rest: string)
    requires IsText(line)
    ensures (forall l: string, t: string :: IsText(l) ==> s != l + CRLF + t) ==> ReadRequest(s) == More
    ensures ReadRequestLine(line) == Reject ==> ReadRequest(line + CRLF + rest) == Rejected
    ensures ReadRequestLine(line) == Crash ==> ReadRequest(line + CRLF + rest) == Crashed
    ensures ReadRequestLine(line).Accept? && AllText(lines) ==>
              var r := Request(ReadRequestLine(line).verb, ReadRequestLine(line).target, None, 0, false);
              ReadRequest(line + CRLF + Render(lines, rest)) == Finish(FoldHeaders(r, lines), rest)
  {
    hide NextLine, ReadRequestLine, ReadHeaders;
    if NextLine(s).Some? {
      NextLineSplits(s);
    }
    LineEndIs(line, rest);
    LineEndIs(line, Render(lines, rest));
    if ReadRequestLine(line).Accept? && AllText(lines) {
      HeadersComplete(Request(ReadRequestLine(line).verb, ReadRequestLine(line).target, None, 0, false), lines, rest);
    }
  }

  /** A body follows exactly a head with a length other than 0. */
  lemma {:induction false} BodyIffLength(r: Request, s: string)
    ensures match ReadHeaders(r, s)
            case Body(r', _) => r'.length != 0
            case Ready(r') => r'.length == 0
            case More => true
            case _ => false
    decreases |s|
  {
    hide ReadHeader;
    if NextLine(s).Some? {
      var (line, rest) := NextLine(s).value;
      if line != [] {
        BodyIffLength(ReadHeader(r, line), rest);
      }
    }
  }

  /** A request is read to the end of its head if and only if it is a request line that is
      accepted, header lines and an empty line. */
  lemma AcceptedIff(s: string)
    ensures (ReadRequest(s).Ready? || ReadRequest(s).Body?) <==>
            exists line: string, lines: seq<string>, rest: string ::
              IsText(line) && AllText(lines) && ReadRequestLine(line).Accept?
              && s == line + CRLF + Render(lines, rest)
  {
    if ReadRequest(s).Ready? || ReadRequest(s).Body? {
      NextLineSplits(s);
      var (line, tail) := NextLine(s).value;
      var r := Request(ReadRequestLine(line).verb, ReadRequestLine(line).target, None, 0, false);
      var lines, rest := HeadersSound(r, tail);
      assert s == line + CRLF + Render(lines, rest);
    }
    if line: string, lines: seq<string>, rest: string :|
        IsText(line) && AllText(lines) && ReadRequestLine(line).Accept?
        && s == line + CRLF + Render(lines, rest)
    {
      LineEndIs(line, Render(lines, rest));
      HeadersComplete(Request(ReadRequestLine(line).verb, ReadRequestLine(line).target, None, 0, false), lines, rest);
    }
  }

  // ----- More input -----

  lemma NextLineGrows(p: string, q: string)
    ensures NextLine(p).Some? ==> NextLine(p + q) == Some((NextLine(p).value.0, NextLine(p).value.1 + q))
    ensures NextLine(p + q).Some? && |NextLine(p + q).value.1| >= |q| ==> NextLine(p).Some?
  {
    if NextLine(p).Some? {
      NextLineSplits(p);
      var (line, rest) := NextLine(p).value;
      assert p + q == line + CRLF + (rest + q);
      LineEndIs(line, rest + q);
    }
    if NextLine(p + q).Some? && |NextLine(p + q).value.1| >= |q| {
      NextLineSplits(p + q);
      var (line, tail) := NextLine(p + q).value;
      var rest := tail[..|tail| - |q|];
      assert p == (p + q)[..|p|] == line + CRLF + rest;
      LineEndIs(line, rest);
    }
  }

  lemma {:induction false} HeadersGrow(r: Request, p: string, q: string)
    ensures match ReadHeaders(r, p)
            case Body(r', part) => ReadHeaders(r, p + q) == Body(r', part + q)
            case _ => true
    ensures match ReadHeaders(r, p + q)
            case Body(_, rest) => |rest| >= |q| ==> ReadHeaders(r, p).Body?
            case _ => true
    decreases |p + q|
  {
    hide NextLine, ReadHeader;
    NextLineGrows(p, q);
    if NextLine(p).Some? {
      var (line, rest) := NextLine(p).value;
      if line != [] {
        HeadersGrow(ReadHeader(r, line), rest, q);
      }
    }
  }

  /** More input leaves a head that is complete as it is, and a head that was complete without the
      last bytes was so before they came. */
  lemma HeadGrows(p: string, q: string)
    ensures match ReadRequest(p)
            case Body(r, part) => ReadRequest(p + q) == Body(r, part + q)
            case _ => true
    ensures match ReadRequest(p + q)
            case Body(_, rest) => |rest| >= |q| ==> ReadRequest(p).Body?
            case _ => true
  {
    hide NextLine, ReadHeaders, ReadRequestLine;
    NextLineGrows(p, q);
    if NextLine(p).Some? {
      var (line, rest) := NextLine(p).value;
      var v := ReadRequestLine(line);
      if v.Accept? {
        HeadersGrow(Request(v.verb, v.target, None, 0, false), rest, q);
      }
    }
  }

  /** Where the last complete line of s ends. */
  function LinesEnd(s: string): nat
    decreases |s|
  {
    match NextLine(s)
    case None => 0
    case Some((_, rest)) => |s| - |rest| + LinesEnd(rest)
  }

  lemma VersionStarts(v: string)
    requires EqNoCase(v, VERSION)
    ensures |v| == 8 && !Blank(v[0])
  {
    assert Lower(v[0]) == Lower(VERSION[0]);
  }
}

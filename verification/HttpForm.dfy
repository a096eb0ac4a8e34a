/** The login form: the loops of do_request that take user name and password out of the body,
    and a whole POST request from its bytes to the two strings. */
module HttpForm {
  import opened Wrappers
  import opened CString
  import opened HttpLine
  import M = HttpMachine
  import opened HttpChunks
  import opened HttpReference
  import opened HttpRefinement
  import opened HttpCuts
  import opened HttpResponse
  import opened HttpTheorems
  import opened HttpGrammar

  /** Size of the arrays name and password. */
  const FIELD := 100

  /** First position of c from at on. */
  function FindFrom(buf: seq<char>, at: nat, c: char): (r: Option<nat>)
    ensures r.Some? ==> at <= r.value < |buf| && buf[r.value] == c && forall k :: at <= k < r.value ==> buf[k] != c
    ensures r == None ==> forall k :: at <= k < |buf| ==> buf[k] != c
    decreases |buf| - at
  {
    if at >= |buf| then None
    else if buf[at] == c then Some(at)
    else FindFrom(buf, at + 1, c)
  }

  /** Name from 5 characters into the body up to '&', password from 10 characters after it up to
      NUL; None where the source leaves the buffer or one of its arrays. */
  function Credentials(buf: seq<char>, body: nat): Option<(string, string)>
  {
    match FindFrom(buf, body + 5, '&')
    case None => None
    case Some(amp) =>
      if amp - (body + 5) >= FIELD then None
      else
        match FindFrom(buf, amp + 10, NUL)
        case None => None
        case Some(end) =>
          if end - (amp + 10) >= FIELD then None
          else Some((CStr(buf[body + 5..amp], 0), CStr(buf[amp + 10..end], 0)))
  }

  /** Copies characters into an array from position 0 until stop turns up, and terminates the
      copy: the shape of both loops. */
  method CopyUntil(buf: array<char>, at: nat, stop: char, field: array<char>) returns (end: Option<nat>)
    requires field.Length == FIELD && field != buf
    modifies field
    ensures end == (match FindFrom(buf[..], at, stop)
                    case None => None
                    case Some(e) => if e - at >= FIELD then None else Some(e))
    ensures end.Some? ==> at <= end.value <= buf.Length && end.value - at < FIELD
                          && field[..end.value - at] == buf[at..end.value] && field[end.value - at] == NUL
  {
    var i := at;
    while i < buf.Length && buf[i] != stop
      invariant at <= i && i - at <= FIELD
      invariant FindFrom(buf[..], at, stop) == FindFrom(buf[..], i, stop)
      invariant i <= buf.Length || i == at
      invariant i - at <= FIELD && (i > at ==> field[..i - at] == buf[at..i])
      decreases buf.Length - i
    {
      if i - at >= FIELD {
        return None;
      }
      field[i - at] := buf[i];
      i := i + 1;
      assert FindFrom(buf[..], i - 1, stop) == FindFrom(buf[..], i, stop);
    }
    if i >= buf.Length || i - at >= FIELD {
      return None;
    }
    field[i - at] := NUL;
    return Some(i);
  }

  /** Lines 466 to 479 of do_request. */
  method ExtractCredentials(buf: array<char>, body: nat) returns (r: Option<(string, string)>)
    ensures r == Credentials(buf[..], body)
  {
    var name, password := new char[FIELD], new char[FIELD];
    var amp := CopyUntil(buf, body + 5, '&', name);
    if amp == None {
      return None;
    }
    var end := CopyUntil(buf, amp.value + 10, NUL, password);
    if end == None {
      return None;
    }
    CopiedString(name[..], buf[body + 5..amp.value]);
    CopiedString(password[..], buf[amp.value + 10..end.value]);
    return Some((CStr(name[..], 0), CStr(password[..], 0)));
  }

  lemma CopiedString(field: seq<char>, text: string)
    requires |text| < |field| && field[..|text|] == text && field[|text|] == NUL
    ensures CStr(field, 0) == CStr(text, 0)
  {
    assert forall k :: 0 <= k < |text| ==> field[k] == field[..|text|][k];
    CStrIs(field, 0, CStr(text, 0));
  }

  // ----- Round trip of a form -----

  function Form(name: string, password: string): string
  {
    "user=" + name + "&password=" + password
  }

  lemma {:induction false} FindFromIs(buf: seq<char>, at: nat, c: char, i: nat)
    requires at <= i < |buf| && buf[i] == c && forall k :: at <= k < i ==> buf[k] != c
    ensures FindFrom(buf, at, c) == Some(i)
    decreases i - at
  {
    if at < i {
      FindFromIs(buf, at + 1, c, i);
    }
  }

  /** The loops go by position: whatever the first 5 characters are and the 9 behind the first '&'
      after them, they recover what is between and what follows, if and only if both fit into their
      arrays with their terminators. */
  lemma FieldsByPosition(buf: seq<char>, body: nat, a: string, name: string, b: string, password: string)
    requires body <= |buf| && CStr(buf, body) == a + (name + (b + password))
    requires body + |CStr(buf, body)| < |buf|
    requires |a| == 5 && |b| == 10 && b[0] == '&' && forall k :: 0 <= k < |name| ==> name[k] != '&'
    ensures Credentials(buf, body)
            == if |name| < 100 && |password| < 100 then Some((name, password)) else None
  {
    hide CStr, FindFrom;
    var f, amp := a + (name + (b + password)), 5 + |name|;
    TextInBuffer(buf, body, f);
    assert f[5..amp] == name && f[amp] == '&' && f[amp + 10..] == password;
    assert forall k :: 5 <= k < amp ==> f[k] == f[5..amp][k - 5];
    FindFromIs(buf, body + 5, '&', body + amp);
    FindFromIs(buf, body + amp + 10, NUL, body + |f|);
    assert buf[body + 5..body + amp] == name;
    assert buf[body + amp + 10..body + |f|] == password;
    CStrIs(name, 0, name);
    CStrIs(password, 0, password);
  }

  /** So they recover name and password from any buffer in which m_string shows the form. */
  lemma FormRoundTrip(buf: seq<char>, body: nat, name: string, password: string)
    requires body <= |buf| && CStr(buf, body) == Form(name, password)
    requires body + |Form(name, password)| < |buf|
    requires forall k :: 0 <= k < |name| ==> name[k] != '&'
    ensures Credentials(buf, body)
            == if |name| < 100 && |password| < 100 then Some((name, password)) else None
  {
    hide Credentials, CStr;
    assert Form(name, password) == "user=" + (name + ("&password=" + password));
    FieldsByPosition(buf, body, "user=", name, "&password=", password);
  }

  lemma FormShape(name: string, password: string)
    ensures var f, amp := Form(name, password), 5 + |name|;
            && |f| == amp + 10 + |password| && f[5..amp] == name && f[amp] == '&' && f[amp + 10..] == password
  {
    assert Form(name, password) == "user=" + (name + ("&password=" + password));
  }

  lemma TextInBuffer(buf: seq<char>, at: nat, text: string)
    requires at <= |buf| && CStr(buf, at) == text
    ensures at + |text| <= |buf| && buf[at..at + |text|] == text
    ensures forall k :: at <= k < at + |text| ==> buf[k] == text[k - at] && buf[k] != NUL
    ensures forall k :: 0 <= k < |text| ==> text[k] != NUL
    ensures at + |text| < |buf| ==> buf[at + |text|] == NUL
  {
    assert forall k :: at <= k < at + |text| ==> buf[k] == text[k - at];
  }

  // ----- A whole request -----

  predicate PlainTarget(t: string)
  {
    |t| > 1 && t[0] == '/' && forall k :: 0 <= k < |t| ==> !Blank(t[k]) && t[k] != '\r' && t[k] != '\n' && t[k] != NUL
  }

  /** POST target HTTP/1.1, a Content-Length header for n bytes, and what follows the head. */
  function Post(target: string, n: int, rest: string): string
  {
    ("POST " + target + " HTTP/1.1") + CRLF + Render([LengthLine(n)], rest)
  }

  lemma PlainTargetAccepted(verb: Method, t: string)
    requires PlainTarget(t)
    ensures TargetOf(verb, t) == Accept(verb, t)
  {
  }

  lemma PostLineReads(target: string)
    requires PlainTarget(target)
    ensures ReadRequestLine("POST " + target + " HTTP/1.1") == Accept(POST, target)
    ensures IsText("POST " + target + " HTTP/1.1")
  {
    hide TargetOf, ReadRequestLine;
    var line := "POST " + target + " HTTP/1.1";
    assert line == "POST" + " " + target + " " + VERSION;
    assert !EqNoCase("POST", "GET");
    ShapeDecides(line, "POST", " ", target, " ", VERSION);
    PlainTargetAccepted(POST, target);
  }

  /** The reference reads such a request as what it is. */
  lemma PostReads(target: string, n: int, rest: string)
    requires PlainTarget(target) && 0 < n < 0x8000_0000
    ensures ReadRequest(Post(target, n, rest)) == Body(Request(POST, target, None, n, false), rest)
  {
    hide ReadRequestLine, LengthLine, ParseHeader;
    var line := "POST " + target + " HTTP/1.1";
    var lines := [LengthLine(n)];
    PostLineReads(target);
    LineEndIs(line, Render(lines, rest));
    LengthLineReads(n);
    var r := Request(POST, target, None, 0, false);
    HeadersComplete(r, lines, rest);
    assert lines[1..] == [] && FoldHeaders(r, lines) == ReadHeader(r, lines[0]);
  }

  /** A login request: POST with a form of exactly the announced length. */
  function Login(target: string, name: string, password: string): string
  {
    Post(target, |Form(name, password)|, Form(name, password))
  }

  /** Some chunk ends strictly inside the last n bytes, the form. */
  ghost predicate CutsForm(chunks: seq<string>, n: nat)
  {
    exists k :: 0 < k < |chunks| && |M.Concat(chunks)| - n < |M.Concat(chunks[..k])| < |M.Concat(chunks)|
  }

  /** A form starts with a letter, so a cut is safe if and only if it is not inside the form. */
  lemma LoginCuts(chunks: seq<string>, target: string, name: string, password: string)
    requires M.Concat(chunks) == Login(target, name, password) && PlainTarget(target)
    requires |M.Concat(chunks)| < M.READ_BUFFER_SIZE
    ensures SafeCuts(chunks) <==> !CutsForm(chunks, |Form(name, password)|)
  {
    hide ReadRequest, Post, SafeCut, PlainTarget;
    var s, form := M.Concat(chunks), Form(name, password);
    PostLength(target, |form|, form);
    PostReads(target, |form|, form);
    forall k | 0 < k < |chunks|
      ensures SafeCut(M.Concat(chunks[..k])) <==> !(|s| - |form| < |M.Concat(chunks[..k])| < |s|)
    {
      PrefixLength(chunks, k);
      LoginCut(M.Concat(chunks[..k]), s, target, name, password);
    }
  }

  lemma LoginCut(p: string, s: string, target: string, name: string, password: string)
    requires s == Login(target, name, password) && PlainTarget(target)
    requires |p| <= |s| < M.READ_BUFFER_SIZE && p == s[..|p|]
    ensures SafeCut(p) <==> !(|s| - |Form(name, password)| < |p| < |s|)
  {
    hide ReadRequest, Post, SafeCut, PlainTarget, Harmless;
    var form := Form(name, password);
    var head := |s| - |form|;
    PostLength(target, |form|, form);
    PostReads(target, |form|, form);
    assert s == p + s[|p|..];
    SafeCutIff(p, s[|p|..]);
    if head < |p| < |s| {
      BodyIsSuffix(s);
      assert s[head..|p|][0] == s[head..][0] == form[0] == 'u';
      LetterIsHarmful(s[head..|p|]);
    }
  }

  lemma LetterIsHarmful(part: string)
    requires part != [] && part[0] == 'u'
    ensures !Harmless(part)
  {
  }

  lemma PostLength(target: string, n: int, rest: string)
    ensures |Post(target, n, rest)| >= |rest|
  {
    hide LengthLine;
    assert [LengthLine(n)][1..] == [];
    assert Render([LengthLine(n)], rest) == LengthLine(n) + CRLF + (CRLF + rest);
  }

  /** From the bytes of a login request, in any chunks that do not cut the form, to the test of cgi
      and the two strings that do_request looks up. */
  lemma LoginRoundTrip(c: M.Conn, chunks: seq<string>, target: string, name: string, password: string)
    requires FreshConn(c) && Entry(c) && |c.buf| == M.READ_BUFFER_SIZE
    requires M.Concat(chunks) == Login(target, name, password) && PlainTarget(target) && chunks != []
    requires |M.Concat(chunks)| < M.READ_BUFFER_SIZE && NulFree(M.Concat(chunks))
    requires |name| < FIELD && |password| < FIELD && forall k :: 0 <= k < |name| ==> name[k] != '&'
    requires !CutsForm(chunks, |Form(name, password)|)
    ensures var (d, code) := Serve(c, chunks);
            && code == GetRequest && d.verb == POST && d.cgi
            && d.url.Some? && d.url.value <= |d.buf| && CStr(d.buf, d.url.value) == target
            && d.body.Some? && Credentials(d.buf, d.body.value) == Some((name, password))
  {
    hide Serve, CutsForm, SafeCuts, ReadRequest, Post, CStr, Credentials, LinesEnd;
    var form := Form(name, password);
    LoginCuts(chunks, target, name, password);
    PostReads(target, |form|, form);
    ServeRefines(c, chunks);
    ServeCgi(c, chunks);
    var (d, code) := Serve(c, chunks);
    assert form[..|form|] == form;
    FormRoundTrip(d.buf, d.body.value, name, password);
  }

  // ----- A body that is cut -----

  /** A request that ends with its body, on the wire: in chunks it is answered if and only if every
      cut inside the body leaves a part there that parse_line cannot get past. */
  lemma SplitBodyIff(c: M.Conn, chunks: seq<string>)
    requires FreshConn(c) && Entry(c) && |c.buf| == M.READ_BUFFER_SIZE && chunks != []
    requires |M.Concat(chunks)| < M.READ_BUFFER_SIZE && NulFree(M.Concat(chunks))
    ensures Fits(c, M.Concat(chunks))
    ensures match ReadRequest(M.Concat(chunks))
            case Body(r, rest) => r.length == |rest| ==> (Serve(c, chunks).1 == GetRequest <==> SafeCuts(chunks))
            case _ => true
  {
    hide M.Process, Serve, SafeCuts, ReadRequest, HeaderPhase, LinesEnd;
    var s := M.Concat(chunks);
    if ReadRequest(s).Body? && ReadRequest(s).request.length == |ReadRequest(s).rest| {
      ProcessRefines(c, s);
      ServeIff(c, chunks);
      EndsWithBody(c, s);
    }
  }

  lemma EndsWithBody(c: M.Conn, s: string)
    requires FreshConn(c) && Entry(c) && |s| < |c.buf| == M.READ_BUFFER_SIZE && NulFree(s)
    requires ReadRequest(s).Body? && ReadRequest(s).request.length == |ReadRequest(s).rest|
    ensures ExactBody(M.Process(M.Feed(c, s)).0)
  {
    hide HeaderPhase, M.ParseLine, ReadRequest, M.Loop, Settled, CStr;
    ParserRefines(c, s);
    var e := M.Feed(c, s);
    var h := HeaderPhase(e).0;
    LoopIsHeaderThenBody(e);
    BodyDecided(h);
    LengthNotZero(s);
  }

  /** So a login form that is cut anywhere inside, however often, is never answered, although the
      same bytes at once are. */
  lemma CutFormIsLost(c: M.Conn, chunks: seq<string>, target: string, name: string, password: string)
    requires FreshConn(c) && Entry(c) && |c.buf| == M.READ_BUFFER_SIZE
    requires M.Concat(chunks) == Login(target, name, password) && PlainTarget(target) && chunks != []
    requires |M.Concat(chunks)| < M.READ_BUFFER_SIZE && NulFree(M.Concat(chunks))
    ensures Serve(c, chunks).1 == GetRequest <==> !CutsForm(chunks, |Form(name, password)|)
    ensures M.Process(M.Feed(c, M.Concat(chunks))).1 == GetRequest
  {
    hide Serve, M.Process, CutsForm, SafeCuts, ReadRequest, Post, LinesEnd;
    var form := Form(name, password);
    FormShape(name, password);
    PostLength(target, |form|, form);
    PostReads(target, |form|, form);
    LoginCuts(chunks, target, name, password);
    SplitBodyIff(c, chunks);
    ProcessRefines(c, M.Concat(chunks));
  }
}

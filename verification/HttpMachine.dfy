/** The resumable parser of http_conn.cpp on values: parse_line inside process_read. */
module HttpMachine {
  import opened Wrappers
  import opened CString
  import opened HttpLine

  const READ_BUFFER_SIZE := 2048

  datatype CheckState = RequestLine | Header | Content

  datatype LineStatus = LineOk | LineBad | LineOpen

  /** The parser's fields; pointers into m_read_buf are offsets, body is m_string. */
  datatype Conn = Conn(
    buf: seq<char>, readIdx: int, checkIdx: int, startLine: int,
    state: CheckState, verb: Method, url: Option<nat>, version: Option<nat>, host: Option<nat>,
    contentLength: int, linger: bool, cgi: bool, body: Option<nat>)

  /** init(): cgi and m_string keep what the previous request left. */
  function Init(cgi: bool, body: Option<nat>): Conn
  {
    Conn(seq(READ_BUFFER_SIZE, _ => NUL), 0, 0, 0, RequestLine, GET, None, None, None, 0, false, cgi, body)
  }

  /** read(): the bytes recv delivers go behind those already there. */
  function Feed(c: Conn, bytes: seq<char>): (r: Conn)
    requires 0 <= c.readIdx && c.readIdx + |bytes| <= |c.buf|
    ensures |r.buf| == |c.buf| && r == c.(buf := r.buf, readIdx := c.readIdx + |bytes|)
    ensures Good(c) ==> Good(r)
    ensures forall k :: 0 <= k < |c.buf| ==>
              r.buf[k] == if c.readIdx <= k < c.readIdx + |bytes| then bytes[k - c.readIdx] else c.buf[k]
  {
    c.(buf := c.buf[..c.readIdx] + bytes + c.buf[c.readIdx + |bytes|..], readIdx := c.readIdx + |bytes|)
  }

  lemma FeedMore(c: Conn, a: seq<char>, b: seq<char>)
    requires 0 <= c.readIdx && c.readIdx + |a| + |b| <= |c.buf|
    ensures Feed(Feed(c, a), b) == Feed(c, a + b)
  {
    assert Feed(Feed(c, a), b).buf == Feed(c, a + b).buf;
  }

  function Concat(chunks: seq<seq<char>>): seq<char>
  {
    if chunks == [] then [] else chunks[0] + Concat(chunks[1..])
  }

  predicate Bounds(c: Conn)
  {
    0 <= c.startLine <= c.checkIdx <= c.readIdx <= |c.buf|
  }

  /** What holds between calls: what has been scanned contains no CR any more. */
  predicate Good(c: Conn)
  {
    Bounds(c) && forall k :: 0 <= k < c.checkIdx ==> c.buf[k] != '\r'
  }

  /** parse_line. */
  function ParseLine(c: Conn): (r: (Conn, LineStatus))
    requires Bounds(c)
    ensures Bounds(r.0) && c.checkIdx <= r.0.checkIdx && |r.0.buf| == |c.buf|
    ensures r.0.(buf := c.buf, checkIdx := c.checkIdx) == c
    ensures r.1 == LineOk ==> c.checkIdx < r.0.checkIdx
    decreases c.readIdx - c.checkIdx
  {
    var p := c.checkIdx;
    if p >= c.readIdx then (c, LineOpen)
    else if c.buf[p] == '\r' then
      if p + 1 == c.readIdx then (c, LineOpen)
      else if c.buf[p + 1] == '\n' then
        (c.(buf := c.buf[p := NUL][p + 1 := NUL], checkIdx := p + 2), LineOk)
      else (c, LineBad)
    else if c.buf[p] == '\n' then
      if p > 1 && c.buf[p - 1] == '\r' then
        (c.(buf := c.buf[p - 1 := NUL][p := NUL], checkIdx := p + 1), LineOk)
      else (c, LineBad)
    else ParseLine(c.(checkIdx := p + 1))
  }

  /** Nothing more has arrived, or only a CR: the line may still come. */
  predicate LineMayCome(c: Conn)
    requires Bounds(c)
  {
    c.checkIdx == c.readIdx || (c.buf[c.checkIdx] == '\r' && c.checkIdx + 1 == c.readIdx)
  }

  /** A bare LF, or a CR that something else follows. */
  predicate BareHere(c: Conn)
    requires Bounds(c)
  {
    var p := c.checkIdx;
    p < c.readIdx && (c.buf[p] == '\n' || (c.buf[p] == '\r' && p + 1 < c.readIdx && c.buf[p + 1] != '\n'))
  }

  /** The scan has stopped without a line. */
  predicate NoLineHere(c: Conn)
    requires Bounds(c)
  {
    LineMayCome(c) || BareHere(c)
  }

  /** From a good state parse_line ends a line only at CR LF, never through the branch for an LF
      whose CR was seen earlier, and leaves a good state. */
  lemma {:induction false} ParseLineGood(c: Conn)
    requires Good(c)
    ensures var (d, status) := ParseLine(c);
            && Good(d)
            && (status == LineOk ==>
                  && c.checkIdx + 2 <= d.checkIdx
                  && c.buf[d.checkIdx - 2] == '\r' && c.buf[d.checkIdx - 1] == '\n'
                  && d.buf == c.buf[d.checkIdx - 2 := NUL][d.checkIdx - 1 := NUL])
            && (status != LineOk ==> d.buf == c.buf && NoLineHere(d))
            && (status == LineOpen ==> LineMayCome(d)) && (status == LineBad ==> BareHere(d))
            && (forall k :: c.checkIdx <= k < d.checkIdx - (if status == LineOk then 2 else 0) ==>
                  c.buf[k] != '\r' && c.buf[k] != '\n')
    decreases c.readIdx - c.checkIdx
  {
    var p := c.checkIdx;
    if p >= c.readIdx || c.buf[p] == '\n' {
    } else if c.buf[p] == '\r' {
      assert ParseLine(c).1 == LineOk ==> ParseLine(c).0.buf == c.buf[p := NUL][p + 1 := NUL];
    } else {
      assert ParseLine(c) == ParseLine(c.(checkIdx := p + 1));
      ParseLineGood(c.(checkIdx := p + 1));
    }
  }

  /** Replaces the line from text to checkIdx. */
  function PutLine(c: Conn, text: int, seg: seq<char>): (r: Conn)
    requires 0 <= text && text + |seg| == c.checkIdx <= |c.buf|
    ensures |r.buf| == |c.buf| && r == c.(buf := r.buf)
    ensures forall k :: 0 <= k < |c.buf| ==>
              r.buf[k] == if text <= k < c.checkIdx then seg[k - text] else c.buf[k]
  {
    c.(buf := c.buf[..text] + seg + c.buf[c.checkIdx..])
  }

  /** A parsed line starts at startLine. */
  predicate AtLine(c: Conn)
  {
    Good(c) && IsLine(c.buf[c.startLine..c.checkIdx])
  }

  function Shift(text: int, at: Option<nat>): Option<nat>
    requires 0 <= text
  {
    if at == None then None else Some(text + at.value)
  }

  /** The fields after parse_request_line: offsets of the line become offsets of the buffer. */
  function TakeRequestLine(c: Conn, out: RequestOut): (r: Conn)
    requires Good(c) && c.startLine + |out.seg| == c.checkIdx && NoCr(out.seg)
    ensures Good(r)
    ensures r.readIdx == c.readIdx && r.checkIdx == r.startLine == c.checkIdx && |r.buf| == |c.buf|
  {
    var d := PutLine(c, c.startLine, out.seg);
    d.(startLine := c.checkIdx,
       verb := if out.verb.Some? then out.verb.value else c.verb,
       cgi := if out.verb == Some(POST) then true else c.cgi,
       url := Shift(c.startLine, out.url),
       version := if out.version.Set? then Shift(c.startLine, out.version.to) else c.version,
       state := if out.code == NoRequest then Header else c.state)
  }

  /** The request line case of process_read. */
  function OnRequestLine(c: Conn): (r: (Conn, Code))
    requires AtLine(c)
    ensures Good(r.0)
    ensures r.0.readIdx == c.readIdx && r.0.checkIdx == r.0.startLine == c.checkIdx && |r.0.buf| == |c.buf|
  {
    var line := c.buf[c.startLine..c.checkIdx];
    assert NoCr(line);
    var out := ParseRequestLine(line);
    (TakeRequestLine(c, out), out.code)
  }

  /** The header case of process_read. */
  function OnHeader(c: Conn): (r: (Conn, Code))
    requires AtLine(c)
    ensures Good(r.0)
    ensures r.0.readIdx == c.readIdx && r.0.checkIdx == r.0.startLine == c.checkIdx && |r.0.buf| == |c.buf|
  {
    var text := c.startLine;
    var d := c.(startLine := c.checkIdx);
    match ParseHeader(CStr(c.buf[text..c.checkIdx], 0))
    case EndOfHeaders => if c.contentLength != 0 then (d.(state := Content), NoRequest) else (d, GetRequest)
    case KeepAlive => (d.(linger := true), NoRequest)
    case Length(n) => (d.(contentLength := n), NoRequest)
    case Host(at) => (d.(host := Some(text + at)), NoRequest)
    case Other => (d, NoRequest)
  }

  const INT_MAX := 0x7FFF_FFFF

  /** The content case of process_read. The sum of two ints must not overflow, and the NUL
      must fall into the buffer. */
  function OnContent(c: Conn): (r: (Conn, Code))
    requires Good(c)
    ensures Good(r.0) && |r.0.buf| == |c.buf|
    ensures r.0.readIdx == c.readIdx && r.0.checkIdx == r.0.startLine == c.checkIdx && r.0.state == c.state
  {
    var text := c.startLine;
    var d := c.(startLine := c.checkIdx);
    var end := text + c.contentLength;
    if c.contentLength + c.checkIdx > INT_MAX then (d, Fault)
    else if c.readIdx < c.contentLength + c.checkIdx then (d, NoRequest)
    else if !(0 <= end < |c.buf|) then (d, Fault)
    else
      (d.(buf := c.buf[end := NUL], body := Some(text)), GetRequest)
  }

  /** The switch of process_read on a line that is complete. */
  function OnLine(c: Conn): (r: (Conn, Code))
    requires AtLine(c)
    ensures Good(r.0)
    ensures r.0.readIdx == c.readIdx && r.0.checkIdx == r.0.startLine == c.checkIdx && |r.0.buf| == |c.buf|
    ensures c.state == Content ==> r.0.state == Content
  {
    match c.state
    case RequestLine => OnRequestLine(c)
    case Header => OnHeader(c)
    case Content => OnContent(c)
  }

  lemma LineComplete(c: Conn)
    requires Good(c) && ParseLine(c).1 == LineOk
    ensures AtLine(ParseLine(c).0)
  {
    ParseLineGood(c);
  }

  /** The loop of process_read; lineOk says that line_staus is LINE_OK. */
  function Loop(c: Conn, lineOk: bool): (r: (Conn, Code))
    requires Good(c)
    ensures Good(r.0) && |r.0.buf| == |c.buf| && c.checkIdx <= r.0.checkIdx && r.0.readIdx == c.readIdx
    decreases 2 * (c.readIdx - c.checkIdx) + if c.state == Content && lineOk then 1 else 0
  {
    if c.state == Content && lineOk then
      var (d, code) := OnContent(c);
      if code == NoRequest then Loop(d, false) else (d, code)
    else
      var (l, status) := ParseLine(c);
      ParseLineGood(c);
      if status != LineOk then (l, NoRequest)
      else
        LineComplete(c);
        var (d, code) := OnLine(l);
        if code == NoRequest then Loop(d, l.state != Content) else (d, code)
  }

  /** process_read. */
  function Process(c: Conn): (r: (Conn, Code))
    requires Good(c)
    ensures Good(r.0) && |r.0.buf| == |c.buf| && c.checkIdx <= r.0.checkIdx && r.0.readIdx == c.readIdx
  {
    Loop(c, true)
  }

  // ----- What stays as received -----

  /** The NUL behind a body is written no further than m_read_idx. */
  lemma ContentNul(c: Conn)
    requires Good(c) && OnContent(c).1 == GetRequest
    ensures var end := c.startLine + c.contentLength;
            0 <= end <= c.readIdx && end < |c.buf| && OnContent(c).0.buf == c.buf[end := NUL]
  {
  }

  /** Bytes that d has as c had them: all from m_read_idx on, but for the one NUL of a result. */
  predicate Untouched(c: Conn, d: Conn, code: Code)
  {
    |d.buf| == |c.buf| && forall k :: 0 <= c.readIdx <= k < |c.buf| ==>
      (d.buf[k] == c.buf[k] || (k == c.readIdx && code == GetRequest && d.buf[k] == NUL))
  }

  lemma OnLineUntouched(c: Conn)
    requires Good(c) && (c.state == Content || AtLine(c))
    ensures c.state == Content ==> Untouched(c, OnContent(c).0, OnContent(c).1)
    ensures c.state != Content ==> Untouched(c, OnLine(c).0, OnLine(c).1)
  {
    hide ParseRequestLine, ParseHeader, CStr;
  }

  lemma {:induction false} LoopUntouched(c: Conn, lineOk: bool)
    requires Good(c)
    ensures Untouched(c, Loop(c, lineOk).0, Loop(c, lineOk).1)
    decreases 2 * (c.readIdx - c.checkIdx) + if c.state == Content && lineOk then 1 else 0
  {
    hide OnRequestLine, OnHeader, OnContent, ParseLine;
    if c.state == Content && lineOk {
      OnLineUntouched(c);
      var (d, code) := OnContent(c);
      if code == NoRequest {
        LoopUntouched(d, false);
      }
    } else {
      ParseLineGood(c);
      var (l, status) := ParseLine(c);
      if status == LineOk {
        LineComplete(c);
        OnLineUntouched(l);
        var (d, code) := OnLine(l);
        if code == NoRequest {
          LoopUntouched(d, l.state != Content);
        }
      }
    }
  }

  /** process_read changes nothing that recv has not delivered yet, but for a NUL right behind
      what it has delivered, and that only with a result. */
  lemma ProcessUntouched(c: Conn)
    requires Good(c)
    ensures Untouched(c, Process(c).0, Process(c).1)
  {
    LoopUntouched(c, true);
  }
}

/** The header printers of http_conn.cpp, and what the parser makes of the headers they print. */
module HttpResponse {
  import opened CString
  import opened HttpLine
  import opened HttpReference

  const WRITE_BUFFER_SIZE := 1024

  // ----- Printed numbers -----

  function DigitChar(d: nat): (c: char)
    requires d < 10
    ensures Digit(c) && c as int - '0' as int == d
  {
    ('0' as int + d) as char
  }

  function DecimalNat(n: nat): (s: string)
    ensures s != [] && forall k :: 0 <= k < |s| ==> Digit(s[k])
    ensures |s| > 1 ==> s[0] != '0'
    ensures n > 0 ==> s[0] != '0'
  {
    if n < 10 then [DigitChar(n)] else DecimalNat(n / 10) + [DigitChar(n % 10)]
  }

  /** "%d". */
  function Decimal(n: int): string
  {
    if n < 0 then "-" + DecimalNat(-n) else DecimalNat(n)
  }

  lemma {:induction false} DigitsAppend(s: string, d: char, value: nat)
    requires Digit(d) && forall k :: 0 <= k < |s| ==> Digit(s[k])
    ensures Digits(s + [d], value) == 10 * Digits(s, value) + (d as int - '0' as int)
  {
    if s == [] {
      assert (s + [d])[1..] == [];
    } else {
      assert (s + [d])[1..] == s[1..] + [d];
      DigitsAppend(s[1..], d, 10 * value + (s[0] as int - '0' as int));
    }
  }

  lemma {:induction false} DecimalReads(n: nat)
    ensures Digits(DecimalNat(n), 0) == n
  {
    if n < 10 {
      assert [DigitChar(n)][1..] == [];
    } else {
      DecimalReads(n / 10);
      DigitsAppend(DecimalNat(n / 10), DigitChar(n % 10), 0);
    }
  }

  /** atol reads back any int that "%d" printed. */
  lemma AtolDecimal(n: int)
    requires -0x8000_0000 <= n < 0x8000_0000
    ensures Atol(Decimal(n)) == n
  {
    if n < 0 {
      DecimalReads(-n);
      assert Decimal(n)[1..] == DecimalNat(-n);
    } else {
      DecimalReads(n);
    }
  }

  function Pow10(k: nat): nat { if k == 0 then 1 else 10 * Pow10(k - 1) }

  lemma {:induction false} DecimalLength(n: nat, k: nat)
    requires k > 0 && n < Pow10(k)
    ensures |DecimalNat(n)| <= k
  {
    if n >= 10 {
      DecimalLength(n / 10, k - 1);
    }
  }

  // ----- Texts -----

  function LengthLine(n: int): string { "Content-Length:" + Decimal(n) }

  function LingerLine(linger: bool): string { "Connection:" + if linger then "keep-alive" else "close" }

  function StatusLine(status: int, title: string): string
  {
    "HTTP/1.1 " + Decimal(status) + " " + title + CRLF
  }

  /** What add_headers is meant to append. */
  function HeaderText(n: int, linger: bool): string
  {
    LengthLine(n) + CRLF + LingerLine(linger) + CRLF + CRLF
  }

  /** add_response on the text so far: appended whole, or not at all. */
  function Append(text: string, s: string): (r: string)
  {
    if |text| < WRITE_BUFFER_SIZE && |s| < WRITE_BUFFER_SIZE - 1 - |text| then text + s else text
  }

  /** add_headers on the text so far: each of its three parts for itself. */
  function AppendHeaders(text: string, n: int, linger: bool): string
  {
    Append(Append(Append(text, LengthLine(n) + CRLF), LingerLine(linger) + CRLF), CRLF)
  }

  lemma HeaderTextLength(n: int, linger: bool)
    requires -0x8000_0000 <= n < 0x8000_0000
    ensures |HeaderText(n, linger)| <= 53
  {
    assert Pow10(10) == 10_000_000_000 by {
      assert Pow10(5) == 100_000;
      assert Pow10(10) == 10 * (10 * (10 * (10 * (10 * Pow10(5)))));
    }
    DecimalLength(if n < 0 then -n else n, 10);
  }

  /** add_headers returns true in any case; it has appended the headers exactly when they fit. */
  lemma HeadersFitIff(text: string, n: int, linger: bool)
    requires |text| < WRITE_BUFFER_SIZE
    ensures AppendHeaders(text, n, linger) == text + HeaderText(n, linger)
            <==> |text| + |HeaderText(n, linger)| < WRITE_BUFFER_SIZE - 1
  {
    var a, b := LengthLine(n) + CRLF, LingerLine(linger) + CRLF;
    assert HeaderText(n, linger) == a + b + CRLF;
    if |text| + |HeaderText(n, linger)| < WRITE_BUFFER_SIZE - 1 {
      assert text + HeaderText(n, linger) == text + a + b + CRLF;
    } else {
      assert |Append(text, a)| <= |text| + |a| && |Append(Append(text, a), b)| <= |text| + |a| + |b|;
    }
  }

  /** After a status line of ordinary length they always fit. */
  lemma HeadersFit(text: string, n: int, linger: bool)
    requires |text| <= 969 && -0x8000_0000 <= n < 0x8000_0000
    ensures AppendHeaders(text, n, linger) == text + HeaderText(n, linger)
  {
    HeaderTextLength(n, linger);
    HeadersFitIff(text, n, linger);
  }

  /** The printed headers, character by character. */
  lemma HeadersLiterally(text: string, n: int, linger: bool)
    ensures HeaderText(n, linger) == "Content-Length:" + Decimal(n) + "\r\n"
                                     + "Connection:" + (if linger then "keep-alive" else "close") + "\r\n\r\n"
    ensures |text| + |HeaderText(n, linger)| < WRITE_BUFFER_SIZE - 1 ==>
              AppendHeaders(text, n, linger) == text + HeaderText(n, linger)
  {
    hide Decimal, AppendHeaders;
    if |text| + |HeaderText(n, linger)| < WRITE_BUFFER_SIZE - 1 {
      HeadersFitIff(text, n, linger);
    }
    var conn := "Connection:" + if linger then "keep-alive" else "close";
    assert CRLF + CRLF == "\r\n\r\n";
    assert HeaderText(n, linger) == "Content-Length:" + Decimal(n) + "\r\n" + conn + (CRLF + CRLF);
  }

  // ----- The parser reads them back -----

  lemma FirstCharDiffers(line: string, name: string, k: nat)
    requires k < |line| && k < |name| && Lower(line[k]) != Lower(name[k])
    ensures !PrefixNoCase(line, name)
  {
    assert |name| <= |line| ==> line[..|name|][k] == line[k];
  }

  lemma DecimalIsText(n: int)
    ensures Decimal(n) != [] && IsText(Decimal(n)) && SkipBlanks(Decimal(n)) == 0
  {
    hide DecimalNat;
  }

  /** The value of a header line that starts with its name. */
  lemma ValueAfter(name: string, value: string)
    requires SkipBlanks(value) == 0
    ensures PrefixNoCase(name + value, name) && Value(name + value, name) == value
  {
    assert (name + value)[..|name|] == name && (name + value)[|name|..] == value;
    assert value[0..] == value;
  }

  lemma LengthLineReads(n: int)
    requires -0x8000_0000 <= n < 0x8000_0000
    ensures ParseHeader(LengthLine(n)) == Length(n)
    ensures IsText(LengthLine(n)) && LengthLine(n) != []
  {
    hide Decimal, Atol, PrefixNoCase, Value;
    DecimalIsText(n);
    assert LengthLine(n)[3] == 't' && CONNECTION[3] == 'n';
    FirstCharDiffers(LengthLine(n), CONNECTION, 3);
    ValueAfter(CONTENT_LENGTH, Decimal(n));
    AtolDecimal(n);
  }

  lemma LingerLineReads(linger: bool)
    ensures ParseHeader(LingerLine(linger)) == if linger then KeepAlive else Other
    ensures IsText(LingerLine(linger)) && LingerLine(linger) != []
  {
  }

  /** Round trip: headers printed for a length and a linger flag are read as that length and that
      flag and end the header phase there, whatever follows. */
  lemma PrintedHeadersRead(r: Request, n: int, linger: bool, rest: string)
    requires -0x8000_0000 <= n < 0x8000_0000
    ensures ReadHeaders(r, HeaderText(n, linger) + rest)
            == Finish(r.(length := n, linger := r.linger || linger), rest)
  {
    hide LengthLine, LingerLine, ParseHeader;
    var lines := [LengthLine(n), LingerLine(linger)];
    LengthLineReads(n);
    LingerLineReads(linger);
    var one, two := LengthLine(n), LingerLine(linger);
    assert lines[1..] == [two] && [two][1..] == [];
    assert Render([two], rest) == two + CRLF + (CRLF + rest);
    assert HeaderText(n, linger) + rest == one + CRLF + (two + CRLF + (CRLF + rest));
    HeadersComplete(r, lines, rest);
    var r1 := ReadHeader(r, one);
    assert r1 == r.(length := n);
    assert FoldHeaders(r1, [two]) == ReadHeader(r1, two);
  }

  // ----- The buffer -----

  /** What vsnprintf leaves of a text that does not fit: its first characters and a NUL. */
  predicate IsCut(buf: seq<char>, at: int, s: string, size: int)
  {
    && 0 <= at && 0 < size <= |s| && at + size <= |buf|
    && buf[at..at + size - 1] == s[..size - 1] && buf[at + size - 1] == NUL
  }

  class ResponseBuffer {
    const writeBuf: array<char>
    var writeIdx: int

    predicate Valid()
      reads this
    {
      writeBuf.Length == WRITE_BUFFER_SIZE && 0 <= writeIdx <= WRITE_BUFFER_SIZE
    }

    function Text(): string
      requires Valid()
      reads this, writeBuf
    {
      writeBuf[..writeIdx]
    }

    constructor ()
      ensures Valid() && fresh(writeBuf) && Text() == []
    {
      writeBuf := new char[WRITE_BUFFER_SIZE];
      writeIdx := 0;
    }

    /** What init() does to m_write_idx and m_write_buf. */
    method Init()
      requires Valid()
      modifies this`writeIdx, writeBuf
      ensures Valid() && Text() == []
      ensures forall k :: 0 <= k < writeBuf.Length ==> writeBuf[k] == NUL
    {
      writeIdx := 0;
      forall k | 0 <= k < writeBuf.Length {
        writeBuf[k] := NUL;
      }
    }

    /** add_response, the text already formatted. A text that does not fit is cut off in the
        buffer, but the index stays. */
    method AddResponse(s: string) returns (ok: bool)
      requires Valid()
      modifies this`writeIdx, writeBuf
      ensures Valid() && Text() == Append(old(Text()), s)
      ensures ok <==> |s| < 1023 - old(writeIdx)
      ensures ok ==> Text() == old(Text()) + s && writeBuf[writeIdx] == NUL
      ensures !ok ==> Text() == old(Text()) && writeIdx == old(writeIdx)
      ensures var size := WRITE_BUFFER_SIZE - 1 - old(writeIdx);
              !ok && size > 0 ==> IsCut(writeBuf[..], writeIdx, s, size)
    {
      if writeIdx >= WRITE_BUFFER_SIZE {
        return false;
      }
      var size := WRITE_BUFFER_SIZE - 1 - writeIdx;
      Format(s, size);
      if |s| >= size {
        return false;
      }
      writeIdx := writeIdx + |s|;
      return true;
    }

    /** vsnprintf(m_write_buf + m_write_idx, size, ...). */
    method Format(s: string, size: nat)
      requires Valid() && writeIdx + size < WRITE_BUFFER_SIZE
      modifies writeBuf
      ensures writeBuf[..writeIdx] == old(writeBuf[..writeIdx])
      ensures |s| < size ==> writeBuf[writeIdx..writeIdx + |s|] == s && writeBuf[writeIdx + |s|] == NUL
      ensures 0 < size <= |s| ==> IsCut(writeBuf[..], writeIdx, s, size)
    {
      if size == 0 {
        return;
      }
      var n := if |s| < size then |s| else size - 1;
      forall k | 0 <= k < n {
        writeBuf[writeIdx + k] := s[k];
      }
      writeBuf[writeIdx + n] := NUL;
    }

    method AddStatusLine(status: int, title: string) returns (ok: bool)
      requires Valid()
      modifies this`writeIdx, writeBuf
      ensures Valid() && Text() == Append(old(Text()), StatusLine(status, title))
      ensures ok ==> Text() == old(Text()) + ("HTTP/1.1 " + Decimal(status) + " " + title + "\r\n")
    {
      hide Decimal, Append;
      ok := AddResponse(StatusLine(status, title));
    }

    /** The results of the three calls are ignored. */
    method AddHeaders(contentLen: int, linger: bool) returns (ok: bool)
      requires Valid()
      modifies this`writeIdx, writeBuf
      ensures Valid() && ok && Text() == AppendHeaders(old(Text()), contentLen, linger)
      ensures |old(Text())| + |HeaderText(contentLen, linger)| < WRITE_BUFFER_SIZE - 1 ==>
                Text() == old(Text()) + ("Content-Length:" + Decimal(contentLen) + "\r\n"
                                         + "Connection:" + (if linger then "keep-alive" else "close") + "\r\n\r\n")
    {
      var _ := AddResponse(LengthLine(contentLen) + CRLF);
      var _ := AddResponse(LingerLine(linger) + CRLF);
      var _ := AddResponse(CRLF);
      HeadersLiterally(old(Text()), contentLen, linger);
      return true;
    }
  }
}

/** What the lines mean, in the characters that come over the wire: which request lines and targets
    are accepted, and what each header line says. */
module HttpGrammar {
  import opened Wrappers
  import opened CString
  import opened HttpLine
  import opened HttpReference
  import opened HttpResponse

  // ----- Request lines -----

  /** A run of spaces and tabs. */
  predicate Blanks(s: string) { forall k :: 0 <= k < |s| ==> s[k] == ' ' || s[k] == '\t' }

  predicate AllBlank(s: string) { s != [] && Blanks(s) }

  predicate NoBlank(s: string) { forall k :: 0 <= k < |s| ==> s[k] != ' ' && s[k] != '\t' }

  lemma {:induction false} BlankIs(s: string, i: nat)
    requires i <= |s| && NoBlank(s[..i]) && (i < |s| ==> Blank(s[i]))
    ensures FindBlank(s) == i
  {
    if i > 0 {
      assert s[0] == s[..i][0] && s[1..][..i - 1] == s[..i][1..];
      BlankIs(s[1..], i - 1);
    }
  }

  lemma {:induction false} SkipIs(s: string, i: nat)
    requires i <= |s| && (forall k :: 0 <= k < i ==> Blank(s[k])) && (i < |s| ==> !Blank(s[i]))
    ensures SkipBlanks(s) == i
  {
    if i > 0 {
      SkipIs(s[1..], i - 1);
    }
  }

  /** Method, blanks, target, blanks, version. */
  ghost predicate RequestLineShape(line: string, name: string, b1: string, t: string, b2: string, v: string)
  {
    && line == name + b1 + t + b2 + v
    && AllBlank(b1) && AllBlank(b2) && NoBlank(name) && NoBlank(t) && t != []
    && SameText(v, "HTTP/1.1")
    && (SameText(name, "GET") || SameText(name, "POST"))
  }

  lemma UrlAndVersionShaped(verb: Method, s: string, b1: string, t: string, b2: string, v: string)
    requires s == b1 + (t + (b2 + v)) && (forall k :: 0 <= k < |b1| ==> Blank(b1[k]))
    requires AllBlank(b2) && NoBlank(t) && t != [] && EqNoCase(v, VERSION)
    ensures UrlAndVersion(verb, s) == TargetOf(verb, t)
  {
    hide TargetOf;
    VersionStarts(v);
    SkipIs(s, |b1|);
    var u := t + (b2 + v);
    assert Rest(s) == u;
    assert u[..|t|] == t && u[|t|] == b2[0];
    BlankIs(u, |t|);
    var w := b2[1..] + v;
    assert u[|t| + 1..] == w;
    SkipIs(w, |b2| - 1);
    assert Rest(w) == v;
  }

  /** Section 3 of RFC 9112 with any run of blanks for each space: a line of that shape is judged
      by its target alone. */
  lemma ShapeDecides(line: string, name: string, b1: string, t: string, b2: string, v: string)
    requires RequestLineShape(line, name, b1, t, b2, v)
    ensures ReadRequestLine(line) == TargetOf(if SameText(name, "GET") then GET else POST, t)
  {
    hide TargetOf, UrlAndVersion, EqNoCase, SameText;
    EqNoCaseIs(name, "GET");
    EqNoCaseIs(name, "POST");
    EqNoCaseIs(v, VERSION);
    assert line[..|name|] == name && line[|name|] == b1[0];
    BlankIs(line, |name|);
    var s := b1[1..] + (t + (b2 + v));
    assert line[|name| + 1..] == s;
    UrlAndVersionShaped(if EqNoCase(name, "GET") then GET else POST, s, b1[1..], t, b2, v);
  }

  lemma BlanksThenRest(s: string)
    ensures s == s[..SkipBlanks(s)] + Rest(s) && forall k :: 0 <= k < SkipBlanks(s) ==> Blank(s[k])
  {
    hide SkipBlanks;
  }

  lemma TargetThenVersion(verb: Method, u: string) returns (t: string, b2: string, v: string)
    ensures UrlThenVersion(verb, u) != Reject ==> u == t + (b2 + v) && AllBlank(b2) && EqNoCase(v, VERSION)
    ensures t == u[..FindBlank(u)] && NoBlank(t)
  {
    hide TargetOf, EqNoCase, FindBlank, SkipBlanks, Rest;
    var i := FindBlank(u);
    t, b2, v := u[..i], [], [];
    if i < |u| {
      b2, v := BlankThenRest(u, i);
    }
  }

  lemma BlankThenRest(u: string, i: nat) returns (b: string, v: string)
    requires i < |u| && Blank(u[i])
    ensures u == u[..i] + (b + v) && AllBlank(b) && v == Rest(u[i + 1..])
  {
    hide SkipBlanks, Rest;
    var w := u[i + 1..];
    BlanksThenRest(w);
    var n := SkipBlanks(w);
    b, v := [u[i]] + w[..n], Rest(w);
    ThreeParts(u, i, w[..n], v);
    assert forall k :: 0 < k < |b| ==> b[k] == w[k - 1];
  }

  lemma ThreeParts<T>(u: seq<T>, i: nat, a: seq<T>, v: seq<T>)
    requires i < |u| && u[i + 1..] == a + v
    ensures u == u[..i] + ([u[i]] + a + v)
  {
    assert [u[i]] + a + v == [u[i]] + (a + v) == u[i..];
  }

  lemma UrlAndVersionShape(verb: Method, s: string) returns (b1: string, t: string, b2: string, v: string)
    ensures UrlAndVersion(verb, s) != Reject ==>
              && s == b1 + (t + (b2 + v)) && (forall k :: 0 <= k < |b1| ==> Blank(b1[k]))
              && AllBlank(b2) && NoBlank(t) && t != [] && EqNoCase(v, VERSION)
  {
    hide EqNoCase, SkipBlanks, TargetOf;
    BlanksThenRest(s);
    b1 := s[..SkipBlanks(s)];
    t, b2, v := TargetThenVersion(verb, Rest(s));
    assert Rest(s) != [] ==> !Blank(Rest(s)[0]);
  }

  /** ... and every line of another shape is rejected. */
  lemma OtherShapesRejected(line: string) returns (name: string, b1: string, t: string, b2: string, v: string)
    ensures ReadRequestLine(line) != Reject ==> RequestLineShape(line, name, b1, t, b2, v)
  {
    hide UrlAndVersion, EqNoCase, SameText;
    var i := FindBlank(line);
    name, b1, t, b2, v := line[..i], [], [], [], [];
    if i < |line| {
      b1, t, b2, v := UrlAndVersionShape(if EqNoCase(name, "GET") then GET else POST, line[i + 1..]);
      b1 := [line[i]] + b1;
      assert ReadRequestLine(line) != Reject ==> line == name + b1 + t + b2 + v;
      EqNoCaseIs(name, "GET");
      EqNoCaseIs(name, "POST");
      EqNoCaseIs(v, VERSION);
    }
  }

  // ----- Targets -----

  predicate NoSlash(s: string) { forall k :: 0 <= k < |s| ==> s[k] != '/' }

  lemma {:induction false} SlashIs(s: string, i: nat)
    requires i <= |s| && NoSlash(s[..i]) && (i < |s| ==> s[i] == '/')
    ensures FindChar(s, '/') == i
  {
    if i > 0 {
      assert s[0] == s[..i][0] && s[1..][..i - 1] == s[..i][1..];
      SlashIs(s[1..], i - 1);
    }
  }

  /** What starts with a slash has no scheme. */
  lemma NoScheme(path: string)
    requires path != [] && path[0] == '/'
    ensures Strip(path, HTTP) == Strip(path, HTTPS) == Some(path)
  {
    assert HTTP[0] == HTTPS[0] == 'h';
    assert forall s: string :: s in [HTTP, HTTPS] && |s| <= |path| ==> path[..|s|][0] == '/';
  }

  /** The scheme in any case is skipped with what follows it up to the next slash. */
  lemma SchemeStripped(text: string, scheme: string, host: string, path: string)
    requires SameText(text, scheme) && NoSlash(host) && (path == [] || path[0] == '/')
    ensures Strip(text + host + path, scheme) == if path == [] then None else Some(path)
  {
    hide SameText, EqNoCase;
    var t := text + host + path;
    assert |text| == |scheme| by { SameLength(text, scheme); }
    assert t[..|scheme|] == text && t[|scheme|..] == host + path;
    EqNoCaseIs(text, scheme);
    assert (host + path)[..|host|] == host;
    SlashIs(host + path, |host|);
    if path != [] {
      assert t[|scheme| + |host|..] == path;
    }
  }

  lemma SameLength(s: string, t: string)
    requires SameText(s, t)
    ensures |s| == |t|
  {
  }

  /** A secure URL is not an insecure one. */
  lemma OtherScheme(t: string)
    requires StartsLike(t, "https://")
    ensures Strip(t, HTTP) == Some(t)
  {
    assert t[..8][4] == t[4];
    FirstCharDiffers(t, HTTP, 4);
  }

  /** Section 3.2 of RFC 9112: the absolute form, with either scheme in any case, means its path,
      and "/" means the start page. Without a path http:// makes strchr return a null pointer that
      the next strncasecmp reads, and https:// is refused. */
  lemma AbsoluteFormIsPath(verb: Method, scheme: string, host: string, path: string)
    requires SameText(scheme, "http://") || SameText(scheme, "https://")
    requires NoSlash(host) && (path == [] || path[0] == '/')
    ensures TargetOf(verb, scheme + host + path)
            == if path == [] then (if SameText(scheme, "http://") then Crash else Reject)
               else Accept(verb, if path == "/" then "/judge.html" else path)
  {
    hide SameText, Strip;
    var t := scheme + host + path;
    if SameText(scheme, "http://") {
      SchemeStripped(scheme, "http://", host, path);
    } else {
      SchemeStripped(scheme, "https://", host, path);
      SameLength(scheme, "https://");
      assert t[..8] == scheme;
      OtherScheme(t);
    }
    if path != [] {
      NoScheme(path);
    }
  }

  /** A target without scheme is accepted if and only if it starts with a slash. */
  lemma OtherTargets(verb: Method, t: string)
    requires !StartsLike(t, "http://") && !StartsLike(t, "https://")
    ensures TargetOf(verb, t) == if t != [] && t[0] == '/' then Accept(verb, if t == "/" then "/judge.html" else t)
                                 else Reject
  {
    PrefixNoCaseIs(t, HTTP);
    PrefixNoCaseIs(t, HTTPS);
  }

  /** Of all targets, exactly those with http:// and no slash behind it lead to the null pointer. */
  lemma CrashIff(verb: Method, t: string)
    ensures TargetOf(verb, t) == Crash <==> StartsLike(t, "http://") && NoSlash(t[7..])
  {
    PrefixNoCaseIs(t, HTTP);
    if StartsLike(t, "http://") && NoSlash(t[7..]) {
      assert t[7..][..|t| - 7] == t[7..];
      SlashIs(t[7..], |t| - 7);
    }
  }

  /** The request lines on which the source's behaviour is undefined. */
  lemma LineCrashesIff(line: string)
    ensures ReadRequestLine(line) == Crash <==>
            exists name, b1, t, b2, v ::
              RequestLineShape(line, name, b1, t, b2, v) && StartsLike(t, "http://") && NoSlash(t[7..])
  {
    hide ReadRequestLine, TargetOf, RequestLineShape, SameText;
    var name, b1, t, b2, v := OtherShapesRejected(line);
    if ReadRequestLine(line) == Crash {
      ShapeDecides(line, name, b1, t, b2, v);
      CrashIff(if SameText(name, "GET") then GET else POST, t);
    }
    if name, b1, t, b2, v :|
        RequestLineShape(line, name, b1, t, b2, v) && StartsLike(t, "http://") && NoSlash(t[7..])
    {
      ShapeDecides(line, name, b1, t, b2, v);
      CrashIff(if SameText(name, "GET") then GET else POST, t);
    }
  }

  /** The scheme of an absolute target, or nothing. */
  predicate SchemeOrNone(s: string) { s == [] || SameText(s, "http://") || SameText(s, "https://") }

  lemma SameIsTransitive(s: string, t: string, u: string)
    requires SameText(s, t)
    ensures SameText(s, u) <==> SameText(t, u)
  {
    EqNoCaseIs(s, t);
    EqNoCaseIs(s, u);
    EqNoCaseIs(t, u);
  }

  lemma {:induction false} FirstSlash(s: string) returns (host: string, path: string)
    ensures s == host + path && NoSlash(host) && (path == [] || path[0] == '/')
  {
    var i := FindChar(s, '/');
    host, path := s[..i], s[i..];
  }

  lemma TargetIgnoresCase(verb: Method, scheme: string, scheme': string, rest: string)
    requires SchemeOrNone(scheme) && SameText(scheme, scheme')
    ensures TargetOf(verb, scheme + rest) == TargetOf(verb, scheme' + rest)
  {
    hide TargetOf, SameText;
    SameLength(scheme, scheme');
    if scheme == [] {
      assert scheme' == [];
    } else {
      var host, path := FirstSlash(rest);
      assert scheme + rest == scheme + host + path && scheme' + rest == scheme' + host + path;
      SameIsTransitive(scheme, scheme', "http://");
      SameIsTransitive(scheme, scheme', "https://");
      AbsoluteFormIsPath(verb, scheme, host, path);
      AbsoluteFormIsPath(verb, scheme', host, path);
    }
  }

  /** Method, scheme and version may be written in any case. */
  lemma VerdictIgnoresCase(name: string, name': string, b1: string, scheme: string, scheme': string, rest: string,
                           b2: string, v: string, v': string)
    requires SameText(name, name') && SameText(scheme, scheme') && SameText(v, v') && SchemeOrNone(scheme)
    requires var t := scheme + rest; RequestLineShape(name + b1 + t + b2 + v, name, b1, t, b2, v)
    ensures ReadRequestLine(name' + b1 + (scheme' + rest) + b2 + v')
            == ReadRequestLine(name + b1 + (scheme + rest) + b2 + v)
  {
    hide TargetOf, SameText, ReadRequestLine;
    var t, t' := scheme + rest, scheme' + rest;
    SameIsTransitive(name, name', "GET");
    SameIsTransitive(name, name', "POST");
    SameIsTransitive(v, v', "HTTP/1.1");
    assert NoBlank(name') by { SameBlanks(name, name'); }
    assert NoBlank(t') && t' != [] by { SameBlanks(scheme, scheme'); SameBlanksBefore(scheme, scheme', rest); }
    ShapeDecides(name + b1 + t + b2 + v, name, b1, t, b2, v);
    ShapeDecides(name' + b1 + t' + b2 + v', name', b1, t', b2, v');
    TargetIgnoresCase(if SameText(name, "GET") then GET else POST, scheme, scheme', rest);
  }

  lemma SameBlanks(s: string, t: string)
    requires SameText(s, t)
    ensures NoBlank(s) ==> NoBlank(t)
  {
  }

  lemma SameBlanksBefore(s: string, s': string, rest: string)
    requires SameText(s, s') && NoBlank(s + rest)
    ensures NoBlank(s' + rest) && |s' + rest| == |s + rest|
  {
    forall k | 0 <= k < |s' + rest| ensures (s' + rest)[k] != ' ' && (s' + rest)[k] != '\t' {
      assert (s + rest)[k] != ' ' && (s + rest)[k] != '\t';
    }
  }

  // ----- Header lines -----

  /** Not empty, and not starting with a blank. */
  predicate Unpadded(v: string) { v == [] || (v[0] != ' ' && v[0] != '\t') }

  /** Blanks after the name of a header are skipped. */
  lemma ValueIs(text: string, name: string, b: string, v: string)
    requires SameText(text, name) && Blanks(b) && Unpadded(v)
    ensures PrefixNoCase(text + b + v, name) && Value(text + b + v, name) == v
    ensures |name| + SkipBlanks((text + b + v)[|name|..]) == |text + b|
  {
    hide SameText, EqNoCase, SkipBlanks;
    var line := text + b + v;
    SameLength(text, name);
    assert line[..|name|] == text && line[|name|..] == b + v;
    EqNoCaseIs(text, name);
    SkipIs(b + v, |b|);
    assert line[|text + b|..] == v;
  }

  /** Connection: keeps the connection open for keep-alive, and only for that. */
  lemma ConnectionMeans(r: Request, name: string, b: string, v: string)
    requires SameText(name, "Connection:") && Blanks(b) && Unpadded(v)
    ensures ReadHeader(r, name + b + v) == if SameText(v, "keep-alive") then r.(linger := true) else r
  {
    hide SameText, EqNoCase, Value, PrefixNoCase;
    ValueIs(name, CONNECTION, b, v);
    EqNoCaseIs(v, KEEP_ALIVE);
    SameLength(name, "Connection:");
  }

  /** A line that starts like one name does not start like another. */
  lemma NamesDiffer(line: string)
    ensures StartsLike(line, "Content-Length:") ==> !PrefixNoCase(line, CONNECTION)
    ensures StartsLike(line, "Host:") ==> !PrefixNoCase(line, CONNECTION) && !PrefixNoCase(line, CONTENT_LENGTH)
  {
    if StartsLike(line, "Content-Length:") {
      assert line[..15][3] == line[3];
      FirstCharDiffers(line, CONNECTION, 3);
    }
    if StartsLike(line, "Host:") {
      assert line[..5][0] == line[0];
      FirstCharDiffers(line, CONNECTION, 0);
      FirstCharDiffers(line, CONTENT_LENGTH, 0);
    }
  }

  /** Content-Length: sets the length to what atol makes of the value. */
  lemma ContentLengthMeans(r: Request, name: string, b: string, v: string)
    requires SameText(name, "Content-Length:") && Blanks(b) && Unpadded(v)
    ensures ReadHeader(r, name + b + v) == r.(length := Atol(v))
  {
    hide SameText, EqNoCase, Value, PrefixNoCase, Atol;
    ValueIs(name, CONTENT_LENGTH, b, v);
    StartsWith(name, b, v, "Content-Length:");
    NamesDiffer(name + b + v);
  }

  /** Host: sets the host to the value. */
  lemma HostMeans(r: Request, name: string, b: string, v: string)
    requires SameText(name, "Host:") && Blanks(b) && Unpadded(v)
    ensures ReadHeader(r, name + b + v) == r.(host := Some(v))
  {
    hide SameText, EqNoCase, Value, PrefixNoCase, SkipBlanks;
    ValueIs(name, HOST, b, v);
    StartsWith(name, b, v, "Host:");
    NamesDiffer(name + b + v);
    assert (name + b + v)[|name + b|..] == v;
  }

  lemma StartsWith(text: string, b: string, v: string, name: string)
    requires SameText(text, name)
    ensures StartsLike(text + b + v, name)
  {
    assert (text + b + v)[..|name|] == text;
  }

  /** Any other line changes nothing. */
  lemma OtherHeaders(r: Request, line: string)
    requires !StartsLike(line, "Connection:") && !StartsLike(line, "Content-Length:") && !StartsLike(line, "Host:")
    ensures ReadHeader(r, line) == r
  {
    hide PrefixNoCase, StartsLike;
    PrefixNoCaseIs(line, CONNECTION);
    PrefixNoCaseIs(line, CONTENT_LENGTH);
    PrefixNoCaseIs(line, HOST);
  }

  /** Every line with a known name has the parts that the lemmas above speak of. */
  lemma HeaderParts(line: string, name: string) returns (text: string, b: string, v: string)
    requires StartsLike(line, name)
    ensures line == text + b + v && SameText(text, name) && Blanks(b) && Unpadded(v)
  {
    hide SkipBlanks;
    text := line[..|name|];
    var rest := line[|name|..];
    b, v := rest[..SkipBlanks(rest)], rest[SkipBlanks(rest)..];
    assert b + v == rest;
  }

  // ----- Numbers -----

  /** What isspace accepts. */
  predicate White(s: string) { forall k :: 0 <= k < |s| ==> s[k] == ' ' || 9 <= s[k] as int <= 13 }

  predicate NoDigit(s: string) { s == [] || !('0' <= s[0] <= '9') }

  lemma {:induction false} DigitsStop(s: string, rest: string, value: nat)
    requires (forall k :: 0 <= k < |s| ==> Digit(s[k])) && NoDigit(rest)
    ensures Digits(s + rest, value) == Digits(s, value)
  {
    if s == [] {
      assert [] + rest == rest;
    } else {
      assert (s + rest)[1..] == s[1..] + rest;
      DigitsStop(s[1..], rest, 10 * value + (s[0] as int - '0' as int));
    }
  }

  lemma {:induction false} ZerosSkipped(z: string, s: string)
    requires forall k :: 0 <= k < |z| ==> z[k] == '0'
    ensures Digits(z + s, 0) == Digits(s, 0)
  {
    if z == [] {
      assert [] + s == s;
    } else {
      assert (z + s)[1..] == z[1..] + s;
      ZerosSkipped(z[1..], s);
    }
  }

  lemma {:induction false} WhiteSkipped(w: string, s: string)
    requires White(w)
    ensures Number(w + s) == Number(s)
  {
    if w == [] {
      assert [] + s == s;
    } else {
      assert (w + s)[1..] == w[1..] + s;
      WhiteSkipped(w[1..], s);
    }
  }

  /** atol: white space, a sign or none, digits with or without leading zeros, and anything behind
      them; a value beyond a long stops at its end, and of the long the low 32 bits remain. */
  lemma AtolMeans(w: string, sign: string, z: string, n: int, rest: string)
    requires White(w) && sign in ["", "+", "-"] && NoDigit(rest) && n >= 0
    requires forall k :: 0 <= k < |z| ==> z[k] == '0'
    ensures Atol(w + (sign + (z + (DecimalNat(n) + rest)))) == ToInt32(Saturate(if sign == "-" then -n else n))
  {
    hide DecimalNat, ToInt32, Saturate;
    var digits := z + (DecimalNat(n) + rest);
    WhiteSkipped(w, sign + digits);
    ZerosSkipped(z, DecimalNat(n) + rest);
    DigitsStop(DecimalNat(n), rest, 0);
    DecimalReads(n);
    if sign == "" {
      assert sign + digits == digits && digits != [];
      assert Digit(digits[0]);
    } else {
      assert (sign + digits)[1..] == digits;
    }
  }

  /** Without digits atol gives 0. */
  lemma AtolOfNoNumber(w: string, sign: string, rest: string)
    requires White(w) && sign in ["", "+", "-"] && NoDigit(rest)
    requires sign == "" && rest != [] ==> !White(rest[..1]) && rest[0] != '+' && rest[0] != '-'
    ensures Atol(w + (sign + rest)) == 0
  {
    WhiteSkipped(w, sign + rest);
    if sign == "" {
      assert sign + rest == rest;
      assert rest != [] ==> rest[..1][0] == rest[0];
    } else {
      assert (sign + rest)[1..] == rest;
    }
  }
}

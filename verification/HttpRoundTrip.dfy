/**
 Printing requests in the format of RFC 9112 (request line of section 3, header fields of
 section 5, Content-Length body of section 6.2) and parsing them back.
 */
module HttpRoundTrip {
  import opened Octets
  import opened Buffers
  import opened HttpModel
  import opened HttpChunking

  // ---------------------------------------------------------------- printing

  const EOL: string := "\r\n"

  function VersionToString(v: Version): string {
    match v
    case Http11 => "HTTP/1.1"
    case Http10 => "HTTP/1.0"
    case Unknown => ""
  }

  function Target(r: Request): string {
    r.path + if r.query == "" then "" else "?" + r.query
  }

  function PrintRequestLine(r: Request): string {
    MethodToString(r.verb) + " " + (Target(r) + " " + VersionToString(r.version))
  }

  datatype Field = Field(name: string, value: string)

  function PrintField(f: Field): string {
    f.name + ":" + (" " + f.value)
  }

  function PrintFields(fields: seq<Field>): string {
    if fields == [] then "" else PrintField(fields[0]) + EOL + PrintFields(fields[1..])
  }

  /** The header map that the fields make, starting from `h`; a later field replaces an earlier one. */
  function HeaderMap(h: map<string, string>, fields: seq<Field>): map<string, string>
    decreases |fields|
  {
    if fields == [] then h else HeaderMap(h[fields[0].name := fields[0].value], fields[1..])
  }

  /** A request with its header fields in the order in which they are sent. */
  datatype Message = Message(request: Request, fields: seq<Field>)

  function Print(m: Message): string {
    PrintRequestLine(m.request) + EOL + (PrintFields(m.fields) + EOL + m.request.body)
  }

  function PrintAll(ms: seq<Message>): string {
    if ms == [] then "" else Print(ms[0]) + PrintAll(ms[1..])
  }

  // ---------------------------------------------------------------- what can be printed

  predicate OneLine(s: string) {
    FindCRLF(s).None?
  }

  predicate LineOk(r: Request) {
    r.verb != Invalid && r.version != Unknown && '?' !in r.path && Target(r) != ""
  }

  predicate FieldOk(f: Field) {
    ':' !in f.name && f.value != "" && !Blank(f.value[0])
  }

  predicate BodyOk(r: Request) {
    if TakesBody(r.verb) && GetHeader(r, "Content-Length") != ""
    then Stoul(GetHeader(r, "Content-Length")) == Number(|r.body|)
    else r.body == ""
  }

  /** Everything but the body is as it should be. */
  predicate HeadOk(m: Message) {
    && LineOk(m.request) && OneLine(m.request.path) && OneLine(m.request.query)
    && (forall f :: f in m.fields ==> FieldOk(f) && OneLine(f.name) && OneLine(f.value))
    && HeaderMap(map[], m.fields) == m.request.headers
  }

  predicate WellFormed(m: Message) {
    HeadOk(m) && BodyOk(m.request)
  }

  // ---------------------------------------------------------------- searches

  lemma FindFirst(a: string, c: char, b: string)
    requires c !in a
    ensures Find(a + [c] + b, c) == Some(|a|)
  {
    hide Find;
    var s := a + [c] + b;
    assert s[|a|] == c && forall i :: 0 <= i < |a| ==> s[i] == a[i];
  }

  lemma {:induction false} RFindLast(a: string, c: char, b: string)
    requires c !in b
    ensures RFind(a + [c] + b, c) == Some(|a|)
    decreases |b|
  {
    var s := a + [c] + b;
    if b == [] {
      assert s == a + [c];
    } else {
      var shorter := b[..|b| - 1];
      assert s[|s| - 1] == b[|b| - 1] && s[..|s| - 1] == a + [c] + shorter;
      RFindLast(a, c, shorter);
    }
  }

  lemma Middle(a: string, b: string, c: string)
    ensures (a + b + c)[..|a|] == a && (a + b + c)[|a|..|a| + |b|] == b && (a + b + c)[|a| + |b|..] == c
  {
  }

  lemma OneLineJoin(a: string, b: string)
    requires OneLine(a) && OneLine(b)
    requires a == "" || b == "" || a[|a| - 1] != '\r' || b[0] != '\n'
    ensures OneLine(a + b)
  {
    var s := a + b;
    assert forall k :: 0 <= k < |a| ==> s[k] == a[k];
    assert forall k :: |a| <= k < |s| ==> s[k] == b[k - |a|];
  }

  lemma LineFound(line: string, rest: string)
    requires OneLine(line)
    ensures FindCRLF(line + EOL + rest) == Some(|line|)
  {
    var s := line + EOL + rest;
    assert s[|line|] == '\r' && s[|line| + 1] == '\n';
    assert forall k :: 0 <= k < |line| ==> s[k] == line[k];
  }

  // ---------------------------------------------------------------- the request line

  lemma MethodRoundTrip(m: Method)
    ensures StringToMethod(MethodToString(m)) == m && ' ' !in MethodToString(m)
    ensures OneLine(MethodToString(m)) && MethodToString(m) != ""
  {
    match m
    case Get => assert MethodToString(m) == ['G', 'E', 'T'];
    case Post => assert MethodToString(m) == ['P', 'O', 'S', 'T'];
    case Head => assert MethodToString(m) == ['H', 'E', 'A', 'D'];
    case Put => assert MethodToString(m) == ['P', 'U', 'T'];
    case Delete => assert MethodToString(m) == ['D', 'E', 'L', 'E', 'T', 'E'];
    case Options => assert MethodToString(m) == ['O', 'P', 'T', 'I', 'O', 'N', 'S'];
    case Patch => assert MethodToString(m) == ['P', 'A', 'T', 'C', 'H'];
    case Invalid => assert MethodToString(m) == ['I', 'N', 'V', 'A', 'L', 'I', 'D'];
  }

  /** The request as far as the request line determines it. */
  function LineOf(r: Request): Request {
    EMPTY_REQUEST.(verb := r.verb, path := r.path, query := r.query, version := r.version)
  }

  lemma UrlRoundTrip(r: Request, r0: Request)
    requires r0.query == ""
    ensures SetUrl(Target(r), r0) == r0.(path := r.path, query := r.query) <==> '?' !in r.path
  {
    var url := Target(r);
    if '?' in r.path {
      assert '?' in url;
      var q := Find(url, '?').value;
      assert q < |r.path| by {
        var k :| 0 <= k < |r.path| && r.path[k] == '?';
        assert url[k] == '?';
      }
      assert |SetUrl(url, r0).path| == q;
    } else if r.query != "" {
      assert url == r.path + ['?'] + r.query;
      FindFirst(r.path, '?', r.query);
    } else {
      assert url == r.path;
    }
  }

  lemma VersionText(v: Version)
    ensures ' ' !in VersionToString(v) && OneLine(VersionToString(v))
  {
    match v
    case Http11 => assert VersionToString(v) == ['H', 'T', 'T', 'P', '/', '1', '.', '1'];
    case Http10 => assert VersionToString(v) == ['H', 'T', 'T', 'P', '/', '1', '.', '0'];
    case Unknown =>
  }

  /** The first blank of a printed request line ends the method. */
  lemma FirstBlank(r: Request)
    ensures var line := PrintRequestLine(r);
            var n := |MethodToString(r.verb)|;
            Find(line, ' ') == Some(n) && line[..n] == MethodToString(r.verb)
  {
    var m := MethodToString(r.verb);
    var rest := Target(r) + " " + VersionToString(r.version);
    MethodRoundTrip(r.verb);
    hide MethodToString, Target, VersionToString, Find;
    assert PrintRequestLine(r) == m + [' '] + rest;
    FindFirst(m, ' ', rest);
    Middle(m, [' '], rest);
  }

  /** Its last blank ends the target, whatever blanks the target has. */
  lemma LastBlank(r: Request)
    ensures var line := PrintRequestLine(r);
            var k := |MethodToString(r.verb)| + 1 + |Target(r)|;
            && RFind(line, ' ') == Some(k)
            && line[|MethodToString(r.verb)| + 1..k] == Target(r)
            && line[k + 1..] == VersionToString(r.version)
  {
    VersionText(r.version);
    hide MethodToString, Target, VersionToString, RFind;
    var m, u, v := MethodToString(r.verb) + " ", Target(r), VersionToString(r.version);
    assert PrintRequestLine(r) == (m + u) + [' '] + v;
    RFindLast(m + u, ' ', v);
    Middle(m + u, [' '], v);
    assert PrintRequestLine(r) == m + u + ([' '] + v);
    Middle(m, u, [' '] + v);
  }

  /** A printed request line is read back exactly if it is a possible one. */
  lemma RequestLineRoundTrip(r: Request)
    ensures ParseRequestLine(PrintRequestLine(r), EMPTY_REQUEST) == (true, LineOf(r)) <==> LineOk(r)
  {
    hide Find, RFind, PrintRequestLine, Target;
    FirstBlank(r);
    LastBlank(r);
    MethodRoundTrip(r.verb);
    var r1 := EMPTY_REQUEST.(verb := r.verb);
    UrlRoundTrip(r, r1);
    assert VersionToString(Unknown) != "HTTP/1.1" && VersionToString(Unknown) != "HTTP/1.0";
    assert "HTTP/1.1" != "HTTP/1.0" by { assert "HTTP/1.1"[7] != "HTTP/1.0"[7]; }
  }

  lemma RequestLineIsOneLine(r: Request)
    requires OneLine(r.path) && OneLine(r.query)
    ensures OneLine(PrintRequestLine(r))
  {
    MethodRoundTrip(r.verb);
    VersionText(r.version);
    assert OneLine("?") && OneLine(" ");
    hide OneLine, MethodToString, VersionToString;
    if r.query != "" {
      OneLineJoin("?", r.query);
      OneLineJoin(r.path, "?" + r.query);
    }
    OneLineJoin(Target(r), " ");
    OneLineJoin(Target(r) + " ", VersionToString(r.version));
    assert Target(r) + " " + VersionToString(r.version) == Target(r) + (" " + VersionToString(r.version));
    OneLineJoin(MethodToString(r.verb), " ");
    OneLineJoin(MethodToString(r.verb) + " ", Target(r) + " " + VersionToString(r.version));
  }

  // ---------------------------------------------------------------- header fields

  lemma ParsePrintedField(f: Field, r: Request)
    requires ':' !in f.name
    ensures ParseHeader(PrintField(f), r) == r.(headers := r.headers[f.name := TrimLeading(" " + f.value)])
  {
    var line := PrintField(f);
    assert line == f.name + [':'] + (" " + f.value);
    FindFirst(f.name, ':', " " + f.value);
    assert line[..|f.name|] == f.name && line[|f.name| + 1..] == " " + f.value;
  }

  lemma {:induction false} TrimShorter(s: string)
    ensures |TrimBlanks(s)| <= |s| && (TrimBlanks(s) == s <==> s == "" || !Blank(s[0]))
  {
    if s != "" && Blank(s[0]) { TrimShorter(s[1..]); }
  }

  lemma TrimRoundTrip(v: string)
    ensures TrimLeading(" " + v) == v <==> v != "" && !Blank(v[0])
  {
    var s := " " + v;
    assert s[1..] == v && Blank(s[0]);
    TrimShorter(v);
    if v != "" && !Blank(v[0]) {
      assert s[1] == v[0] && s[1] in s;
    }
  }

  /** "name: value" is read back exactly if the value is neither empty nor starts with a blank. */
  lemma FieldRoundTrip(f: Field)
    ensures ParseHeader(PrintField(f), EMPTY_REQUEST).headers == map[f.name := f.value] <==> FieldOk(f)
  {
    TrimRoundTrip(f.value);
    if ':' in f.name {
      var line := PrintField(f);
      var k :| 0 <= k < |f.name| && f.name[k] == ':';
      assert line[k] == ':';
      var q := Find(line, ':').value;
      assert f.name !in ParseHeader(line, EMPTY_REQUEST).headers;
    } else {
      ParsePrintedField(f, EMPTY_REQUEST);
      assert ParseHeader(PrintField(f), EMPTY_REQUEST).headers[f.name] == TrimLeading(" " + f.value);
    }
  }

  lemma FieldIsOneLine(f: Field)
    requires OneLine(f.name) && OneLine(f.value)
    ensures OneLine(PrintField(f))
  {
    OneLineJoin(f.name, ":");
    OneLineJoin(" ", f.value);
    OneLineJoin(f.name + ":", " " + f.value);
  }

  // ---------------------------------------------------------------- whole requests

  /** The header section, from the first field to the blank line. */
  lemma {:induction false} HeadersRoundTrip(fields: seq<Field>, rest: string, r: Request, resp: Response)
    requires forall f :: f in fields ==> FieldOk(f) && OneLine(f.name) && OneLine(f.value)
    ensures var state := if TakesBody(r.verb) then ExpectBody else GotAll;
            Parse(Config(ExpectHeaders, PrintFields(fields) + EOL + rest, r, resp)) ==
            Parse(Config(state, rest, r.(headers := HeaderMap(r.headers, fields)), resp))
    decreases |fields|
  {
    var s := PrintFields(fields) + EOL + rest;
    var c := Config(ExpectHeaders, s, r, resp);
    if fields == [] {
      assert s == "" + EOL + rest;
      LineFound("", rest);
      assert s[2..] == rest && r.(headers := r.headers) == r;
    } else {
      var f, more := fields[0], PrintFields(fields[1..]) + EOL + rest;
      var line := PrintField(f);
      assert s == line + EOL + more;
      FieldIsOneLine(f);
      LineFound(line, more);
      ParsePrintedField(f, r);
      TrimRoundTrip(f.value);
      assert s[..|line|] == line && s[|line| + 2..] == more;
      var r1 := r.(headers := r.headers[f.name := f.value]);
      assert Turns(c) == Again(Config(ExpectHeaders, more, r1, resp));
      HeadersRoundTrip(fields[1..], rest, r1, resp);
    }
  }

  /** The body, of as many bytes as Content-Length says. */
  lemma BodyRoundTrip(r: Request, suffix: string, resp: Response)
    requires BodyOk(r)
    ensures var state := if TakesBody(r.verb) then ExpectBody else GotAll;
            Parse(Config(state, r.body + suffix, r.(body := ""), resp)) == (True, Config(GotAll, suffix, r, resp))
  {
    var n := |r.body|;
    var s := r.body + suffix;
    assert s[..n] == r.body && s[n..] == suffix;
    assert r.body == "" ==> s == suffix && r.(body := "") == r;
  }

  /** Up to the body. */
  lemma HeadRoundTrip(m: Message, suffix: string, resp: Response)
    requires HeadOk(m)
    ensures var state := if TakesBody(m.request.verb) then ExpectBody else GotAll;
            Parse(Config(ExpectRequestLine, Print(m) + suffix, EMPTY_REQUEST, resp)) ==
            Parse(Config(state, m.request.body + suffix, m.request.(body := ""), resp))
  {
    var r := m.request;
    var line := PrintRequestLine(r);
    var rest := PrintFields(m.fields) + EOL + (r.body + suffix);
    var s := Print(m) + suffix;
    assert s == line + EOL + rest;
    RequestLineIsOneLine(r);
    LineFound(line, rest);
    assert s[..|line|] == line && s[|line| + 2..] == rest;
    RequestLineRoundTrip(r);
    assert Turns(Config(ExpectRequestLine, s, EMPTY_REQUEST, resp)) == Again(Config(ExpectHeaders, rest, LineOf(r), resp));
    HeadersRoundTrip(m.fields, r.body + suffix, LineOf(r), resp);
    assert LineOf(r).(headers := r.headers) == r.(body := "");
  }

  /** A printed request is read back, and what follows it is left alone. */
  lemma RequestRoundTrip(m: Message, suffix: string, resp: Response)
    requires WellFormed(m)
    ensures Parse(Config(ExpectRequestLine, Print(m) + suffix, EMPTY_REQUEST, resp)) ==
            (True, Config(GotAll, suffix, m.request, resp))
  {
    HeadRoundTrip(m, suffix, resp);
    BodyRoundTrip(m.request, suffix, resp);
  }

  // ---------------------------------------------------------------- a request in two messages

  /**
   onMessage loses a request that is split after its request line: one request kept across the
   two messages ends up as what was printed, the fresh one of the second message has no method.
   */
  lemma SplitRequestIsLost(m: Message, resp: Response)
    requires WellFormed(m)
    ensures var c := Config(ExpectRequestLine, "", EMPTY_REQUEST, resp);
            var pieces := [PrintRequestLine(m.request) + EOL, PrintFields(m.fields) + EOL + m.request.body];
            && Feed(c, pieces) == Fed(True, Config(GotAll, "", m.request, resp), [])
            && FeedFresh(c, pieces).config.request.verb == Invalid
  {
    hide *;
    var line := PrintRequestLine(m.request);
    var rest := PrintFields(m.fields) + EOL + m.request.body;
    LineIsOk(m);
    FirstLineWaits(m.request, resp);
    RequestRoundTrip(m, "", resp);
    PrintIs(m);
    SplitIsLost(line + EOL, rest, m.request, resp);
  }

  /** The same of any bytes that are read as a request, if the first piece ends inside it. */
  lemma SplitIsLost(piece: string, rest: string, r: Request, resp: Response)
    requires Parse(Config(ExpectRequestLine, piece + rest, EMPTY_REQUEST, resp)) ==
             (True, Config(GotAll, "", r, resp))
    requires var (v, last) := Parse(Config(ExpectRequestLine, piece, EMPTY_REQUEST, resp));
             v == False && last.state != ExpectRequestLine
    ensures var c := Config(ExpectRequestLine, "", EMPTY_REQUEST, resp);
            && Feed(c, [piece, rest]) == Fed(True, Config(GotAll, "", r, resp), [])
            && FeedFresh(c, [piece, rest]).config.request.verb == Invalid
  {
    hide Parse, Feed, FeedFresh;
    var c := Config(ExpectRequestLine, "", EMPTY_REQUEST, resp);
    var first := Config(ExpectRequestLine, piece, EMPTY_REQUEST, resp);
    assert With(c, piece) == first;
    var last := Parse(first).1;
    FeedTwo(c, piece, rest);
    ParseExtend(first, rest);
    VerbStays(With(last.(request := EMPTY_REQUEST, response := resp), rest));
  }

  lemma PrintIs(m: Message)
    ensures Print(m) + "" == PrintRequestLine(m.request) + EOL + (PrintFields(m.fields) + EOL + m.request.body)
  {
  }

  lemma LineIsOk(m: Message)
    requires WellFormed(m)
    ensures LineOk(m.request) && OneLine(m.request.path) && OneLine(m.request.query)
  {
  }

  lemma FirstLineWaits(r: Request, resp: Response)
    requires LineOk(r) && OneLine(r.path) && OneLine(r.query)
    ensures var (v, last) := Parse(Config(ExpectRequestLine, PrintRequestLine(r) + EOL, EMPTY_REQUEST, resp));
            v == False && last.state != ExpectRequestLine
  {
    var line := PrintRequestLine(r);
    var s := line + EOL;
    RequestLineIsOneLine(r);
    LineFound(line, "");
    assert line + EOL + "" == s && s[..|line|] == line && s[|line| + 2..] == "";
    RequestLineRoundTrip(r);
    UnfinishedWaits(s, resp);
  }

  /** There are such messages. */
  lemma PlainGetIsWellFormed()
    ensures WellFormed(Message(Request(Get, "/", "", Http11, "", map[]), []))
  {
  }

  // ---------------------------------------------------------------- pipelining

  /** n rounds of parse and reset, each with a new request and response. */
  function Rounds(n: nat, unread: string): Option<(seq<Request>, string)> {
    if n == 0 then Some(([], unread))
    else
      var (v, last) := Parse(Config(ExpectRequestLine, unread, EMPTY_REQUEST, EMPTY_RESPONSE));
      if v != True || last.state != GotAll then None
      else
        match Rounds(n - 1, last.unread)
        case None => None
        case Some(p) => Some(([last.request] + p.0, p.1))
  }

  lemma PrintFirst(ms: seq<Message>, i: nat, suffix: string)
    requires i < |ms|
    ensures PrintAll(ms[i..]) + suffix == Print(ms[i]) + (PrintAll(ms[i + 1..]) + suffix)
  {
    assert ms[i..][1..] == ms[i + 1..];
  }

  lemma PrintNone(ms: seq<Message>, suffix: string)
    ensures PrintAll(ms[|ms|..]) + suffix == suffix
  {
  }

  /** The requests of the messages, in order. */
  function RequestsOf(ms: seq<Message>): (requests: seq<Request>)
    ensures |requests| == |ms| && forall i :: 0 <= i < |ms| ==> requests[i] == ms[i].request
  {
    if ms == [] then [] else [ms[0].request] + RequestsOf(ms[1..])
  }

  /** Pipelined requests come out in order, and the bytes after them stay in the buffer. */
  lemma {:induction false} PipelinedRoundTrip(ms: seq<Message>, suffix: string)
    requires forall m :: m in ms ==> WellFormed(m)
    ensures Rounds(|ms|, PrintAll(ms) + suffix) == Some((RequestsOf(ms), suffix))
    decreases |ms|
  {
    hide Parse, Print, WellFormed;
    if ms == [] {
      assert PrintAll(ms) + suffix == suffix;
    } else {
      var later := PrintAll(ms[1..]) + suffix;
      assert PrintAll(ms) + suffix == Print(ms[0]) + later;
      RequestRoundTrip(ms[0], later, EMPTY_RESPONSE);
      PipelinedRoundTrip(ms[1..], suffix);
    }
  }

  // ---------------------------------------------------------------- Content-Length

  function Decimal(n: nat): string {
    if n < 10 then [('0' as int + n) as char] else Decimal(n / 10) + [('0' as int + n % 10) as char]
  }

  lemma {:induction false} DecimalDigits(n: nat)
    ensures Decimal(n) != "" && forall c :: c in Decimal(n) ==> IsDigit(c)
    ensures DecimalValue(Decimal(n)) == n
  {
    if n < 10 {
      assert Decimal(n)[..0] == "";
    } else {
      DecimalDigits(n / 10);
      assert Decimal(n)[..|Decimal(n)| - 1] == Decimal(n / 10);
    }
  }

  lemma {:induction false} AllDigitsLead(d: string)
    requires forall c :: c in d ==> IsDigit(c)
    ensures LeadingDigits(d) == d
  {
    if d != "" {
      assert d[0] in d && forall c :: c in d[1..] ==> c in d;
      AllDigitsLead(d[1..]);
    }
  }

  /** std::stoul reads back every length that size_t can hold, and refuses the others. */
  lemma LengthRoundTrip(n: nat)
    ensures Stoul(Decimal(n)) == if n <= SIZE_MAX then Number(n) else OutOfRange
  {
    DecimalDigits(n);
    var d := Decimal(n);
    AllDigitsLead(d);
    assert d[0] in d;
    assert SkipSpace(d) == d;
  }

  // ---------------------------------------------------------------- field names in any case

  function LowerChar(c: char): char {
    if 'A' <= c <= 'Z' then (c as int + 32) as char else c
  }

  predicate SameIgnoringCase(a: string, b: string) {
    |a| == |b| && forall i :: 0 <= i < |a| ==> LowerChar(a[i]) == LowerChar(b[i])
  }

  /** The field name of section 8.6 of RFC 9110; field names are case-insensitive (section 5.1). */
  predicate Announces(f: Field) {
    SameIgnoringCase(f.name, "Content-Length")
  }

  /** Field k, and no other, announces the length of the body, in some spelling. */
  predicate AnnouncedBy(m: Message, k: nat) {
    && k < |m.fields| && Announces(m.fields[k])
    && (forall i :: 0 <= i < |m.fields| && Announces(m.fields[i]) ==> i == k)
    && Stoul(m.fields[k].value) == Number(|m.request.body|)
  }

  lemma {:induction false} NameInMap(h: map<string, string>, fields: seq<Field>, name: string)
    ensures (forall f :: f in fields ==> f.name != name) ==>
              (name in HeaderMap(h, fields) <==> name in h) && (name in h ==> HeaderMap(h, fields)[name] == h[name])
    decreases |fields|
  {
    if fields != [] {
      assert fields[0] in fields && forall f :: f in fields[1..] ==> f in fields;
      NameInMap(h[fields[0].name := fields[0].value], fields[1..], name);
    }
  }

  lemma {:induction false} FieldInMap(h: map<string, string>, fields: seq<Field>, k: nat)
    requires k < |fields| && forall i :: 0 <= i < |fields| && fields[i].name == fields[k].name ==> i == k
    ensures fields[k].name in HeaderMap(h, fields) && HeaderMap(h, fields)[fields[k].name] == fields[k].value
    decreases |fields|
  {
    var next := h[fields[0].name := fields[0].value];
    if k == 0 {
      forall f | f in fields[1..] ensures f.name != fields[0].name {
        var i :| 0 <= i < |fields| - 1 && fields[1..][i] == f;
        assert fields[i + 1] == f;
      }
      NameInMap(next, fields[1..], fields[0].name);
    } else {
      FieldInMap(next, fields[1..], k - 1);
    }
  }

  /** What the parser finds under "Content-Length". */
  lemma LookUpIsExact(m: Message, k: nat)
    requires HeadOk(m) && AnnouncedBy(m, k)
    ensures GetHeader(m.request, "Content-Length") ==
            if m.fields[k].name == "Content-Length" then m.fields[k].value else ""
  {
    forall i | 0 <= i < |m.fields| && m.fields[i].name == "Content-Length" ensures i == k {
      assert Announces(m.fields[i]);
    }
    hide Announces, Stoul;
    if m.fields[k].name == "Content-Length" {
      FieldInMap(map[], m.fields, k);
    } else {
      forall f | f in m.fields ensures f.name != "Content-Length" {
        var i :| 0 <= i < |m.fields| && m.fields[i] == f;
      }
      NameInMap(map[], m.fields, "Content-Length");
    }
  }

  /**
   A body whose length is announced in any spelling of the field name is read exactly if the
   spelling is "Content-Length", or the body is empty; otherwise it is left for the next request.
   */
  lemma AnnouncedBodyIsExact(m: Message, k: nat, suffix: string, resp: Response)
    requires HeadOk(m) && TakesBody(m.request.verb) && AnnouncedBy(m, k)
    ensures var (v, last) := Parse(Config(ExpectRequestLine, Print(m) + suffix, EMPTY_REQUEST, resp));
            && v == True
            && (last == Config(GotAll, suffix, m.request, resp)
                <==> m.fields[k].name == "Content-Length" || m.request.body == "")
            && (m.fields[k].name != "Content-Length" ==>
                  last == Config(GotAll, m.request.body + suffix, m.request.(body := ""), resp))
  {
    LookUpIsExact(m, k);
    HeadRoundTrip(m, suffix, resp);
    AnnouncedBodyTurn(m, k, suffix, resp);
  }

  lemma AnnouncedBodyTurn(m: Message, k: nat, suffix: string, resp: Response)
    requires HeadOk(m) && AnnouncedBy(m, k)
    requires GetHeader(m.request, "Content-Length") ==
             if m.fields[k].name == "Content-Length" then m.fields[k].value else ""
    ensures var c := Config(ExpectBody, m.request.body + suffix, m.request.(body := ""), resp);
            var (v, last) := Parse(c);
            && v == True
            && (last == Config(GotAll, suffix, m.request, resp)
                <==> m.fields[k].name == "Content-Length" || m.request.body == "")
            && (m.fields[k].name != "Content-Length" ==>
                  last == Config(GotAll, m.request.body + suffix, m.request.(body := ""), resp))
  {
    hide Announces, Stoul, HeaderMap;
    assert m.fields[k] in m.fields;
    var r := m.request.(body := "");
    assert GetHeader(r, "Content-Length") == GetHeader(m.request, "Content-Length");
    var c := Config(ExpectBody, m.request.body + suffix, r, resp);
    assert c.unread[..|m.request.body|] == m.request.body && c.unread[|m.request.body|..] == suffix;
    assert |m.request.body + suffix| == |m.request.body| + |suffix|;
    TurnsProgress(c);
    match Turns(c)
    case Again(next) => TurnsProgress(next);
    case Leave(_, _) =>
  }

  lemma NoReturnIsOneLine(s: string)
    requires '\r' !in s
    ensures OneLine(s)
  {
  }

  /** A POST with one field of this name, "3", and a body of three bytes. */
  function ThreeBytes(name: string): Message {
    Message(Request(Post, "/", "", Http11, "abc", map[name := "3"]), [Field(name, "3")])
  }

  lemma NameChars(name: string)
    requires SameIgnoringCase(name, "Content-Length")
    ensures '\r' !in name && ':' !in name
  {
    var t := "Content-Length";
    assert forall i :: 0 <= i < |t| ==> LowerChar(t[i]) != '\r' && LowerChar(t[i]) != ':';
    hide SameIgnoringCase;
  }

  lemma ThreeIsNumber()
    ensures Stoul("3") == Number(3) && OneLine("3")
  {
    assert Decimal(3) == "3";
    LengthRoundTrip(3);
    NoReturnIsOneLine("3");
  }

  lemma FieldIsHeader(h: map<string, string>, f: Field)
    ensures HeaderMap(h, [f]) == h[f.name := f.value]
  {
    assert [f][1..] == [];
  }

  lemma ThreeBytesHead(name: string)
    requires SameIgnoringCase(name, "Content-Length")
    ensures HeadOk(ThreeBytes(name))
  {
    NameChars(name);
    ThreeIsNumber();
    NoReturnIsOneLine(name);
    NoReturnIsOneLine("/");
    NoReturnIsOneLine("");
    FieldIsHeader(map[], Field(name, "3"));
    hide OneLine, Stoul, SameIgnoringCase, HeaderMap;
  }

  lemma ThreeBytesAnnounced(name: string)
    requires SameIgnoringCase(name, "Content-Length")
    ensures AnnouncedBy(ThreeBytes(name), 0)
  {
    ThreeIsNumber();
    hide Stoul, SameIgnoringCase;
    assert |"abc"| == 3;
  }

  /** The input for which it fails: "content-length: 3", say, and three bytes that are not read. */
  lemma OtherSpellingIsMissed(name: string, suffix: string)
    requires SameIgnoringCase(name, "Content-Length") && name != "Content-Length"
    ensures Parse(Config(ExpectRequestLine, Print(ThreeBytes(name)) + suffix, EMPTY_REQUEST, EMPTY_RESPONSE)) ==
            (True, Config(GotAll, "abc" + suffix, ThreeBytes(name).request.(body := ""), EMPTY_RESPONSE))
  {
    ThreeBytesHead(name);
    ThreeBytesAnnounced(name);
    hide HeadOk, AnnouncedBy, Parse, Print, SameIgnoringCase;
    AnnouncedBodyIsExact(ThreeBytes(name), 0, suffix, EMPTY_RESPONSE);
  }

  lemma LowerCaseIsSame()
    ensures SameIgnoringCase("content-length", "Content-Length") && "content-length" != "Content-Length"
  {
    assert "content-length"[0] != "Content-Length"[0];
  }

  // ---------------------------------------------------------------- what is not read back

  /** An empty value comes back as the blank that was printed before it. */
  lemma EmptyValueIsNotReadBack()
    ensures ParseHeader(PrintField(Field("X", "")), EMPTY_REQUEST).headers == map["X" := " "]
  {
    ParsePrintedField(Field("X", ""), EMPTY_REQUEST);
    assert " " + "" == " ";
  }

  /** A question mark in the path moves what follows it to the query. */
  lemma QuestionMarkEndsPath()
    ensures var r := EMPTY_REQUEST.(path := "/a?b");
            SetUrl(Target(r), EMPTY_REQUEST) == EMPTY_REQUEST.(path := "/a", query := "b")
  {
    var s := "/a?b";
    assert s + "" == s;
    assert s[..2] == "/a" && s[3..] == "b";
    assert "/a" + ['?'] + "b" == s;
    FindFirst("/a", '?', "b");
  }
}

/**
 The request parser of net/Http/HttpContext.cc on values: what parse does to the state, the
 unread bytes, the request and the response.
 */
module HttpModel {
  import opened Octets
  import opened Buffers

  // ---------------------------------------------------------------- requests

  datatype Method = Invalid | Get | Post | Head | Put | Delete | Options | Patch
  datatype Version = Unknown | Http10 | Http11

  datatype Request = Request(
    verb: Method, path: string, query: string, version: Version, body: string, headers: map<string, string>)

  const EMPTY_REQUEST := Request(Invalid, "", "", Unknown, "", map[])

  /** The part of a response that the parser writes. */
  datatype Response = Response(status: nat, body: string, headers: map<string, string>, closeConnection: bool)

  const EMPTY_RESPONSE := Response(0, "", map[], false)

  function BadRequest(r: Response): Response {
    Response(400, "Bad Request\r\n", r.headers["Content-Type" := "text/plain"], true)
  }

  function MethodToString(m: Method): string {
    match m
    case Get => "GET"
    case Post => "POST"
    case Head => "HEAD"
    case Put => "PUT"
    case Delete => "DELETE"
    case Options => "OPTIONS"
    case Patch => "PATCH"
    case Invalid => "INVALID"
  }

  function StringToMethod(s: string): Method {
    if s == "GET" then Get
    else if s == "POST" then Post
    else if s == "HEAD" then Head
    else if s == "PUT" then Put
    else if s == "DELETE" then Delete
    else if s == "OPTIONS" then Options
    else if s == "PATCH" then Patch
    else Invalid
  }

  function GetHeader(r: Request, key: string): string {
    if key in r.headers then r.headers[key] else ""
  }

  /** Methods whose requests have a body. */
  predicate TakesBody(m: Method) {
    m == Post || m == Put || m == Patch
  }

  // ---------------------------------------------------------------- string searches

  /** std::string::find */
  function Find(s: string, c: char): (r: Option<nat>)
    ensures r.Some? ==> r.value < |s| && s[r.value] == c
    ensures forall j :: 0 <= j < |s| && (r.Some? ==> j < r.value) ==> s[j] != c
  {
    if s == [] then None
    else if s[0] == c then Some(0)
    else
      assert forall j :: 0 < j < |s| ==> s[j] == s[1..][j - 1];
      match Find(s[1..], c)
      case None => None
      case Some(i) => Some(i + 1)
  }

  /** std::string::rfind */
  function RFind(s: string, c: char): (r: Option<nat>)
    ensures r.Some? ==> r.value < |s| && s[r.value] == c
    ensures forall j :: 0 <= j < |s| && (r.Some? ==> r.value < j) ==> s[j] != c
  {
    if s == [] then None
    else if s[|s| - 1] == c then Some(|s| - 1)
    else
      assert forall j :: 0 <= j < |s| - 1 ==> s[j] == s[..|s| - 1][j];
      RFind(s[..|s| - 1], c)
  }

  predicate Blank(c: char) {
    c == ' ' || c == '\t'
  }

  /** A header value without its leading blanks, unless it is nothing but blanks. */
  function TrimLeading(s: string): string {
    if forall c :: c in s ==> Blank(c) then s else TrimBlanks(s)
  }

  function TrimBlanks(s: string): string {
    if s == [] || !Blank(s[0]) then s else TrimBlanks(s[1..])
  }

  // ---------------------------------------------------------------- std::stoul

  datatype Number = Number(value: nat) | InvalidArgument | OutOfRange

  const SIZE_MAX: nat := 0xFFFF_FFFF_FFFF_FFFF

  predicate IsSpace(c: char) {
    c == ' ' || '\t' <= c <= '\r'
  }

  predicate IsDigit(c: char) {
    '0' <= c <= '9'
  }

  function SkipSpace(s: string): string {
    if s == [] || !IsSpace(s[0]) then s else SkipSpace(s[1..])
  }

  function LeadingDigits(s: string): (d: string)
    ensures forall c :: c in d ==> IsDigit(c)
  {
    if s == [] || !IsDigit(s[0]) then [] else [s[0]] + LeadingDigits(s[1..])
  }

  function DecimalValue(d: string): nat
    requires forall c :: c in d ==> IsDigit(c)
  {
    if d == [] then 0
    else
      assert d[|d| - 1] in d && IsDigit(d[|d| - 1]) && forall c :: c in d[..|d| - 1] ==> c in d;
      DecimalValue(d[..|d| - 1]) * 10 + (d[|d| - 1] as int - '0' as int)
  }

  /** Blanks, an optional sign, and the digits that follow; the rest of the text is ignored. */
  function Stoul(s: string): Number {
    var t := SkipSpace(s);
    var signed := t != [] && (t[0] == '+' || t[0] == '-');
    var d := LeadingDigits(if signed then t[1..] else t);
    if d == [] then InvalidArgument
    else if DecimalValue(d) > SIZE_MAX then OutOfRange
    else if signed && t[0] == '-' then Number((SIZE_MAX + 1 - DecimalValue(d)) % (SIZE_MAX + 1))
    else Number(DecimalValue(d))
  }

  // ---------------------------------------------------------------- lines

  /** parseRequestLine: whether the line is accepted, and the request it leaves behind. */
  function ParseRequestLine(line: string, r: Request): (bool, Request) {
    match Find(line, ' ')
    case None => (false, r)
    case Some(space1) =>
      var m := StringToMethod(line[..space1]);
      if m == Invalid then (false, r)
      else
        var r1 := r.(verb := m);
        match RFind(line, ' ')
        case None => (false, r1)
        case Some(space2) =>
          if space2 <= space1 + 1 then (false, r1)
          else
            var r2 := SetUrl(line[space1 + 1..space2], r1);
            var versionStr := line[space2 + 1..];
            if versionStr == "HTTP/1.1" then (true, r2.(version := Http11))
            else if versionStr == "HTTP/1.0" then (true, r2.(version := Http10))
            else (false, r2)
  }

  function SetUrl(url: string, r: Request): Request {
    match Find(url, '?')
    case Some(q) => r.(path := url[..q], query := url[q + 1..])
    case None => r.(path := url)
  }

  /** A header line; one without a colon is dropped. */
  function ParseHeader(line: string, r: Request): Request {
    match Find(line, ':')
    case None => r
    case Some(colon) => r.(headers := r.headers[line[..colon] := TrimLeading(line[colon + 1..])])
  }

  // ---------------------------------------------------------------- the state machine

  datatype ParseState = ExpectRequestLine | ExpectHeaders | ExpectBody | GotAll

  /** state_, the unread bytes of the buffer, and the objects passed to parse */
  datatype Config = Config(state: ParseState, unread: string, request: Request, response: Response)

  /** parse returns true or false, or lets an exception of std::stoul through. */
  datatype Verdict = True | False | Throws(error: Number)

  /** One iteration of the loop: go on with another configuration, or leave it. */
  datatype Turn = Again(next: Config) | Leave(verdict: Verdict, last: Config)

  function Turns(c: Config): Turn {
    match c.state
    case ExpectRequestLine => (
      match FindCRLF(c.unread)
      case None => Leave(False, c)
      case Some(lineLen) =>
        var (ok, r) := ParseRequestLine(c.unread[..lineLen], c.request);
        var c1 := c.(unread := c.unread[lineLen + 2..], request := r);
        if ok then Again(c1.(state := ExpectHeaders))
        else Leave(True, c1.(response := BadRequest(c.response))))
    case ExpectHeaders => (
      match FindCRLF(c.unread)
      case None => Leave(False, c)
      case Some(lineLen) =>
        var c1 := c.(unread := c.unread[lineLen + 2..]);
        if lineLen == 0 then Again(c1.(state := if TakesBody(c.request.verb) then ExpectBody else GotAll))
        else Again(c1.(request := ParseHeader(c.unread[..lineLen], c.request))))
    case ExpectBody => (
      var lengthStr := GetHeader(c.request, "Content-Length");
      if lengthStr == "" then Again(c.(state := GotAll))
      else
        match Stoul(lengthStr)
        case Number(n) =>
          if n <= |c.unread| then
            Again(c.(state := GotAll, unread := c.unread[n..], request := c.request.(body := c.unread[..n])))
          else Leave(False, c)
        case error => Leave(Throws(error), c))
    case GotAll => Leave(True, c)
  }

  /** States that a parse may still pass through. */
  function StatesLeft(s: ParseState): nat {
    match s
    case ExpectRequestLine => 3
    case ExpectHeaders => 2
    case ExpectBody => 1
    case GotAll => 0
  }

  /** Every turn consumes bytes or moves to a later state, and parse goes on from there. */
  lemma TurnsProgress(c: Config)
    ensures match Turns(c)
            case Again(next) =>
              && (|next.unread| < |c.unread| || (|next.unread| == |c.unread| && StatesLeft(next.state) < StatesLeft(c.state)))
              && Parse(c) == Parse(next)
            case Leave(v, last) => Parse(c) == (v, last)
  {
    hide ParseRequestLine, ParseHeader, Stoul;
  }

  /** HttpContext::parse */
  function Parse(c: Config): (Verdict, Config)
    decreases |c.unread|, StatesLeft(c.state)
  {
    match Turns(c)
    case Leave(v, last) => (v, last)
    case Again(next) => Parse(next)
  }
}

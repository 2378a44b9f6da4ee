/**
 What the parser does with any input of each kind, in terms of the characters themselves: request
 lines, header lines, lengths, and bodies by method.
 */
module HttpAnswers {
  import opened Octets
  import opened Buffers
  import opened HttpModel
  import opened HttpRoundTrip

  // ---------------------------------------------------------------- request lines

  /** The method names of section 9.3 of RFC 9110 and RFC 5789 that the parser knows. */
  predicate Names(s: string, m: Method) {
    match m
    case Get => s == "GET"
    case Post => s == "POST"
    case Head => s == "HEAD"
    case Put => s == "PUT"
    case Delete => s == "DELETE"
    case Options => s == "OPTIONS"
    case Patch => s == "PATCH"
    case Invalid => false
  }

  predicate Numbers(s: string, v: Version) {
    match v
    case Http11 => s == "HTTP/1.1"
    case Http10 => s == "HTTP/1.0"
    case Unknown => false
  }

  lemma MethodIsNamed(s: string, m: Method)
    requires m != Invalid
    ensures StringToMethod(s) == m <==> Names(s, m)
  {
    MethodRoundTrip(m);
  }

  lemma NoBlankInNames(s: string, m: Method)
    requires Names(s, m)
    ensures ' ' !in s
  {
    MethodRoundTrip(m);
  }

  lemma NoBlankInVersions(s: string, v: Version)
    requires Numbers(s, v)
    ensures ' ' !in s
  {
    VersionText(v);
  }

  /** A line made of these three parts. */
  ghost predicate Parts(line: string, m: Method, target: string, v: Version) {
    exists name, number :: Names(name, m) && Numbers(number, v) && line == name + " " + target + " " + number
  }

  /** The blanks at which the parser divides such a line. */
  lemma Divides(name: string, target: string, number: string)
    requires ' ' !in name && ' ' !in number
    ensures var line := name + " " + target + " " + number;
            && Find(line, ' ') == Some(|name|) && RFind(line, ' ') == Some(|name| + 1 + |target|)
            && line[..|name|] == name && line[|name| + 1..|name| + 1 + |target|] == target
            && line[|name| + 2 + |target|..] == number
  {
    var line := name + " " + target + " " + number;
    assert line == name + [' '] + (target + " " + number);
    FindFirst(name, ' ', target + " " + number);
    assert line == (name + " " + target) + [' '] + number;
    RFindLast(name + " " + target, ' ', number);
  }

  lemma KnownPartsAreRead(name: string, m: Method, target: string, number: string, v: Version, r: Request)
    requires ' ' !in name && ' ' !in number && StringToMethod(name) == m && m != Invalid
    requires (number == "HTTP/1.1" && v == Http11) || (number == "HTTP/1.0" && v == Http10)
    ensures var (ok, after) := ParseRequestLine(name + " " + target + " " + number, r);
            && (ok <==> target != "")
            && (ok ==> after == SetUrl(target, r.(verb := m)).(version := v))
  {
    Divides(name, target, number);
    VersionsDiffer();
    hide Find, RFind, StringToMethod, SetUrl;
  }

  /** A line of known parts with a target is accepted, and this is what it leaves in the request. */
  lemma PartsAreRead(line: string, m: Method, target: string, v: Version, r: Request)
    requires Parts(line, m, target, v)
    ensures var (ok, after) := ParseRequestLine(line, r);
            && (ok <==> target != "")
            && (ok ==> after == SetUrl(target, r.(verb := m)).(version := v))
  {
    var name, number :| Names(name, m) && Numbers(number, v) && line == name + " " + target + " " + number;
    NoBlankInNames(name, m);
    NoBlankInVersions(number, v);
    NamesAreKnown(name, m);
    hide Names, StringToMethod, ParseRequestLine, SetUrl;
    KnownPartsAreRead(name, m, target, number, v, r);
  }

  lemma NamesAreKnown(name: string, m: Method)
    requires Names(name, m)
    ensures m != Invalid && StringToMethod(name) == m
  {
    MethodIsNamed(name, m);
  }

  lemma VersionsDiffer()
    ensures "HTTP/1.1" != "HTTP/1.0"
  {
    assert "HTTP/1.1"[7] != "HTTP/1.0"[7];
  }

  /** Any line at all is accepted exactly if it is a method, a target and a version of HTTP/1. */
  lemma AcceptanceIsExact(line: string, r: Request)
    ensures ParseRequestLine(line, r).0 <==> exists m, target, v :: Parts(line, m, target, v) && target != ""
  {
    if m, target, v :| Parts(line, m, target, v) && target != "" {
      PartsAreRead(line, m, target, v, r);
    }
    if ParseRequestLine(line, r).0 {
      AcceptedHasParts(line, r);
    }
  }

  lemma AcceptedHasParts(line: string, r: Request)
    requires ParseRequestLine(line, r).0
    ensures exists m, target, v :: Parts(line, m, target, v) && target != ""
  {
    hide StringToMethod, SetUrl;
    var i, j := Find(line, ' ').value, RFind(line, ' ').value;
    assert line[i] == ' ' && line[j] == ' ' && i + 1 < j;
    var number := line[j + 1..];
    assert number == "HTTP/1.1" || number == "HTTP/1.0";
    var m := StringToMethod(line[..i]);
    assert m != Invalid;
    hide Find, RFind, ParseRequestLine;
    MethodIsNamed(line[..i], m);
    SplitsAt(line, i, j);
    HasParts(line, m, line[..i], line[i + 1..j], number);
  }

  lemma HasParts(line: string, m: Method, name: string, target: string, number: string)
    requires Names(name, m) && (number == "HTTP/1.1" || number == "HTTP/1.0") && target != ""
    requires line == name + " " + target + " " + number
    ensures exists m, target, v :: Parts(line, m, target, v) && target != ""
  {
    var v := if number == "HTTP/1.1" then Http11 else Http10;
    assert Numbers(number, v);
    hide Names, Numbers;
    assert Parts(line, m, target, v);
  }

  lemma SplitsAt(line: string, i: nat, j: nat)
    requires i + 1 < j < |line| && line[i] == ' ' && line[j] == ' '
    ensures line == line[..i] + " " + line[i + 1..j] + " " + line[j + 1..]
  {
  }

  /** Two inputs that are rejected: an unknown version and an unknown method. */
  lemma OthersAreRejected(r: Request)
    ensures !ParseRequestLine("GET / HTTP/2.0", r).0 && !ParseRequestLine("BREW / HTTP/1.1", r).0
  {
    Rejected("GET", "/", "HTTP/2.0", r);
    Rejected("BREW", "/", "HTTP/1.1", r);
    assert "GET" + " " + "/" + " " + "HTTP/2.0" == "GET / HTTP/2.0";
    assert "BREW" + " " + "/" + " " + "HTTP/1.1" == "BREW / HTTP/1.1";
  }

  lemma Rejected(name: string, target: string, number: string, r: Request)
    requires ' ' !in name && ' ' !in number
    requires StringToMethod(name) == Invalid || (number != "HTTP/1.1" && number != "HTTP/1.0")
    ensures !ParseRequestLine(name + " " + target + " " + number, r).0
  {
    Divides(name, target, number);
    hide Find, RFind, SetUrl;
  }

  /** A rejected line is answered with 400, a plain-text body, and the wish to close. */
  lemma RejectedLineIsAnswered(line: string, rest: string, r: Request, resp: Response)
    requires OneLine(line) && !ParseRequestLine(line, r).0
    ensures var (v, last) := Parse(Config(ExpectRequestLine, line + EOL + rest, r, resp));
            && v == True && last.state == ExpectRequestLine && last.unread == rest
            && last.response.status == 400 && last.response.body == "Bad Request\r\n"
            && last.response.headers == resp.headers["Content-Type" := "text/plain"]
            && last.response.closeConnection
  {
    var s := line + EOL + rest;
    LineFound(line, rest);
    assert s[..|line|] == line && s[|line| + 2..] == rest;
    hide FindCRLF, ParseRequestLine;
  }

  // ---------------------------------------------------------------- header lines

  /** The value of a header line, without the blanks and tabs before it. */
  lemma {:induction false} BlanksAreTrimmed(blanks: string, value: string)
    requires (forall c :: c in blanks ==> c == ' ' || c == '\t') && value != "" && value[0] != ' ' && value[0] != '\t'
    ensures TrimBlanks(blanks + value) == value
    decreases |blanks|
  {
    if blanks == "" {
      assert blanks + value == value;
    } else {
      assert blanks[0] in blanks && forall c :: c in blanks[1..] ==> c in blanks;
      assert (blanks + value)[1..] == blanks[1..] + value;
      BlanksAreTrimmed(blanks[1..], value);
    }
  }

  /**
   Any header line: the name is what is before the first colon, the value what is after it without
   its leading blanks and tabs. A value of nothing else is kept, a line without a colon dropped.
   */
  lemma HeaderLineIsRead(name: string, blanks: string, value: string, r: Request)
    requires ':' !in name && forall c :: c in blanks ==> c == ' ' || c == '\t'
    requires value != "" && value[0] != ' ' && value[0] != '\t'
    ensures ParseHeader(name + ":" + (blanks + value), r) == r.(headers := r.headers[name := value])
    ensures ParseHeader(name + ":" + blanks, r) == r.(headers := r.headers[name := blanks])
    ensures ParseHeader(name, r) == r
  {
    HeaderValue(name, blanks + value, r);
    HeaderValue(name, blanks, r);
    BlanksAreTrimmed(blanks, value);
    assert value[0] in blanks + value;
    NoColon(name);
    hide Find;
  }

  lemma HeaderValue(name: string, text: string, r: Request)
    requires ':' !in name
    ensures ParseHeader(name + ":" + text, r) == r.(headers := r.headers[name := TrimLeading(text)])
  {
    var line := name + ":" + text;
    assert line == name + [':'] + text;
    FindFirst(name, ':', text);
    assert line[..|name|] == name && line[|name| + 1..] == text;
    hide Find, TrimLeading;
  }

  lemma NoColon(s: string)
    requires ':' !in s
    ensures Find(s, ':') == None
  {
  }

  // ---------------------------------------------------------------- lengths

  lemma {:induction false} DigitsStop(d: string, rest: string)
    requires (forall c :: c in d ==> '0' <= c <= '9') && (rest == "" || !('0' <= rest[0] <= '9'))
    ensures LeadingDigits(d + rest) == d
    decreases |d|
  {
    if d == "" {
      assert d + rest == rest;
    } else {
      assert d[0] in d && (d + rest)[1..] == d[1..] + rest && forall c :: c in d[1..] ==> c in d;
      DigitsStop(d[1..], rest);
    }
  }

  lemma {:induction false} SpacesSkipped(spaces: string, s: string)
    requires (forall c :: c in spaces ==> c == ' ' || '\t' <= c <= '\r') && (s == "" || !IsSpace(s[0]))
    ensures SkipSpace(spaces + s) == s
    decreases |spaces|
  {
    if spaces == "" {
      assert spaces + s == s;
    } else {
      assert (spaces + s)[1..] == spaces[1..] + s;
      assert spaces[0] in spaces && forall c :: c in spaces[1..] ==> c in spaces;
      SpacesSkipped(spaces[1..], s);
    }
  }

  datatype Sign = NoSign | Plus | Minus

  function SignText(sign: Sign): string {
    match sign
    case NoSign => ""
    case Plus => "+"
    case Minus => "-"
  }

  /**
   std::stoul on spaces, a sign, digits and any text after them: the number, up to 2^64 - 1, with a
   minus sign taken modulo 2^64; what follows the digits is ignored.
   */
  lemma StoulIsExact(spaces: string, sign: Sign, n: nat, rest: string)
    requires (forall c :: c in spaces ==> c == ' ' || '\t' <= c <= '\r') && (rest == "" || !('0' <= rest[0] <= '9'))
    ensures Stoul(spaces + (SignText(sign) + (Decimal(n) + rest))) ==
            if n > 0xFFFF_FFFF_FFFF_FFFF then OutOfRange
            else if sign == Minus && n > 0 then Number(0x1_0000_0000_0000_0000 - n)
            else Number(n)
  {
    var d := Decimal(n);
    DecimalDigits(n);
    assert d[0] in d;
    hide SkipSpace, LeadingDigits, DecimalValue, Decimal, Stoul;
    StoulSigned(sign, d, rest);
    StoulSkips(spaces, SignText(sign) + (d + rest));
  }

  lemma StoulSkips(spaces: string, t: string)
    requires (forall c :: c in spaces ==> c == ' ' || '\t' <= c <= '\r') && t != "" && !IsSpace(t[0])
    ensures Stoul(spaces + t) == Stoul(t)
  {
    SpacesSkipped(spaces, t);
    SpacesSkipped("", t);
    assert "" + t == t;
    hide SkipSpace, LeadingDigits, DecimalValue;
  }

  lemma StoulSigned(sign: Sign, d: string, rest: string)
    requires d != "" && (forall c :: c in d ==> '0' <= c <= '9') && (rest == "" || !('0' <= rest[0] <= '9'))
    ensures var t := SignText(sign) + (d + rest);
            && t != "" && !IsSpace(t[0])
            && Stoul(t) == var n := DecimalValue(d);
                           if n > 0xFFFF_FFFF_FFFF_FFFF then OutOfRange
                           else if sign == Minus && n > 0 then Number(0x1_0000_0000_0000_0000 - n)
                           else Number(n)
  {
    var t := SignText(sign) + (d + rest);
    assert d[0] in d && (d + rest)[0] == d[0];
    SignSplits(sign, d + rest);
    DigitsStop(d, rest);
    FirstChar(sign, d + rest);
    hide LeadingDigits, DecimalValue, SignText;
    SpacesSkipped("", t);
    assert "" + t == t;
    hide SkipSpace;
    var signed := t[0] == '+' || t[0] == '-';
    assert signed <==> sign != NoSign;
    assert LeadingDigits(if signed then t[1..] else t) == d;
  }

  lemma FirstChar(sign: Sign, s: string)
    requires s != "" && '0' <= s[0] <= '9'
    ensures var t := SignText(sign) + s;
            && t != "" && !IsSpace(t[0])
            && (t[0] == '+' <==> sign == Plus) && (t[0] == '-' <==> sign == Minus)
  {
    match sign
    case NoSign => assert "" + s == s;
    case Plus =>
    case Minus =>
  }

  lemma SignSplits(sign: Sign, s: string)
    ensures sign != NoSign ==> (SignText(sign) + s)[1..] == s
    ensures sign == NoSign ==> SignText(sign) + s == s
  {
  }

  /** Text that has no digits after its spaces and its sign is no number. */
  lemma StoulRefuses(spaces: string, sign: Sign, rest: string)
    requires forall c :: c in spaces ==> c == ' ' || '\t' <= c <= '\r'
    requires rest == "" || (!('0' <= rest[0] <= '9') && !IsSpace(rest[0]) && rest[0] != '+' && rest[0] != '-')
    ensures Stoul(spaces + (SignText(sign) + rest)) == InvalidArgument
  {
    SpacesSkipped(spaces, SignText(sign) + rest);
    DigitsStop("", rest);
    assert "" + rest == rest;
    SignSplits(sign, rest);
    hide SkipSpace, LeadingDigits, DecimalValue;
  }

  // ---------------------------------------------------------------- bodies

  /** A bad length ends the parse with the exception; nothing is consumed. */
  lemma BadLengthThrows(c: Config)
    requires c.state == ExpectBody && GetHeader(c.request, "Content-Length") != ""
    requires !Stoul(GetHeader(c.request, "Content-Length")).Number?
    ensures Parse(c) == (Throws(Stoul(GetHeader(c.request, "Content-Length"))), c)
  {
    hide Stoul;
  }

  /**
   The bytes after the blank line of a message, by method. Of a POST, PUT or PATCH as many as
   Content-Length says become the body, and none without one; of a GET, HEAD, DELETE or OPTIONS
   none ever do. The others are left in the buffer.
   */
  lemma BodyByMethod(m: Message, suffix: string, resp: Response)
    requires HeadOk(m)
    ensures var (v, last) := Parse(Config(ExpectRequestLine, Print(m) + suffix, EMPTY_REQUEST, resp));
            var length := GetHeader(m.request, "Content-Length");
            var unread := Config(GotAll, m.request.body + suffix, m.request.(body := ""), resp);
            match m.request.verb
            case Post => BodyIsRead(m, length, suffix, resp, v, last)
            case Put => BodyIsRead(m, length, suffix, resp, v, last)
            case Patch => BodyIsRead(m, length, suffix, resp, v, last)
            case Get => v == True && last == unread
            case Head => v == True && last == unread
            case Delete => v == True && last == unread
            case Options => v == True && last == unread
            case Invalid => false
  {
    HeadRoundTrip(m, suffix, resp);
    var r := m.request.(body := "");
    var state := if TakesBody(r.verb) then ExpectBody else GotAll;
    assert m.request.verb != Invalid;
    hide HeadOk, Print;
    BodyTurn(m, suffix, resp);
  }

  /** What becomes of the body where the method has one. */
  predicate BodyIsRead(m: Message, length: string, suffix: string, resp: Response, v: Verdict, last: Config) {
    if length == Decimal(|m.request.body|) && |m.request.body| <= 0xFFFF_FFFF_FFFF_FFFF then
      v == True && last == Config(GotAll, suffix, m.request, resp)
    else length == "" ==> v == True && last == Config(GotAll, m.request.body + suffix, m.request.(body := ""), resp)
  }

  lemma BodyTurn(m: Message, suffix: string, resp: Response)
    ensures var r := m.request.(body := "");
            var unread := Config(GotAll, m.request.body + suffix, r, resp);
            Parse(unread) == (True, unread)
    ensures var r := m.request.(body := "");
            var (v, last) := Parse(Config(ExpectBody, m.request.body + suffix, r, resp));
            BodyIsRead(m, GetHeader(m.request, "Content-Length"), suffix, resp, v, last)
  {
    var body := m.request.body;
    LengthRoundTrip(|body|);
    DecimalDigits(|body|);
    hide Stoul, Decimal, DecimalValue;
    var r := m.request.(body := "");
    assert GetHeader(r, "Content-Length") == GetHeader(m.request, "Content-Length");
    var c := Config(ExpectBody, body + suffix, r, resp);
    assert c.unread[..|body|] == body && c.unread[|body|..] == suffix;
    TurnsProgress(c);
    match Turns(c)
    case Again(next) => TurnsProgress(next);
    case Leave(_, _) =>
  }
}

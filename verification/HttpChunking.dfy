/**
 How the parser behaves when the bytes arrive in pieces. parse itself does not depend on the
 split; HttpServer::onMessage, which starts every call with a fresh request, does.
 */
module HttpChunking {
  import opened Octets
  import opened Buffers
  import opened HttpModel

  function With(c: Config, more: string): Config {
    c.(unread := c.unread + more)
  }

  lemma FindCRLFExtend(s: string, more: string)
    requires FindCRLF(s).Some?
    ensures FindCRLF(s + more) == FindCRLF(s)
  {
    var i := FindCRLF(s).value;
    assert (s + more)[i] == '\r' && (s + more)[i + 1] == '\n';
    match FindCRLF(s + more)
    case None =>
    case Some(j) =>
      assert forall k :: 0 <= k < |s| ==> (s + more)[k] == s[k];
  }

  lemma LineExtend(c: Config, more: string)
    requires (c.state == ExpectRequestLine || c.state == ExpectHeaders) && FindCRLF(c.unread).Some?
    ensures match Turns(c)
            case Again(next) => Turns(With(c, more)) == Again(With(next, more))
            case Leave(v, last) => v == True && Turns(With(c, more)) == Leave(v, With(last, more))
  {
    hide ParseRequestLine, ParseHeader;
    FindCRLFExtend(c.unread, more);
    FirstLineExtend(c.unread, more, FindCRLF(c.unread).value);
    hide FindCRLF;
  }

  lemma FirstLineExtend(s: string, more: string, i: nat)
    requires i + 2 <= |s|
    ensures (s + more)[..i] == s[..i] && (s + more)[i + 2..] == s[i + 2..] + more
  {
  }

  lemma BodyExtend(c: Config, more: string)
    requires c.state == ExpectBody
    ensures match Turns(c)
            case Again(next) => Turns(With(c, more)) == Again(With(next, more))
            case Leave(v, last) => if v == False then last == c else Turns(With(c, more)) == Leave(v, With(last, more))
  {
    hide Stoul;
    var s := c.unread;
    match Stoul(GetHeader(c.request, "Content-Length"))
    case Number(n) => if n <= |s| { assert (s + more)[..n] == s[..n] && (s + more)[n..] == s[n..] + more; }
    case _ =>
  }

  /** More bytes at the end change a turn only if it was waiting for them. */
  lemma TurnExtend(c: Config, more: string)
    ensures match Turns(c)
            case Again(next) => Turns(With(c, more)) == Again(With(next, more))
            case Leave(v, last) => if v == False then last == c else Turns(With(c, more)) == Leave(v, With(last, more))
  {
    hide FindCRLF, ParseRequestLine, ParseHeader, Stoul;
    if c.state == ExpectBody {
      BodyExtend(c, more);
    } else if c.state != GotAll && FindCRLF(c.unread).Some? {
      LineExtend(c, more);
    }
  }

  /** A parse that is over is not affected by later bytes; one that waits goes on where it stopped. */
  lemma {:induction false} ParseExtend(c: Config, more: string)
    ensures var (v, last) := Parse(c);
            Parse(With(c, more)) == if v == False then Parse(With(last, more)) else (v, With(last, more))
    decreases |c.unread|, StatesLeft(c.state)
  {
    TurnExtend(c, more);
    TurnsProgress(c);
    TurnsProgress(With(c, more));
    hide Parse, Turns;
    match Turns(c)
    case Leave(_, _) =>
    case Again(next) => ParseExtend(next, more);
  }

  // ---------------------------------------------------------------- pieces

  function Concat(pieces: seq<string>): string {
    if pieces == [] then "" else pieces[0] + Concat(pieces[1..])
  }

  /** The last verdict, what it left behind, and the pieces that were not fed any more. */
  datatype Fed = Fed(verdict: Verdict, config: Config, rest: seq<string>)

  /** Feed the pieces to one parser, request and response until parse does not return false. */
  function Feed(c: Config, pieces: seq<string>): Fed
    requires pieces != []
    decreases |pieces|
  {
    var (v, last) := Parse(With(c, pieces[0]));
    if v == False && |pieces| > 1 then Feed(last, pieces[1..]) else Fed(v, last, pieces[1..])
  }

  /** Any split of the input gives the result, objects and unread bytes of one parse of the whole. */
  lemma {:induction false} ChunkingIndependence(c: Config, pieces: seq<string>)
    requires pieces != []
    ensures var f := Feed(c, pieces);
            Parse(With(c, Concat(pieces))) == (f.verdict, With(f.config, Concat(f.rest)))
    decreases |pieces|
  {
    var (v, last) := Parse(With(c, pieces[0]));
    var later := Concat(pieces[1..]);
    assert With(c, Concat(pieces)) == With(With(c, pieces[0]), later) by {
      assert c.unread + (pieces[0] + later) == (c.unread + pieces[0]) + later;
    }
    ParseExtend(With(c, pieces[0]), later);
    if v == False {
      if |pieces| > 1 {
        ChunkingIndependence(last, pieces[1..]);
      } else {
        assert With(last, later) == last;
        ParseStops(With(c, pieces[0]));
      }
    }
  }

  /** Two pieces, of which the first is not enough: with a kept request, and with a fresh one. */
  lemma FeedTwo(c: Config, first: string, second: string)
    requires Parse(With(c, first)).0 == False
    ensures var last := Parse(With(c, first)).1;
            && Feed(c, [first, second]) == (var (v, end) := Parse(With(last, second)); Fed(v, end, []))
            && FeedFresh(c, [first, second]) ==
                 var (v, end) := Parse(With(last.(request := EMPTY_REQUEST, response := c.response), second));
                 Fed(v, end, [])
  {
    hide Parse;
    var pieces := [first, second];
    assert pieces[1..] == [second] && pieces[1..][1..] == [];
  }

  /** After parse has returned false, nothing happens without more bytes. */
  lemma {:induction false} ParseStops(c: Config)
    requires Parse(c).0 == False
    ensures Parse(Parse(c).1) == Parse(c)
    decreases |c.unread|, StatesLeft(c.state)
  {
    TurnsProgress(c);
    TurnExtend(c, "");
    hide Parse, Turns;
    match Turns(c)
    case Leave(_, _) =>
    case Again(next) => ParseStops(next);
  }

  /** The next line is a request line, and parseRequestLine rejects it. */
  predicate BadLineNext(c: Config) {
    c.state == ExpectRequestLine &&
    match FindCRLF(c.unread)
    case None => false
    case Some(n) => !ParseRequestLine(c.unread[..n], c.request).0
  }

  /** parse returns true without a complete request exactly on a bad request line. */
  lemma {:induction false} TrueMeans(c: Config)
    ensures var (v, last) := Parse(c);
            && (v == True && last.state != GotAll <==> BadLineNext(c))
            && (BadLineNext(c) ==> last.state == ExpectRequestLine && last.response == BadRequest(c.response))
    decreases |c.unread|, StatesLeft(c.state)
  {
    hide ParseRequestLine, ParseHeader, Stoul;
    match Turns(c)
    case Leave(_, _) =>
    case Again(next) => TrueMeans(next);
  }

  /** The input for which it happens: an empty line instead of a request line. */
  lemma EmptyLineIsBad(r: Request, resp: Response)
    ensures Parse(Config(ExpectRequestLine, "\r\n", r, resp)) ==
            (True, Config(ExpectRequestLine, "", r, BadRequest(resp)))
  {
    var s := "\r\n";
    assert FindCRLF(s) == Some(0) && s[..0] == "" && s[2..] == "";
  }

  // ---------------------------------------------------------------- HttpServer::onMessage

  /** Each call of onMessage parses into a new request and response; state and bytes are kept. */
  function FeedFresh(c: Config, pieces: seq<string>): Fed
    requires pieces != []
    decreases |pieces|
  {
    var (v, last) := Parse(With(c, pieces[0]));
    if v == False && |pieces| > 1
    then FeedFresh(last.(request := EMPTY_REQUEST, response := c.response), pieces[1..])
    else Fed(v, last, pieces[1..])
  }

  /** The lines up to the blank one, and what follows it; None as long as there is no blank one. */
  function HeaderLines(s: string): Option<(seq<string>, string)> {
    match FindCRLF(s)
    case None => None
    case Some(n) =>
      if n == 0 then Some(([], s[2..]))
      else
        match HeaderLines(s[n + 2..])
        case None => None
        case Some((lines, rest)) => Some(([s[..n]] + lines, rest))
  }

  function WithHeaders(r: Request, lines: seq<string>): Request
    decreases |lines|
  {
    if lines == [] then r else WithHeaders(ParseHeader(lines[0], r), lines[1..])
  }

  /** After the request line: no blank line yet, or fewer bytes after it than Content-Length says. */
  predicate LacksRest(s: string, r: Request) {
    match HeaderLines(s)
    case None => true
    case Some((lines, rest)) =>
      var length := GetHeader(WithHeaders(r, lines), "Content-Length");
      TakesBody(r.verb) && length != "" && Stoul(length).Number? && |rest| < Stoul(length).value
  }

  /** The bytes hold an acceptable request line, but not the whole request. */
  predicate Unfinished(s: string) {
    match FindCRLF(s)
    case None => false
    case Some(n) =>
      var (ok, r) := ParseRequestLine(s[..n], EMPTY_REQUEST);
      ok && LacksRest(s[n + 2..], r)
  }

  /** Some message, but not the last, ends between the request line and the end of the request. */
  ghost predicate EndsInside(pieces: seq<string>) {
    exists k :: 0 < k < |pieces| && Unfinished(Concat(pieces[..k]))
  }

  lemma {:induction false} HeadersWait(s: string, r: Request, resp: Response)
    ensures Parse(Config(ExpectHeaders, s, r, resp)).0 == False <==> LacksRest(s, r)
    decreases |s|
  {
    var c := Config(ExpectHeaders, s, r, resp);
    TurnsProgress(c);
    HeadersTurn(s, r, resp);
    hide Parse, Turns, LacksRest;
    match FindCRLF(s)
    case None =>
    case Some(n) =>
      if n > 0 {
        HeadersWait(s[n + 2..], ParseHeader(s[..n], r), resp);
        LacksRestLater(s, n, r);
      } else {
        HeadersEnd(s, r, resp);
      }
  }

  lemma HeadersTurn(s: string, r: Request, resp: Response)
    ensures match FindCRLF(s)
            case None => Turns(Config(ExpectHeaders, s, r, resp)) == Leave(False, Config(ExpectHeaders, s, r, resp))
                         && LacksRest(s, r)
            case Some(n) =>
              n > 0 ==>
                Turns(Config(ExpectHeaders, s, r, resp)) ==
                Again(Config(ExpectHeaders, s[n + 2..], ParseHeader(s[..n], r), resp))
  {
    hide FindCRLF, Stoul, ParseHeader, WithHeaders;
  }

  lemma HeadersEnd(s: string, r: Request, resp: Response)
    requires FindCRLF(s) == Some(0)
    ensures Parse(Config(ExpectHeaders, s, r, resp)).0 == False <==> LacksRest(s, r)
  {
    assert WithHeaders(r, []) == r;
    var c := Config(ExpectHeaders, s, r, resp);
    TurnsProgress(c);
    hide FindCRLF, Stoul, WithHeaders, Parse;
    BodyWaits(c.(state := if TakesBody(r.verb) then ExpectBody else GotAll, unread := s[2..]));
  }

  lemma LacksRestLater(s: string, n: nat, r: Request)
    requires FindCRLF(s) == Some(n) && n > 0
    ensures LacksRest(s, r) == LacksRest(s[n + 2..], ParseHeader(s[..n], r))
  {
    hide FindCRLF, Stoul, ParseHeader;
    SameVerb(s[..n], r);
    match HeaderLines(s[n + 2..])
    case None =>
    case Some((lines, rest)) => assert ([s[..n]] + lines)[1..] == lines;
  }

  lemma SameVerb(line: string, r: Request)
    ensures ParseHeader(line, r).verb == r.verb
  {
  }

  lemma BodyWaits(c: Config)
    requires c.state == ExpectBody || c.state == GotAll
    ensures var length := GetHeader(c.request, "Content-Length");
            Parse(c).0 == False <==>
              c.state == ExpectBody && length != "" && Stoul(length).Number? && |c.unread| < Stoul(length).value
  {
    hide Stoul;
  }

  /** parse waits for the rest of a request exactly if the bytes are such an unfinished one. */
  lemma UnfinishedWaits(s: string, resp: Response)
    ensures var (v, last) := Parse(Config(ExpectRequestLine, s, EMPTY_REQUEST, resp));
            v == False && last.state != ExpectRequestLine <==> Unfinished(s)
  {
    hide Stoul, ParseHeader;
    match FindCRLF(s)
    case None =>
    case Some(n) =>
      var (ok, r) := ParseRequestLine(s[..n], EMPTY_REQUEST);
      if ok {
        var next := Config(ExpectHeaders, s[n + 2..], r, resp);
        assert Parse(Config(ExpectRequestLine, s, EMPTY_REQUEST, resp)) == Parse(next);
        HeadersWait(s[n + 2..], r, resp);
        VerbStays(next);
      }
  }

  /** An end of line, and the blank line after it. */
  predicate BlankLineAt(t: string, i: nat) {
    i + 4 <= |t| && t[i] == '\r' && t[i + 1] == '\n' && t[i + 2] == '\r' && t[i + 3] == '\n'
  }

  lemma BlankLineShift(t: string, d: nat, i: nat)
    requires d <= |t|
    ensures BlankLineAt(t[d..], i) == BlankLineAt(t, i + d)
  {
  }

  lemma NoBlankLineBefore(s: string, i: nat)
    requires BlankLineAt("\r\n" + s, i)
    ensures FindCRLF(s).Some?
    ensures FindCRLF(s).value > 0 ==> FindCRLF(s).value + 2 <= i
  {
    var t := "\r\n" + s;
    assert s[i] == t[i + 2] && s[i + 1] == t[i + 3];
    var n := FindCRLF(s).value;
    assert n >= 1 ==> s[n - 1] == t[n + 1];
    assert n >= 2 ==> s[n - 2] == t[n];
  }

  /** Somewhere a blank line follows an end of line; there is one just before s. */
  ghost predicate HasBlankLine(s: string) {
    exists i: nat :: BlankLineAt("\r\n" + s, i)
  }

  lemma BlankLineLater(s: string, n: nat)
    requires FindCRLF(s) == Some(n) && n > 0
    ensures HasBlankLine(s) <==> HasBlankLine(s[n + 2..])
  {
    var t, u := "\r\n" + s, "\r\n" + s[n + 2..];
    assert t[n + 2..] == u;
    hide FindCRLF, BlankLineAt;
    if i: nat :| BlankLineAt(u, i) {
      BlankLineShift(t, n + 2, i);
    }
    if i: nat :| BlankLineAt(t, i) {
      NoBlankLineBefore(s, i);
      BlankLineShift(t, n + 2, i - n - 2);
    }
  }

  /** The header section is over as soon as there is a blank line, wherever the lines begin. */
  lemma {:induction false} HeadersEndAtBlankLine(s: string)
    ensures HeaderLines(s).Some? <==> HasBlankLine(s)
    decreases |s|
  {
    hide HasBlankLine;
    match FindCRLF(s)
    case None => BlankLineNeedsCRLF(s);
    case Some(n) =>
      if n == 0 {
        BlankLineAtOnce(s);
      } else {
        BlankLineLater(s, n);
        HeadersEndAtBlankLine(s[n + 2..]);
      }
  }

  lemma BlankLineNeedsCRLF(s: string)
    requires FindCRLF(s) == None
    ensures !HasBlankLine(s)
  {
    if i: nat :| BlankLineAt("\r\n" + s, i) {
      NoBlankLineBefore(s, i);
    }
  }

  lemma BlankLineAtOnce(s: string)
    requires FindCRLF(s) == Some(0)
    ensures HasBlankLine(s)
  {
    assert BlankLineAt("\r\n" + s, 0);
  }

  /** Past the request line the method stays; it is a valid one once the line was accepted. */
  lemma {:induction false} VerbStays(c: Config)
    ensures var (v, last) := Parse(c);
            && (c.state != ExpectRequestLine ==>
                  last.state != ExpectRequestLine && last.request.verb == c.request.verb && last.response == c.response)
            && (c.state == ExpectRequestLine && last.state != ExpectRequestLine ==>
                  last.request.verb != Invalid && last.response == c.response)
            && (c.state == ExpectRequestLine && last.state == ExpectRequestLine && v == False ==> last == c)
    decreases |c.unread|, StatesLeft(c.state)
  {
    hide Parse, Turns;
    TurnsProgress(c);
    TurnKeepsVerb(c);
    match Turns(c)
    case Leave(_, _) =>
    case Again(next) => VerbStays(next);
  }

  lemma TurnKeepsVerb(c: Config)
    ensures match Turns(c)
            case Again(next) =>
              && next.state != ExpectRequestLine && next.response == c.response
              && (if c.state == ExpectRequestLine then next.request.verb != Invalid
                  else next.request.verb == c.request.verb)
            case Leave(v, last) =>
              && last.state == c.state && (v == False ==> last == c)
              && (c.state != ExpectRequestLine ==> last == c)
  {
    hide FindCRLF, Stoul, Find, RFind, TrimLeading;
  }

  lemma {:induction false} FreshStaysInvalid(c: Config, pieces: seq<string>)
    requires pieces != [] && c.state != ExpectRequestLine && c.request.verb == Invalid
    ensures FeedFresh(c, pieces).config.request.verb == Invalid
    decreases |pieces|
  {
    VerbStays(With(c, pieces[0]));
    var (v, last) := Parse(With(c, pieces[0]));
    if v == False && |pieces| > 1 {
      FreshStaysInvalid(last.(request := EMPTY_REQUEST, response := c.response), pieces[1..]);
    }
  }

  lemma {:induction false} KeptStaysValid(c: Config, pieces: seq<string>)
    requires pieces != [] && c.state != ExpectRequestLine && c.request.verb != Invalid
    ensures Feed(c, pieces).config.request.verb != Invalid
    decreases |pieces|
  {
    VerbStays(With(c, pieces[0]));
    var (v, last) := Parse(With(c, pieces[0]));
    if v == False && |pieces| > 1 { KeptStaysValid(last, pieces[1..]); }
  }

  lemma ConcatSplit(pieces: seq<string>, k: nat)
    requires 0 < k <= |pieces|
    ensures Concat(pieces[..k]) == pieces[0] + Concat(pieces[1..][..k - 1])
  {
    assert pieces[..k][1..] == pieces[1..][..k - 1];
  }

  /** Bytes that are read but not consumed may as well come with the next message. */
  lemma EndsInsideRest(pieces: seq<string>)
    requires |pieces| > 1 && !Unfinished(pieces[0])
    ensures EndsInside(pieces) <==> EndsInside([pieces[0] + pieces[1]] + pieces[2..])
  {
    var joined := [pieces[0] + pieces[1]] + pieces[2..];
    assert Concat(pieces[..1]) == pieces[0] by { ConcatSplit(pieces, 1); assert pieces[1..][..0] == []; }
    forall k | 0 < k < |joined| ensures Concat(joined[..k]) == Concat(pieces[..k + 1]) {
      ConcatSplit(pieces, k + 1);
      ConcatSplit(pieces[1..], k);
      ConcatSplit(joined, k);
      assert joined[1..] == pieces[1..][1..];
    }
    forall k | 1 < k < |pieces| ensures Concat(pieces[..k]) == Concat(joined[..k - 1]) {
      assert Concat(joined[..k - 1]) == Concat(pieces[..k - 1 + 1]);
    }
  }

  /** Once parse is over, it stays over with more bytes: none of the later prefixes is unfinished. */
  lemma OverStaysOver(pieces: seq<string>, resp: Response)
    requires pieces != [] && Parse(Config(ExpectRequestLine, pieces[0], EMPTY_REQUEST, resp)).0 != False
    ensures !EndsInside(pieces)
  {
    var c := Config(ExpectRequestLine, pieces[0], EMPTY_REQUEST, resp);
    forall k | 0 < k < |pieces| ensures !Unfinished(Concat(pieces[..k])) {
      ConcatSplit(pieces, k);
      ParseExtend(c, Concat(pieces[1..][..k - 1]));
      UnfinishedWaits(Concat(pieces[..k]), resp);
    }
  }

  lemma {:induction false} FreshIsExactFromStart(resp: Response, pieces: seq<string>)
    requires pieces != []
    ensures var c := Config(ExpectRequestLine, "", EMPTY_REQUEST, resp);
            FeedFresh(c, pieces) == Feed(c, pieces) <==> !EndsInside(pieces)
    decreases |pieces|
  {
    hide EndsInside, Unfinished, Parse;
    var c := Config(ExpectRequestLine, "", EMPTY_REQUEST, resp);
    var first := Config(ExpectRequestLine, pieces[0], EMPTY_REQUEST, resp);
    assert With(c, pieces[0]) == first;
    var (v, last) := Parse(first);
    VerbStays(first);
    UnfinishedWaits(pieces[0], resp);
    if v != False {
      OverStaysOver(pieces, resp);
    } else if |pieces| == 1 {
      NoneInside(pieces);
    } else if last.state != ExpectRequestLine {
      InsideAtOnce(pieces);
      FreshStaysInvalid(last.(request := EMPTY_REQUEST, response := resp), pieces[1..]);
      KeptStaysValid(last, pieces[1..]);
    } else {
      var joined := [pieces[0] + pieces[1]] + pieces[2..];
      assert last == first;
      EndsInsideRest(pieces);
      FreshIsExactFromStart(resp, joined);
      assert With(c, joined[0]) == With(first, pieces[1]);
      assert joined[1..] == pieces[1..][1..];
    }
  }

  lemma NoneInside(pieces: seq<string>)
    requires |pieces| == 1
    ensures !EndsInside(pieces)
  {
  }

  lemma InsideAtOnce(pieces: seq<string>)
    requires |pieces| > 1 && Unfinished(pieces[0])
    ensures EndsInside(pieces)
  {
    ConcatSplit(pieces, 1);
    assert pieces[1..][..0] == [] && Concat(pieces[..1]) == pieces[0];
  }

  /**
   The per-message request of onMessage delivers what one request kept across messages would,
   exactly if no message ends between the request line and the end of the request. Bytes left
   in the buffer count as the beginning of the first message.
   */
  lemma FreshRequestIsExact(c: Config, pieces: seq<string>)
    requires pieces != [] && c.state == ExpectRequestLine && c.request == EMPTY_REQUEST
    ensures FeedFresh(c, pieces) == Feed(c, pieces)
            <==> !EndsInside([c.unread + pieces[0]] + pieces[1..])
  {
    hide Parse, EndsInside;
    var all := [c.unread + pieces[0]] + pieces[1..];
    var start := Config(ExpectRequestLine, "", EMPTY_REQUEST, c.response);
    assert With(start, all[0]) == With(c, pieces[0]) && all[1..] == pieces[1..];
    FreshIsExactFromStart(c.response, all);
  }
}

/** The classes of net/Http/HttpContext, HttpRequest.h and (in part) HttpResponse.h. */
module HttpContexts {
  import opened Octets
  import opened Buffers
  import opened HttpModel
  import opened HttpRoundTrip

  class HttpRequest {
    var verb: Method
    var path: string
    var query: string
    var version: Version
    var body: string
    var headers: map<string, string>

    function Value(): Request
      reads this
    {
      Request(verb, path, query, version, body, headers)
    }

    constructor ()
      ensures Value() == EMPTY_REQUEST
    {
      verb, path, query, version, body, headers := Invalid, "", "", Unknown, "", map[];
    }

    method SetHeader(key: string, value: string)
      modifies this`headers
      ensures Value() == old(Value()).(headers := old(headers)[key := value])
    {
      headers := headers[key := value];
    }

    method Reset()
      modifies this
      ensures Value() == EMPTY_REQUEST
    {
      verb, path, query, version, body, headers := Invalid, "", "", Unknown, "", map[];
    }
  }

  class HttpResponse {
    var status: nat
    var body: string
    var headers: map<string, string>
    var closeConnection: bool

    function Value(): Response
      reads this
    {
      Response(status, body, headers, closeConnection)
    }

    constructor ()
      ensures Value() == EMPTY_RESPONSE
    {
      status, body, headers, closeConnection := 0, "", map[], false;
    }
  }

  class HttpContext {
    var state: ParseState

    constructor ()
      ensures state == ExpectRequestLine
    {
      state := ExpectRequestLine;
    }

    method Reset()
      modifies this
      ensures state == ExpectRequestLine
    {
      state := ExpectRequestLine;
    }

    ghost function Configuration(buf: Buffer, request: HttpRequest, response: HttpResponse): Config
      requires buf.Valid()
      reads this, buf, buf.buff, request, response
    {
      Config(state, buf.Readable(), request.Value(), response.Value())
    }

    method ParseRequestLine(line: string, request: HttpRequest) returns (ok: bool)
      modifies request
      ensures (ok, request.Value()) == HttpModel.ParseRequestLine(line, old(request.Value()))
    {
      var space1 := Find(line, ' ');
      if space1.None? {
        return false;
      }
      var verb := StringToMethod(line[..space1.value]);
      if verb == Invalid {
        return false;
      }
      request.verb := verb;
      var space2 := RFind(line, ' ');
      if space2.None? || space2.value <= space1.value + 1 {
        return false;
      }
      var url := line[space1.value + 1..space2.value];
      var qmark := Find(url, '?');
      if qmark.Some? {
        request.path := url[..qmark.value];
        request.query := url[qmark.value + 1..];
      } else {
        request.path := url;
      }
      var versionStr := line[space2.value + 1..];
      if versionStr == "HTTP/1.1" {
        request.version := Http11;
      } else if versionStr == "HTTP/1.0" {
        request.version := Http10;
      } else {
        return false;
      }
      return true;
    }

    /** The next line of the buffer without its CRLF, which is consumed as well. */
    method TakeLine(buf: Buffer) returns (line: Option<string>)
      requires buf.Valid()
      modifies buf
      ensures buf.Valid() && buf.buff == old(buf.buff)
      ensures match FindCRLF(old(buf.Readable()))
              case None => line == None && buf.Readable() == old(buf.Readable())
              case Some(n) => line == Some(old(buf.Readable())[..n]) && buf.Readable() == old(buf.Readable())[n + 2..]
    {
      match FindCRLF(buf.Readable()) {
        case None =>
          line := None;
        case Some(lineLen) =>
          line := Some(buf.Readable()[..lineLen]);
          buf.Retrieve(lineLen + 2);
      }
    }

    /** The switch of parse: one turn, and whether the loop goes on (None) or ends with a verdict. */
    method TakeTurn(buf: Buffer, request: HttpRequest, response: HttpResponse) returns (end: Option<Verdict>)
      requires buf.Valid()
      modifies this, buf, request, response
      ensures buf.Valid() && buf.buff == old(buf.buff)
      ensures match Turns(old(Configuration(buf, request, response)))
              case Again(next) => end == None && Configuration(buf, request, response) == next
              case Leave(v, last) => end == Some(v) && Configuration(buf, request, response) == last
    {
      hide FindCRLF, Find, RFind, HttpModel.ParseRequestLine, Stoul;
      match state {
        case ExpectRequestLine =>
          var line := TakeLine(buf);
          if line.None? {
            return Some(False);
          }
          var ok := ParseRequestLine(line.value, request);
          if !ok {
            response.status := 400;
            response.body := "Bad Request\r\n";
            response.headers := response.headers["Content-Type" := "text/plain"];
            response.closeConnection := true;
            return Some(True);
          }
          state := ExpectHeaders;
        case ExpectHeaders =>
          var line := TakeLine(buf);
          if line.None? {
            return Some(False);
          }
          if line.value == "" {
            state := if request.verb == Post || request.verb == Put || request.verb == Patch then ExpectBody else GotAll;
          } else {
            ParseHeader(line.value, request);
          }
        case ExpectBody =>
          end := TakeBody(buf, request);
          return;
        case GotAll =>
          return Some(True);
      }
      return None;
    }

    method ParseHeader(line: string, request: HttpRequest)
      modifies request
      ensures request.Value() == HttpModel.ParseHeader(line, old(request.Value()))
    {
      var colon := Find(line, ':');
      if colon.Some? {
        var key := line[..colon.value];
        var value := TrimLeading(line[colon.value + 1..]);
        request.SetHeader(key, value);
      }
    }

    method TakeBody(buf: Buffer, request: HttpRequest) returns (end: Option<Verdict>)
      requires buf.Valid() && state == ExpectBody
      modifies this, buf, request
      ensures buf.Valid() && buf.buff == old(buf.buff)
      ensures forall resp :: match Turns(Config(old(state), old(buf.Readable()), old(request.Value()), resp))
              case Again(next) => end == None && Config(state, buf.Readable(), request.Value(), resp) == next
              case Leave(v, last) => end == Some(v) && Config(state, buf.Readable(), request.Value(), resp) == last
    {
      var contentLenStr := GetHeader(request.Value(), "Content-Length");
      if contentLenStr != "" {
        var contentLen := Stoul(contentLenStr);
        if !contentLen.Number? {
          return Some(Throws(contentLen));
        }
        if |buf.Readable()| < contentLen.value {
          return Some(False);
        }
        request.body := buf.Read(contentLen.value);
      }
      state := GotAll;
      return None;
    }

    /**
     One call consumes what is there and says whether the request is complete. Termination:
     every turn consumes bytes or moves to a later state.
     */
    method Parse(buf: Buffer, request: HttpRequest, response: HttpResponse) returns (v: Verdict)
      requires buf.Valid()
      modifies this, buf, request, response
      ensures buf.Valid() && buf.buff == old(buf.buff)
      ensures (v, Configuration(buf, request, response)) == HttpModel.Parse(old(Configuration(buf, request, response)))
    {
      var end: Option<Verdict> := None;
      while end.None?
        invariant buf.Valid() && buf.buff == old(buf.buff)
        invariant match end
                  case None => HttpModel.Parse(Configuration(buf, request, response)) == HttpModel.Parse(old(Configuration(buf, request, response)))
                  case Some(w) => (w, Configuration(buf, request, response)) == HttpModel.Parse(old(Configuration(buf, request, response)))
        decreases end.None?, |buf.Readable()|, StatesLeft(state)
      {
        ghost var c := Configuration(buf, request, response);
        TurnsProgress(c);
        hide Turns;
        end := TakeTurn(buf, request, response);
      }
      v := end.value;
    }

    /** One round: parse with a new request and response, then reset. */
    method ParseOne(buf: Buffer, ghost m: Message, ghost rest: string) returns (request: Request)
      requires buf.Valid() && state == ExpectRequestLine && WellFormed(m) && buf.Readable() == Print(m) + rest
      modifies this, buf
      ensures request == m.request
      ensures buf.Valid() && buf.buff == old(buf.buff) && buf.Readable() == rest && state == ExpectRequestLine
    {
      hide Print, HttpModel.Parse, WellFormed;
      var r := new HttpRequest();
      var response := new HttpResponse();
      RequestRoundTrip(m, rest, EMPTY_RESPONSE);
      var v := Parse(buf, r, response);
      request := r.Value();
      Reset();
    }

    /** Pipelined requests, printed into one buffer, come back one by one and leave the suffix. */
    method ParsePipelined(buf: Buffer, ghost ms: seq<Message>, count: nat, ghost suffix: string)
      returns (requests: seq<Request>)
      requires buf.Valid() && state == ExpectRequestLine && count == |ms|
      requires (forall m :: m in ms ==> WellFormed(m)) && buf.Readable() == PrintAll(ms) + suffix
      modifies this, buf
      ensures requests == RequestsOf(ms)
      ensures buf.Valid() && buf.Readable() == suffix && state == ExpectRequestLine
    {
      hide *;
      requests := [];
      assert ms[0..] == ms;
      for i := 0 to count
        invariant buf.Valid() && buf.buff == old(buf.buff) && state == ExpectRequestLine
        invariant buf.Readable() == PrintAll(ms[i..]) + suffix
        invariant requests == RequestsOf(ms)[..i]
      {
        assert ms[i] in ms;
        PrintFirst(ms, i, suffix);
        var request := ParseOne(buf, ms[i], PrintAll(ms[i + 1..]) + suffix);
        requests := requests + [request];
      }
      PrintNone(ms, suffix);
    }
  }
}

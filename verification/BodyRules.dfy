/**
 What the headers of a message say about its body, as it is written in them, and what http_has_body of
 cntlm-0.92.3/http.c makes of that.
 */
module BodyRules {
  import opened Decimals
  import opened Headers
  import opened HeaderText
  import opened Messages
  import opened Names
  import opened Options

  /** A number of bytes, chunks, everything until the connection ends, or no body. */
  datatype Framing = Counted(n: nat) | InChunks | ToTheEnd | Nothing

  predicate SaysChunked(headers: seq<Header>) {
    Mentions(headers, "Transfer-Encoding", "chunked")
  }

  /** A number is written in decimal digits. */
  predicate SaysLength(headers: seq<Header>, n: nat) {
    Get(headers, "Content-Length") == Some(Digits(n))
  }

  ghost predicate Says(headers: seq<Header>, f: Framing) {
    match f
    case Counted(n) => SaysLength(headers, n) && !SaysChunked(headers)
    case InChunks =>
      && SaysChunked(headers)
      && (!Has(headers, "Content-Length") || exists n :: n > 0 && SaysLength(headers, n))
    case ToTheEnd =>
      && !Has(headers, "Content-Length") && !SaysChunked(headers)
      && (Has(headers, "Content-Type") || Has(headers, "Transfer-Encoding") || Mentions(headers, "Connection", "close"))
    case Nothing =>
      && !Has(headers, "Content-Length") && !Has(headers, "Content-Type") && !Has(headers, "Transfer-Encoding")
      && !Mentions(headers, "Connection", "close")
  }

  /** Replies to which no body belongs, whatever their headers say. */
  predicate IsBodiless(code: int) {
    code / 100 == 1 || code == 204 || code == 304
  }

  predicate Asks(m: Message, verb: string) {
    m.req && SameLetters(verb, m.verb)
  }

  lemma VerbWhen(m: Message)
    ensures IsHead(m) <==> Asks(m, "HEAD")
    ensures IsGet(m) <==> Asks(m, "GET")
    ensures IsConnect(m) <==> Asks(m, "CONNECT")
  {
    SameNameWhen("HEAD", m.verb);
    SameNameWhen("GET", m.verb);
    SameNameWhen("CONNECT", m.verb);
  }

  lemma BodilessWhen(code: int)
    ensures NoBodyCode(code) <==> IsBodiless(code)
  {
  }

  /** A length that is written is the length; chunks, the end of the connection and nothing have their signs. */
  lemma AnnouncedIs(headers: seq<Header>, f: Framing)
    requires Says(headers, f)
    ensures match f
            case Counted(n) => Announced(headers) == n
            case InChunks => Announced(headers) > 0
            case ToTheEnd => Announced(headers) == -1
            case Nothing => Announced(headers) == 0
  {
    hide Atoll, Digits, Occurs, Find;
    match f {
      case Counted(n) => DecimalIsRead(n);
      case InChunks =>
        if Has(headers, "Content-Length") {
          var n :| n > 0 && SaysLength(headers, n);
          DecimalIsRead(n);
        }
      case _ =>
    }
  }

  /** http_has_body of a reply, from its code, its headers and the request. */
  lemma ReplyBodyIs(request: Option<Message>, reply: Message, f: Framing)
    requires Says(reply.headers, f)
    ensures var n := ReplyBody(request, reply);
            if (request.Some? && Asks(request.value, "HEAD")) || IsBodiless(reply.code) then n == 0
            else
              match f
              case Counted(k) => n == k
              case InChunks => n > 0
              case ToTheEnd => n == -1
              case Nothing => n == 0
  {
    hide Says, Announced, HasVerb;
    if request.Some? {
      VerbWhen(request.value);
    }
    BodilessWhen(reply.code);
    AnnouncedIs(reply.headers, f);
  }

  /** The same for a request, which never goes on until the connection ends. */
  lemma RequestBodyIs(m: Message, f: Framing)
    requires Says(m.headers, f)
    ensures var n := RequestBody(m);
            if Asks(m, "GET") || Asks(m, "HEAD") then n == 0
            else
              match f
              case Counted(k) => n == k
              case InChunks => n > 0
              case _ => n == 0
  {
    hide Says, Announced, HasVerb;
    VerbWhen(m);
    AnnouncedIs(m.headers, f);
  }

  /** A Content-Length of 0 hides chunks, although these should count. */
  lemma ZeroHidesChunks(request: Option<Message>, reply: Message)
    requires SaysLength(reply.headers, 0) && SaysChunked(reply.headers)
    ensures ReplyBody(request, reply) == 0
  {
    hide Atoll, Digits, Occurs, Find;
    DecimalIsRead(0);
  }
}

/** Requests and replies (rr_data_t), and how cntlm-0.92.3/http.c decides how much body belongs to them. */
module Messages {
  import opened Headers
  import opened Options

  /** A record that has been filled in; an empty or absent one is None where it may occur. */
  datatype Message = Message(req: bool, verb: string, url: string, http: string, hostname: Option<string>,
                             port: int, code: int, msg: string, skipHttp: bool, headers: seq<Header>)

  predicate HasVerb(m: Message, name: string) {
    m.req && SameName(name, m.verb)
  }

  predicate IsHead(m: Message) { HasVerb(m, "HEAD") }
  predicate IsGet(m: Message) { HasVerb(m, "GET") }
  predicate IsConnect(m: Message) { HasVerb(m, "CONNECT") }

  // ---------- numbers in headers ----------

  predicate IsSpace(c: char) {
    c == ' ' || c == '\t' || c == '\n' || c == '\r' || c as int == 11 || c as int == 12
  }

  predicate IsDigit(c: char) {
    '0' <= c <= '9'
  }

  function DigitsFrom(s: string, sum: nat): nat
    decreases |s|
  {
    if s == [] || !IsDigit(s[0]) then sum else DigitsFrom(s[1..], 10 * sum + (s[0] as int - '0' as int))
  }

  /** atoll, as long as the number fits. */
  function Atoll(s: string): int
    decreases |s|
  {
    if s == [] then 0
    else if IsSpace(s[0]) then Atoll(s[1..])
    else if s[0] == '-' then 0 - DigitsFrom(s[1..], 0)
    else if s[0] == '+' then DigitsFrom(s[1..], 0)
    else DigitsFrom(s, 0)
  }

  // ---------- http_has_body ----------

  /** Replies that never have a body. */
  predicate NoBodyCode(code: int) {
    100 <= code < 200 || code == 204 || code == 304
  }

  /** The length the headers announce: a number, 1 for chunks, -1 for everything until the connection ends. */
  function Announced(headers: seq<Header>): int {
    match Get(headers, "Content-Length")
    case Some(length) => Atoll(length)
    case None =>
      if Has(headers, "Content-Type") || Has(headers, "Transfer-Encoding")
          || Mentions(headers, "Connection", "close") then
        if Has(headers, "Transfer-Encoding") && Mentions(headers, "Transfer-Encoding", "chunked") then 1 else -1
      else 0
  }

  /** http_has_body of a request on its own: no body means 0, and there is no body until the end of the connection. */
  function RequestBody(request: Message): int {
    var n := if IsGet(request) || IsHead(request) then 0 else Announced(request.headers);
    if n == -1 then 0 else n
  }

  /** http_has_body of a reply; the request it answers may not be known. */
  function ReplyBody(request: Option<Message>, reply: Message): int {
    if (request.Some? && IsHead(request.value)) || NoBodyCode(reply.code) then 0 else Announced(reply.headers)
  }

  /**
   The reply to a probe is marked as a 407 before its body is dropped. As many bytes are dropped as belong to the reply
   exactly unless it is one of those that have no body although their headers announce one.
   */
  lemma DropsTheBodyUnless(probe: Message, reply: Message)
    requires !IsHead(probe)
    ensures ReplyBody(None, reply.(code := 407)) == ReplyBody(Some(probe), reply)
            <==> !NoBodyCode(reply.code) || Announced(reply.headers) == 0
  {
    hide Announced;
    assert reply.(code := 407).headers == reply.headers;
  }
}

/** One connection of the HTTP front end, from the client's bytes to the bytes the next hop receives. */
module Serving {
  import opened Options
  import opened Text
  import opened Framing
  import opened Requests

  /**
   What the next hop receives of a request whose head ends at `end`: a tunnel's bytes, or the rebuilt head and the
   body.
   */
  function Forwarded(input: string, end: nat, request: Request): string
    requires end <= |input| && ParseHead(input[..end]) == Some(request)
  {
    var body := BodyBytes(input, end, request.how, request.body);
    if request.how == Connect then body
    else
      ParsedIsRebuilt(input[..end], request);
      Rebuilt(input[..end], request.host, request.port).value + body
  }

  lemma ParsedIsRebuilt(head: string, request: Request)
    requires ParseHead(head) == Some(request)
    ensures Rebuilt(head, request.host, request.port).Some?
  {
  }

  /** Where the client's first head ends, absent when none ends within the limit. */
  function HeadEndOf(input: string): (end: Option<nat>)
    ensures end.Some? <==> Find(input, BLANK).Some? && Find(input, BLANK).value + 4 <= 8192
    ensures end.Some? ==> end.value == Find(input, BLANK).value + 4 <= |input|
  {
    match Find(input, BLANK)
    case None => None
    case Some(i) => if i + 4 <= HEAD_LIMIT then Some(i + 4) else None
  }

  /** The request a connection carries and what is sent on of it, absent when it is not answered as one. */
  function Served(input: string): Option<(Request, string)> {
    match HeadEndOf(input)
    case None => None
    case Some(end) =>
      match ParseHead(input[..end])
      case None => None
      case Some(request) => Some((request, Forwarded(input, end, request)))
  }

  /** The head the next hop is sent: none for a tunnel, the rebuilt one for any other request. */
  method Rebuild(head: string, request: Request) returns (rebuilt: Option<string>)
    requires ParseHead(head) == Some(request)
    ensures rebuilt
            == if request.how == Connect then Some("") else Rebuilt(head, request.host, request.port)
    ensures rebuilt.Some?
  {
    ParsedIsRebuilt(head, request);
    if request.how == Connect {
      return Some("");
    }
    rebuilt := Rewritten(head, request.host, request.port);
  }

  /** Serves one connection, whatever the sizes of the reads that bring its bytes. */
  method Serve(client: Client) returns (served: Option<(Request, string)>)
    requires client.pos == 0
    modifies client
    ensures served == Served(client.input)
  {
    var buffer := new char[HEAD_LIMIT];
    var found := ReadHead(client, buffer);
    if found.None? {
      assert HeadEndOf(client.input).None?;
      return None;
    }
    var head := buffer[..found.value.end];
    assert head == buffer[..found.value.read][..found.value.end] == client.input[..found.value.end];
    served := ServeHead(client, buffer, found.value, head);
  }

  method ServeHead(client: Client, buffer: array<char>, found: Head, head: string)
    returns (served: Option<(Request, string)>)
    requires found.end <= found.read == client.pos <= |client.input| && found.read <= buffer.Length
    requires buffer[..found.read] == client.input[..found.read]
    requires HeadEndOf(client.input) == Some(found.end) && head == client.input[..found.end]
    modifies client
    ensures served == Served(client.input)
  {
    var request := ParseHead(head);
    if request.None? {
      return None;
    }
    var rebuilt := Rebuild(head, request.value);
    if rebuilt.None? {
      return None;
    }
    var sent := SendBody(client, buffer, found, request.value.how, request.value.body);
    ServedIs(client.input, found.end, head, request.value, rebuilt.value, sent);
    served := Some((request.value, rebuilt.value + sent));
  }

  lemma ServedIs(input: string, end: nat, head: string, request: Request, rebuilt: string, sent: string)
    requires HeadEndOf(input) == Some(end) && head == input[..end] && ParseHead(head) == Some(request)
    requires Some(rebuilt)
             == if request.how == Connect then Some("") else Rebuilt(head, request.host, request.port)
    requires sent == BodyBytes(input, end, request.how, request.body)
    ensures Served(input) == Some((request, rebuilt + sent))
  {
    if request.how == Connect {
      assert "" + sent == sent;
    }
  }

  /** What the client declared of its body. */
  predicate Declares(headers: string, length: nat) {
    Header(headers, "transfer-encoding").None? && Header(headers, "content-length") == Some(Decimal(length))
  }

  /**
   A request that declares a length in decimal has exactly that many bytes sent on behind its rebuilt head, or all that
   arrive before the client closes.
   */
  lemma DeclaredLengthIsSent(
    input: string, end: nat, head: string, line: string, headers: string, request: Request, length: nat)
    requires HeadEndOf(input) == Some(end) && head == input[..end]
    requires ParseHead(head) == Some(request) && request.how == Absolute
    requires SplitOnce(head, CRLF) == Some((line, headers)) && Declares(headers, length) && length <= MAX_USIZE
    ensures Rebuilt(head, request.host, request.port).Some?
    ensures Served(input)
            == Some((request, Rebuilt(head, request.host, request.port).value
                              + input[end..if end + length < |input| then end + length else |input|]))
  {
    ParsedIsRebuilt(head, request);
    BodyIsRead(head, request);
    DeclaredBody(headers, length);
    SizedBytes(input, end, length);
    var rebuilt := Rebuilt(head, request.host, request.port).value;
    ServedIs(input, end, head, request, rebuilt, BodyBytes(input, end, Absolute, Sized(length)));
  }

  lemma SizedBytes(input: string, end: nat, length: nat)
    requires end <= |input|
    ensures BodyBytes(input, end, Absolute, Sized(length))
            == input[end..if end + length < |input| then end + length else |input|]
  {
  }

  lemma BodyIsRead(head: string, request: Request)
    requires ParseHead(head) == Some(request) && request.how == Absolute && SplitOnce(head, CRLF).Some?
    ensures request.body == BodyOf(SplitOnce(head, CRLF).value.1)
  {
  }

  lemma DeclaredBody(headers: string, length: nat)
    requires Declares(headers, length) && length <= MAX_USIZE
    ensures BodyOf(headers) == Sized(length)
  {
    DecimalParses(length);
  }

  lemma DecimalParses(n: nat)
    requires n <= MAX_USIZE
    ensures ParseUpTo(Decimal(n), MAX_USIZE) == Some(n)
  {
    DecimalReadsBack(n);
  }
}

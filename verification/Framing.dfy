/**
 Where a request head ends and which bytes of its body are sent on, whatever the sizes of the reads that bring them.
 */
module Framing {
  import opened Options
  import opened Text

  const HEAD_LIMIT: nat := 8192
  const BLANK: string := "\r\n\r\n"

  datatype Method = Connect | Absolute

  datatype Body = Sized(len: nat) | Streamed

  /** How much of the body the client has still to send. */
  datatype Rest = Bytes(count: nat) | Unending

  datatype Head = Head(end: nat, read: nat)

  /** Everything one client will ever send, and how far it has been read. */
  class Client {
    const input: string
    var pos: nat

    constructor (input: string)
      ensures this.input == input && pos == 0
    {
      this.input, pos := input, 0;
    }

    /** One read: at least one byte and at most `space`, or none once the client has closed. */
    method Read(space: nat) returns (chunk: string)
      requires pos <= |input| && space > 0
      modifies this
      ensures old(pos) <= pos <= |input| && |chunk| <= space
      ensures chunk == input[old(pos)..pos] && (chunk == "" <==> old(pos) == |input|)
    {
      if pos == |input| {
        return "";
      }
      var taken: nat :| 0 < taken <= space && pos + taken <= |input| by {
        assert 0 < 1 <= space && pos + 1 <= |input|;
      }
      chunk := input[pos..pos + taken];
      pos := pos + taken;
    }
  }

  method HeadEnd(buffer: string) returns (end: Option<nat>)
    ensures end == match Find(buffer, BLANK) case Some(i) => Some(i + 4) case None => None
  {
    if |buffer| < 4 {
      return None;
    }
    for index := 0 to |buffer| - 3
      invariant forall j: nat :: j < index ==> !OccursAt(buffer, BLANK, j)
    {
      if buffer[index..index + 4] == BLANK {
        FirstIsFind(buffer, BLANK, index);
        return Some(index + 4);
      }
    }
    return None;
  }

  /** What is found in a prefix is what is found in the whole. */
  lemma FindInPrefix(s: string, sep: string, n: nat)
    requires n <= |s|
    ensures Find(s[..n], sep).Some? <==> Find(s, sep).Some? && Find(s, sep).value + |sep| <= n
    ensures Find(s[..n], sep).Some? ==> Find(s[..n], sep) == Find(s, sep)
  {
    forall j: nat ensures OccursAt(s[..n], sep, j) <==> OccursAt(s, sep, j) && j + |sep| <= n {
      if j + |sep| <= n {
        assert s[..n][j..j + |sep|] == s[j..j + |sep|];
      }
    }
    var inPrefix, inWhole := Find(s[..n], sep), Find(s, sep);
    if inPrefix.Some? {
      FirstIsFind(s, sep, inPrefix.value);
    }
  }

  /** Reads until the head is complete, the buffer is full or the client closes. */
  method ReadHead(client: Client, buffer: array<char>) returns (head: Option<Head>)
    requires client.pos == 0 && buffer.Length == HEAD_LIMIT
    modifies client, buffer
    ensures client.pos <= |client.input|
    ensures var blank := Find(client.input, BLANK);
            && (head.Some? <==> blank.Some? && blank.value + 4 <= 8192)
            && (head.Some? ==>
                  && head.value.end == blank.value + 4 <= head.value.read == client.pos <= HEAD_LIMIT
                  && buffer[..head.value.read] == client.input[..head.value.read])
  {
    var read := 0;
    while true
      invariant read == client.pos <= |client.input| && read <= HEAD_LIMIT
      invariant buffer[..read] == client.input[..read]
      invariant Find(client.input[..read], BLANK).None?
      decreases HEAD_LIMIT - read
    {
      if read == buffer.Length {
        FindInPrefix(client.input, BLANK, read);
        return None;
      }
      var chunk := client.Read(buffer.Length - read);
      if chunk == "" {
        assert client.input[..read] == client.input;
        return None;
      }
      ghost var before := buffer[..read];
      forall i | 0 <= i < |chunk| {
        buffer[read + i] := chunk[i];
      }
      assert buffer[..read + |chunk|] == before + chunk;
      assert client.input[..client.pos] == client.input[..read] + chunk;
      read := read + |chunk|;
      var end := HeadEnd(buffer[..read]);
      if end.None? {
        continue;
      }
      FindInPrefix(client.input, BLANK, read);
      return Some(Head(end.value, read));
    }
  }

  function BehindTheHead(rest: string, how: Method, body: Body): string {
    match (how, body)
    case (Connect, _) => rest
    case (Absolute, Streamed) => rest
    case (Absolute, Sized(len)) => rest[..if len < |rest| then len else |rest|]
  }

  function RestOfBody(how: Method, body: Body, behind: string): Rest {
    match (how, body)
    case (Connect, _) => Unending
    case (Absolute, Streamed) => Unending
    case (Absolute, Sized(len)) => Bytes(if len < |behind| then 0 else len - |behind|)
  }

  /** Copies what is left of the body, never reading past it. */
  method CopyRest(client: Client, rest: Rest) returns (sent: string)
    requires client.pos <= |client.input|
    modifies client
    ensures old(client.pos) <= client.pos <= |client.input|
    ensures sent == client.input[old(client.pos)..client.pos]
    ensures rest == Unending ==> client.pos == |client.input|
    ensures rest.Bytes? ==>
              client.pos == if old(client.pos) + rest.count <= |client.input| then old(client.pos) + rest.count
                            else |client.input|
  {
    sent := "";
    ghost var start := client.pos;
    while rest == Unending || |sent| < rest.count
      invariant start <= client.pos <= |client.input|
      invariant sent == client.input[start..client.pos]
      invariant rest.Bytes? ==> |sent| <= rest.count
      decreases |client.input| - client.pos
    {
      var chunk := client.Read(if rest == Unending then HEAD_LIMIT else rest.count - |sent|);
      if chunk == "" {
        break;
      }
      sent := sent + chunk;
    }
  }

  /** The bytes of the request's body: all of a streamed one, a sized one up to its length or the client's last byte. */
  function BodyBytes(input: string, end: nat, how: Method, body: Body): string
    requires end <= |input|
  {
    if how == Absolute && body.Sized? && body.len < |input| - end then input[end..end + body.len] else input[end..]
  }

  /** The body is what came along with the head and what is copied after it. */
  lemma BodyInTwo(input: string, end: nat, read: nat, pos: nat, how: Method, body: Body)
    requires end <= read <= pos <= |input|
    requires var rest := RestOfBody(how, body, BehindTheHead(input[end..read], how, body));
             pos == if rest.Bytes? && read + rest.count <= |input| then read + rest.count else |input|
    ensures BehindTheHead(input[end..read], how, body) + input[read..pos] == BodyBytes(input, end, how, body)
  {
  }

  /**
   Sends on what belongs to the request behind its head: what came along with the head first, then what is still to
   come - exactly the bytes of the body, never one of a request pipelined behind it.
   */
  method SendBody(client: Client, buffer: array<char>, head: Head, how: Method, body: Body) returns (sent: string)
    requires head.end <= head.read == client.pos <= |client.input| && head.read <= buffer.Length
    requires buffer[..head.read] == client.input[..head.read]
    modifies client
    ensures sent == BodyBytes(client.input, head.end, how, body)
  {
    var Head(end, read) := head;
    var behind := BehindTheHead(buffer[end..read], how, body);
    assert buffer[end..read] == buffer[..read][end..] == client.input[end..read];
    var copied := CopyRest(client, RestOfBody(how, body, behind));
    BodyInTwo(client.input, end, read, client.pos, how, body);
    sent := behind + copied;
  }
}

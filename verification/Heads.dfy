/** What a request head says and what it is rebuilt as, in the words of its text. */
module Heads {
  import opened Options
  import opened Text
  import opened Framing
  import opened Requests
  import opened Rewriting
  import opened Serving

  // ---------- cutting text ----------

  lemma CutOnce(s: string, c: char, a: string, b: string)
    ensures SplitOnce(s, [c]) == Some((a, b)) <==> s == a + [c] + b && c !in a
  {
    if s == a + [c] + b && c !in a {
      FindBefore(a, c, b);
      WholeFind(a, c);
      assert s[..|a|] == a && s[|a| + 1..] == b;
    }
    match Find(s, [c])
    case None =>
    case Some(i) =>
      OccursOne(s, c, i);
      assert s == s[..i] + [c] + s[i + 1..];
      forall j | 0 <= j < i ensures s[j] != c {
        OccursOne(s, c, j);
      }
  }

  lemma NoCut(s: string, c: char)
    ensures SplitOnce(s, [c]).None? <==> c !in s
  {
    if c in s {
      var j :| 0 <= j < |s| && s[j] == c;
      OccursOne(s, c, j);
    } else {
      WholeFind(s, c);
    }
  }

  // ---------- authorities ----------

  /** The port a text ends in: the number behind its colon. */
  predicate PortIs(text: string, port: nat) {
    ParseUpTo(text, 65535) == Some(port)
  }

  /** `text` is host `host`, in brackets, with port `port` behind a colon or else by default. */
  ghost predicate BracketedIs(text: string, fallback: Option<nat>, host: string, port: nat) {
    exists rest: string ::
      && text == "[" + host + "]" + rest && ']' !in host
      && (if rest != "" && rest[0] == ':' then PortIs(rest[1..], port) else fallback == Some(port))
  }

  /** `text` is host `host`, bare, with port `port` behind its last colon or else by default. */
  ghost predicate BareIs(text: string, fallback: Option<nat>, host: string, port: nat) {
    && (text == "" || text[0] != '[')
    && (if ':' !in text then text == host && fallback == Some(port)
        else exists digits: string :: text == host + ":" + digits && ':' !in digits && PortIs(digits, port))
  }

  lemma StartsWithChar(s: string, c: char)
    ensures StartsWith(s, [c]) <==> s != "" && s[0] == c
  {
    if s != "" {
      assert s[..1] == [s[0]];
    }
  }

  /** The authority "[" + host + "]" + rest, taken apart. */
  lemma BracketedFalls(text: string, fallback: Option<nat>, host: string, rest: string)
    requires text == "[" + host + "]" + rest && ']' !in host
    ensures SplitAuthority(text, fallback)
            == if rest != "" && rest[0] == ':' then NamedAt(host, rest[1..]) else NamedBy(host, fallback)
  {
    assert text[1..] == host + "]" + rest;
    CutOnce(text[1..], ']', host, rest);
    StartsWithChar(text, '[');
    StartsWithChar(rest, ':');
  }

  lemma BracketedParts(text: string, fallback: Option<nat>) returns (host: string, rest: string)
    requires text != "" && text[0] == '[' && SplitAuthority(text, fallback).Some?
    ensures text == "[" + host + "]" + rest && ']' !in host
  {
    StartsWithChar(text, '[');
    var cut := SplitOnce(text[1..], "]");
    host, rest := cut.value.0, cut.value.1;
    CutOnce(text[1..], ']', host, rest);
    assert text == "[" + text[1..];
  }

  lemma BracketedExactly(text: string, fallback: Option<nat>, host: string, port: nat)
    requires text != "" && text[0] == '['
    ensures SplitAuthority(text, fallback) == Some((host, port))
            <==> host != "" && BracketedIs(text, fallback, host, port)
  {
    if BracketedIs(text, fallback, host, port) {
      var rest: string :| text == "[" + host + "]" + rest && ']' !in host
        && (if rest != "" && rest[0] == ':' then PortIs(rest[1..], port) else fallback == Some(port));
      BracketedFalls(text, fallback, host, rest);
    }
    if SplitAuthority(text, fallback) == Some((host, port)) {
      var a, rest := BracketedParts(text, fallback);
      BracketedFalls(text, fallback, a, rest);
      assert a == host;
    }
  }

  lemma BareFalls(text: string, fallback: Option<nat>, host: string, digits: string)
    requires text == host + ":" + digits && ':' !in digits && !StartsWith(text, "[")
    ensures SplitAuthority(text, fallback) == NamedAt(host, digits)
  {
    LastColon(host, digits);
    assert text[..|host|] == host && text[|host| + 1..] == digits;
  }

  lemma BareExactly(text: string, fallback: Option<nat>, host: string, port: nat)
    requires text == "" || text[0] != '['
    ensures SplitAuthority(text, fallback) == Some((host, port)) <==> host != "" && BareIs(text, fallback, host, port)
  {
    StartsWithChar(text, '[');
    match FindLast(text, ':')
    case None => assert ':' !in text;
    case Some(i) =>
      var before, after := text[..i], text[i + 1..];
      assert text[i] == ':' && text == before + ":" + after;
      BareFalls(text, fallback, before, after);
      if digits: string :| text == host + ":" + digits && ':' !in digits && PortIs(digits, port) {
        BareFalls(text, fallback, host, digits);
      }
  }

  /** Which host and port an authority names, in either form; a host is never empty. */
  lemma AuthorityExactly(text: string, fallback: Option<nat>, host: string, port: nat)
    ensures SplitAuthority(text, fallback) == Some((host, port))
            <==> host != "" && (BracketedIs(text, fallback, host, port) || BareIs(text, fallback, host, port))
  {
    if text != "" && text[0] == '[' {
      BracketedExactly(text, fallback, host, port);
    } else {
      BareExactly(text, fallback, host, port);
    }
  }

  // ---------- fields ----------

  /** The line is a field: `name`, which holds no colon, a colon, and `value`. */
  predicate IsField(line: string, name: string, value: string) {
    line == name + ":" + value && ':' !in name
  }

  /** The line is a field labelled `tag`, in any case and with any space around, saying `value`. */
  ghost predicate Says(line: string, tag: string, value: string) {
    exists name: string, rest: string ::
      IsField(line, name, rest) && Lower(Trim(name)) == tag && Trim(rest) == value
  }

  lemma LineSays(line: string, tag: string, value: string)
    ensures Says(line, tag, value) <==> Label(line) == Some(tag) && FieldValue(line) == value
  {
    if Says(line, tag, value) {
      var name: string, rest: string :| IsField(line, name, rest) && Lower(Trim(name)) == tag && Trim(rest) == value;
      CutOnce(line, ':', name, rest);
    }
    if Label(line) == Some(tag) && FieldValue(line) == value {
      var (name, rest) := SplitOnce(line, ":").value;
      CutOnce(line, ':', name, rest);
      assert IsField(line, name, rest);
    }
  }

  /** Line `k` is the first field labelled `tag`, and says `value`. */
  ghost predicate FirstSays(lines: seq<string>, tag: string, value: string, k: nat) {
    k < |lines| && Says(lines[k], tag, value)
    && forall j: nat, other :: j < k ==> !Says(lines[j], tag, other)
  }

  /** A field has the value its first line gives it. */
  lemma {:induction false} FirstValueExactly(lines: seq<string>, tag: string, value: string)
    ensures FirstValue(lines, tag) == Some(value) <==> exists k: nat :: FirstSays(lines, tag, value, k)
  {
    if lines != [] {
      var rest := lines[1..];
      FirstValueExactly(rest, tag, value);
      LineSays(lines[0], tag, FieldValue(lines[0]));
      if Label(lines[0]) == Some(tag) {
        LineSays(lines[0], tag, value);
        if FieldValue(lines[0]) == value {
          assert FirstSays(lines, tag, value, 0);
        }
        forall k: nat | FirstSays(lines, tag, value, k) ensures k == 0 {
          assert Says(lines[0], tag, FieldValue(lines[0]));
        }
      } else {
        SaysNothing(lines[0], tag);
        FirstSaysLater(lines, tag, value);
      }
    }
  }

  lemma SaysNothing(line: string, tag: string)
    requires Label(line) != Some(tag)
    ensures forall value :: !Says(line, tag, value)
  {
    forall value ensures !Says(line, tag, value) {
      LineSays(line, tag, value);
    }
  }

  lemma FirstSaysLater(lines: seq<string>, tag: string, value: string)
    requires lines != [] && forall other :: !Says(lines[0], tag, other)
    ensures (exists k: nat :: FirstSays(lines, tag, value, k))
            <==> exists k: nat :: FirstSays(lines[1..], tag, value, k)
  {
    if k: nat :| FirstSays(lines, tag, value, k) {
      assert k > 0;
      forall j: nat, other | j < k - 1 ensures !Says(lines[1..][j], tag, other) {
        assert lines[1..][j] == lines[j + 1];
      }
      assert FirstSays(lines[1..], tag, value, k - 1);
    }
    if k: nat :| FirstSays(lines[1..], tag, value, k) {
      forall j: nat, other | j < k + 1 ensures !Says(lines[j], tag, other) {
        if j > 0 {
          assert lines[1..][j - 1] == lines[j];
        }
      }
      assert FirstSays(lines, tag, value, k + 1);
    }
  }

  /** Some line is a field labelled `tag`. */
  ghost predicate Mentions(lines: seq<string>, tag: string) {
    exists k: nat, value: string :: k < |lines| && Says(lines[k], tag, value)
  }

  lemma {:induction false} MentionsExactly(lines: seq<string>, tag: string)
    ensures FirstValue(lines, tag).Some? <==> Mentions(lines, tag)
  {
    if FirstValue(lines, tag).Some? {
      var value := FirstValue(lines, tag).value;
      FirstValueExactly(lines, tag, value);
      var k: nat :| FirstSays(lines, tag, value, k);
      assert Says(lines[k], tag, value);
    }
    if Mentions(lines, tag) && lines != [] {
      var k: nat, value: string :| k < |lines| && Says(lines[k], tag, value);
      LineSays(lines[k], tag, value);
      if Label(lines[0]) != Some(tag) {
        assert k > 0 && lines[1..][k - 1] == lines[k];
        assert Mentions(lines[1..], tag);
        MentionsExactly(lines[1..], tag);
      }
    }
  }

  /**
   How long the body is: until the client stops when any field is labelled `transfer-encoding`; else what the first
   `content-length` says, when it is a number; else nothing.
   */
  lemma BodyExactly(headers: string, body: Body)
    ensures var lines := Split(headers, CRLF);
            && (Mentions(lines, "transfer-encoding") ==> BodyOf(headers) == Streamed)
            && (!Mentions(lines, "transfer-encoding") ==>
                  && (forall text, k: nat :: FirstSays(lines, "content-length", text, k) ==>
                        BodyOf(headers)
                        == Sized(match ParseUpTo(text, MAX_USIZE) case Some(len) => len case None => 0))
                  && (!Mentions(lines, "content-length") ==> BodyOf(headers) == Sized(0)))
  {
    var lines := Split(headers, CRLF);
    MentionsExactly(lines, "transfer-encoding");
    MentionsExactly(lines, "content-length");
    forall text, k: nat | FirstSays(lines, "content-length", text, k)
      ensures FirstValue(lines, "content-length") == Some(text)
    {
      FirstValueExactly(lines, "content-length", text);
    }
  }

  // ---------- which fields reach the origin ----------

  /** The labels of fields that do not reach the origin. */
  ghost predicate OneHopOnly(tag: string) {
    || tag == "host" || tag == "connection" || tag == "proxy-connection" || tag == "keep-alive"
    || tag == "proxy-authenticate" || tag == "proxy-authorization" || tag == "te" || tag == "trailer"
    || tag == "upgrade"
  }

  /** A line is kept exactly when it is a field whose label is not one of those. */
  lemma KeepsExactly(line: string)
    ensures Keeps(line)
            <==> exists name: string, rest: string :: IsField(line, name, rest) && !OneHopOnly(Lower(Trim(name)))
  {
    if name: string, rest: string :| IsField(line, name, rest) && !OneHopOnly(Lower(Trim(name))) {
      CutOnce(line, ':', name, rest);
      DroppedExactly(Lower(Trim(name)));
    }
    if Keeps(line) {
      var (name, rest) := SplitOnce(line, ":").value;
      CutOnce(line, ':', name, rest);
      DroppedExactly(Lower(Trim(name)));
      assert IsField(line, name, rest);
    }
  }

  lemma DroppedExactly(tag: string)
    ensures Dropped(tag) <==> OneHopOnly(tag)
  {
  }

  /** The kept lines are the lines, those not kept left out: as many of each as there were, and in their order. */
  lemma {:induction false} KeptCounts(lines: seq<string>, line: string)
    ensures multiset(Kept(lines))[line] == if Keeps(line) then multiset(lines)[line] else 0
  {
    if lines != [] {
      KeptCounts(lines[1..], line);
      assert lines == [lines[0]] + lines[1..];
      var first := if Keeps(lines[0]) then [lines[0]] else [];
      assert multiset(Kept(lines)) == multiset(first) + multiset(Kept(lines[1..]));
    }
  }

  // ---------- request lines ----------

  lemma LineFalls(name: string, target: string, version: string, headers: string)
    requires ' ' !in name && ' ' !in target && ' ' !in version && NoBreak(name + " " + target + " " + version)
    ensures var line := name + " " + target + " " + version;
            && SplitOnce(line + CRLF + headers, CRLF) == Some((line, headers))
            && Split(line, " ") == [name, target, version]
  {
    BreakAfter(name + " " + target + " " + version, headers);
    ThreeFields(name, target, version);
  }

  /** The target names the authority itself: scheme, authority, and a path, possibly empty. */
  predicate AbsoluteForm(target: string, authority: string, path: string) {
    target == "http://" + authority + path && '/' !in authority && (path == "" || path[0] == '/')
  }

  lemma AbsoluteFalls(target: string, authority: string, path: string)
    requires AbsoluteForm(target, authority, path)
    ensures StartsWith(target, SCHEME)
    ensures AbsoluteAuthority(target) == Some(authority)
    ensures OriginForm(target) == if path == "" then "/" else path
  {
    var rest := authority + path;
    assert target[..|SCHEME|] == SCHEME && target[|SCHEME|..] == rest;
    if path == "" {
      assert rest == authority;
      WholeFind(rest, '/');
    } else {
      assert rest == authority + "/" + path[1..];
      CutOnce(rest, '/', authority, path[1..]);
      FindBefore(authority, '/', path[1..]);
      WholeFind(authority, '/');
      assert rest[|authority|..] == path;
    }
  }

  /** The host and port a request is for: by its target when that names an authority, else by its first `Host` field. */
  ghost predicate IsFor(target: string, headers: string, host: string, port: nat) {
    if StartsWith(target, "http://") then
      exists authority: string, path: string ::
        AbsoluteForm(target, authority, path) && SplitAuthority(authority, Some(80)) == Some((host, port))
    else
      exists text: string, k: nat ::
        FirstSays(Split(headers, CRLF), "host", text, k) && SplitAuthority(text, Some(80)) == Some((host, port))
  }

  lemma AbsoluteParts(target: string) returns (authority: string, path: string)
    requires StartsWith(target, "http://")
    ensures AbsoluteForm(target, authority, path)
  {
    var rest := target[|SCHEME|..];
    assert target == SCHEME + rest;
    match Find(rest, "/")
    case None =>
      authority, path := rest, "";
      NoCut(rest, '/');
    case Some(i) =>
      authority, path := rest[..i], rest[i..];
      OccursOne(rest, '/', i);
      forall j | 0 <= j < i ensures rest[j] != '/' {
        OccursOne(rest, '/', j);
      }
      assert target == SCHEME + authority + path;
  }

  lemma IsForExactly(target: string, headers: string, host: string, port: nat)
    ensures IsFor(target, headers, host, port)
            <==> AuthorityOf(target, headers).Some?
                 && SplitAuthority(AuthorityOf(target, headers).value, Some(DEFAULT_PORT)) == Some((host, port))
  {
    if StartsWith(target, "http://") {
      var authority, path := AbsoluteParts(target);
      AbsoluteFalls(target, authority, path);
      forall a: string, p: string | AbsoluteForm(target, a, p) ensures a == authority {
        AbsoluteFalls(target, a, p);
      }
    } else {
      var lines := Split(headers, CRLF);
      if IsFor(target, headers, host, port) {
        var text: string, k: nat :|
          FirstSays(lines, "host", text, k) && SplitAuthority(text, Some(80)) == Some((host, port));
        FirstValueExactly(lines, "host", text);
      }
      if Header(headers, "host").Some? {
        FirstValueExactly(lines, "host", Header(headers, "host").value);
      }
    }
  }

  /**
   Which heads are requests, and for what. The line is three fields apart by single spaces, the third a version; a
   `CONNECT` names a host and a port, and everything behind it is its own; any other names them by its target or by its
   `Host` field, the port 80 unless said otherwise, and its body is what its fields say.
   */
  lemma HeadExactly(name: string, target: string, version: string, headers: string, request: Request)
    requires ' ' !in name && ' ' !in target && ' ' !in version && NoBreak(name + " " + target + " " + version)
    ensures ParseHead(name + " " + target + " " + version + CRLF + headers) == Some(request)
            <==> && StartsWith(version, "HTTP/")
                 && (if name == "CONNECT" then
                       && request == Request(Connect, request.host, request.port, Streamed)
                       && SplitAuthority(target, None) == Some((request.host, request.port))
                     else
                       && request == Request(Absolute, request.host, request.port, BodyOf(headers))
                       && IsFor(target, headers, request.host, request.port))
  {
    LineFalls(name, target, version, headers);
    IsForExactly(target, headers, request.host, request.port);
  }

  /** A head whose line is anything else is no request. */
  lemma OnlyThreeFields(head: string)
    requires ParseHead(head).Some?
    ensures exists name: string, target: string, version: string, headers: string ::
              && head == name + " " + target + " " + version + CRLF + headers
              && ' ' !in name && ' ' !in target && ' ' !in version && NoBreak(name + " " + target + " " + version)
  {
    var (line, headers) := SplitOnce(head, CRLF).value;
    var fields := Split(line, " ");
    PiecesAvoid(line, ' ');
    JoinSplit(line, " ");
    FirstLineNoBreak(head);
    ThreeJoined(fields);
    var i := Find(head, CRLF).value;
    assert head == head[..i] + CRLF + head[i + 2..];
    assert head == fields[0] + " " + fields[1] + " " + fields[2] + CRLF + headers;
  }

  lemma ThreeJoined(fields: seq<string>)
    requires |fields| == 3
    ensures Join(fields, " ") == fields[0] + " " + fields[1] + " " + fields[2]
  {
    assert fields[1..][1..] == [fields[2]];
    assert Join(fields[1..], " ") == fields[1] + " " + fields[2];
    FieldsRegroup(fields[0], fields[1], fields[2]);
  }

  // ---------- the rebuilt head, in full ----------

  /** What the origin is asked for. */
  ghost predicate AsksFor(target: string, origin: string) {
    if StartsWith(target, "http://") then
      exists authority: string, path: string ::
        AbsoluteForm(target, authority, path) && origin == if path == "" then "/" else path
    else origin == target
  }

  lemma AsksForExactly(target: string, origin: string)
    ensures AsksFor(target, origin) <==> OriginForm(target) == origin
  {
    if StartsWith(target, "http://") {
      var authority, path := AbsoluteParts(target);
      AbsoluteFalls(target, authority, path);
      forall a: string, p: string | AbsoluteForm(target, a, p)
        ensures OriginForm(target) == if p == "" then "/" else p
      {
        AbsoluteFalls(target, a, p);
      }
    }
  }

  function PortText(port: nat): string {
    if port == 80 then "" else ":" + Decimal(port)
  }

  /**
   The rebuilt head, character by character: the method as it was, the path of the target alone, one `Host` with the
   port unless it is 80, the kept fields as they were written, and the close that ends the answer.
   */
  lemma RebuiltInFull(
    name: string, target: string, version: string, headers: string, host: string, port: nat, origin: string)
    requires ' ' !in name && ' ' !in target && ' ' !in version && NoBreak(name + " " + target + " " + version)
    requires AsksFor(target, origin)
    ensures Rebuilt(name + " " + target + " " + version + CRLF + headers, host, port)
            == Some(name + " " + origin + " HTTP/1.1" + CRLF + ("Host: " + host + PortText(port)) + CRLF
                    + Terminated(Kept(Split(headers, CRLF))) + "Connection: close\r\n\r\n")
  {
    LineFalls(name, target, version, headers);
    AsksForExactly(target, origin);
    HostLineIs(host, port);
    AssembledText(RequestLine(name, target), HostLine(host, port), Kept(Split(headers, CRLF)));
  }

  lemma HostLineIs(host: string, port: nat)
    ensures HostLine(host, port) == "Host: " + host + PortText(port)
  {
    if port == 80 {
      assert "Host: " + host + "" == "Host: " + host;
    } else {
      assert "Host: " + host + (":" + Decimal(port)) == "Host: " + (host + ":" + Decimal(port));
    }
  }

  // ---------- bodies that are not sized ----------

  /** A tunnel carries on verbatim whatever came behind its head. */
  lemma TunnelIsVerbatim(input: string)
    ensures Served(input).Some? && Served(input).value.0.how == Connect ==>
              Served(input).value.1 == input[HeadEndOf(input).value..]
  {
    if Served(input).Some? && Served(input).value.0.how == Connect {
      var rest := input[HeadEndOf(input).value..];
      assert "" + rest == rest;
    }
  }

  /** Some field of the head is a transfer encoding. */
  ghost predicate Encoded(head: string) {
    SplitOnce(head, CRLF).Some? && Mentions(Split(HeadersOf(head), CRLF), "transfer-encoding")
  }

  lemma EncodedIsStreamed(head: string, request: Request)
    requires ParseHead(head) == Some(request) && request.how == Absolute
    ensures Encoded(head) ==> request.body == Streamed
  {
    BodyIsRead(head, request);
    BodyExactly(HeadersOf(head), Streamed);
  }

  /**
   A request whose fields mention a transfer encoding has everything behind its head sent on, until the client stops.
   */
  lemma EncodedBodyIsSent(input: string)
    ensures var served := Served(input);
            served.Some? && served.value.0.how == Absolute && Encoded(input[..HeadEndOf(input).value]) ==>
              var end, request := HeadEndOf(input).value, served.value.0;
              var rebuilt := Rebuilt(input[..end], request.host, request.port);
              rebuilt.Some? && served.value.1 == rebuilt.value + input[end..]
  {
    var served := Served(input);
    if served.Some? && served.value.0.how == Absolute {
      var head, request := input[..HeadEndOf(input).value], served.value.0;
      ParsedIsRebuilt(head, request);
      EncodedIsStreamed(head, request);
    }
  }
}

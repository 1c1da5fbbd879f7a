/** What rebuilding a request keeps: it can be done twice, names one host, and reads back as the same request. */
module Rewriting {
  import opened Options
  import opened Text
  import opened Framing
  import opened Requests

  /** `head` was read as an absolute-class request to `host` and `port`. */
  predicate ReadAs(head: string, host: string, port: nat, body: Body) {
    ParseHead(head) == Some(Request(Absolute, host, port, body))
  }

  // ---------- the parts of a rebuilt head ----------

  function LineOf(head: string): string
    requires SplitOnce(head, CRLF).Some?
  {
    SplitOnce(head, CRLF).value.0
  }

  function HeadersOf(head: string): string
    requires SplitOnce(head, CRLF).Some?
  {
    SplitOnce(head, CRLF).value.1
  }

  lemma FirstLineNoBreak(head: string)
    requires SplitOnce(head, CRLF).Some?
    ensures NoBreak(LineOf(head))
  {
    var i: int := Find(head, CRLF).value;
    forall j | 0 <= j < i - 1 ensures !(head[..i][j] == '\r' && head[..i][j + 1] == '\n') {
      BreakAt(head, j);
    }
  }

  lemma OriginFormIsPlain(target: string)
    ensures !StartsWith(OriginForm(target), SCHEME)
    ensures OriginForm(OriginForm(target)) == OriginForm(target)
    ensures NoBreak(target) ==> NoBreak(OriginForm(target))
    ensures ' ' !in target ==> ' ' !in OriginForm(target)
  {
    if StartsWith(target, SCHEME) {
      var rest := target[|SCHEME|..];
      match Find(rest, "/")
      case None => assert OriginForm(target) == "/";
      case Some(slash) =>
        OccursOne(rest, '/', slash);
        assert OriginForm(target)[0] == '/' && SCHEME[0] == 'h';
    }
  }

  lemma RequestLineNoBreak(name: string, target: string)
    requires NoBreak(name) && NoBreak(target)
    ensures NoBreak(RequestLine(name, target))
  {
    OriginFormIsPlain(target);
    var origin := OriginForm(target);
    JoinedNoBreak(name, " ");
    JoinedNoBreak(name + " ", origin);
    JoinedNoBreak(name + " " + origin, " HTTP/1.1");
  }

  // ---------- hosts have no line breaks ----------

  lemma TrimNoBreak(s: string)
    requires NoBreak(s)
    ensures NoBreak(Trim(s))
  {
    TrimStartNoBreak(s);
    SliceNoBreak(TrimStart(s), 0, |TrimEnd(TrimStart(s))|);
  }

  lemma {:induction false} TrimStartNoBreak(s: string)
    requires NoBreak(s)
    ensures NoBreak(TrimStart(s))
  {
    if s != "" && IsSpace(s[0]) {
      TrimStartNoBreak(s[1..]);
    }
  }

  lemma AuthorityNoBreak(authority: string, fallback: Option<nat>)
    requires NoBreak(authority) && SplitAuthority(authority, fallback).Some?
    ensures NoBreak(SplitAuthority(authority, fallback).value.0)
  {
  }

  lemma {:induction false} FirstValueNoBreak(lines: seq<string>, tag: string)
    requires forall k :: 0 <= k < |lines| ==> NoBreak(lines[k])
    requires FirstValue(lines, tag).Some?
    ensures NoBreak(FirstValue(lines, tag).value)
  {
    if Label(lines[0]) == Some(tag) {
      TrimNoBreak(SplitOnce(lines[0], ":").value.1);
    } else {
      FirstValueNoBreak(lines[1..], tag);
    }
  }

  lemma FieldsArePlain(line: string)
    requires NoBreak(line)
    ensures forall field <- Split(line, " ") :: NoBreak(field) && ' ' !in field
  {
    PiecesNoBreak(line, " ");
    PiecesAvoid(line, ' ');
  }

  lemma ReadFields(head: string, host: string, port: nat, body: Body)
    requires ReadAs(head, host, port, body)
    ensures SplitOnce(head, CRLF).Some?
    ensures var fields := Split(LineOf(head), " ");
            && |fields| == 3 && fields[0] != "CONNECT"
            && NoBreak(fields[0]) && NoBreak(fields[1]) && ' ' !in fields[0] && ' ' !in fields[1]
  {
    FirstLineNoBreak(head);
    FieldsArePlain(LineOf(head));
  }

  /** The text the host and port were read from. */
  function AuthorityOf(target: string, headers: string): Option<string> {
    var given := AbsoluteAuthority(target);
    if given.Some? then given else Header(headers, "host")
  }

  lemma AuthorityTextNoBreak(target: string, headers: string)
    requires NoBreak(target) && AuthorityOf(target, headers).Some?
    ensures NoBreak(AuthorityOf(target, headers).value)
  {
    if AbsoluteAuthority(target).None? {
      PiecesNoBreak(headers, CRLF);
      FirstValueNoBreak(Split(headers, CRLF), "host");
    }
  }

  lemma ReadAuthority(head: string, host: string, port: nat, body: Body, target: string, headers: string)
    requires ReadAs(head, host, port, body)
    requires SplitOnce(head, CRLF).Some? && |Split(LineOf(head), " ")| == 3
    requires target == Split(LineOf(head), " ")[1] && headers == HeadersOf(head)
    ensures body == BodyOf(headers)
    ensures var authority := AuthorityOf(target, headers);
            authority.Some? && SplitAuthority(authority.value, Some(DEFAULT_PORT)) == Some((host, port))
  {
  }

  lemma AuthorityBounds(authority: string, host: string, port: nat)
    requires SplitAuthority(authority, Some(DEFAULT_PORT)) == Some((host, port))
    ensures host != "" && port <= MAX_PORT
  {
  }

  lemma ReadHost(head: string, host: string, port: nat, body: Body)
    requires ReadAs(head, host, port, body)
    ensures SplitOnce(head, CRLF).Some?
    ensures NoBreak(host) && host != "" && port <= MAX_PORT && body == BodyOf(HeadersOf(head))
  {
    ReadFields(head, host, port, body);
    var target, headers := Split(LineOf(head), " ")[1], HeadersOf(head);
    ReadAuthority(head, host, port, body, target, headers);
    AuthorityTextNoBreak(target, headers);
    var authority := AuthorityOf(target, headers).value;
    AuthorityNoBreak(authority, Some(DEFAULT_PORT));
    AuthorityBounds(authority, host, port);
  }

  lemma DigitsNoBreak(s: string)
    requires forall i :: 0 <= i < |s| ==> IsDigit(s[i])
    ensures NoBreak(s)
  {
  }

  lemma HostLineNoBreak(host: string, port: nat)
    requires NoBreak(host)
    ensures NoBreak(HostLine(host, port))
  {
    DecimalReadsBack(port);
    DigitsNoBreak(Decimal(port));
    JoinedNoBreak(":", Decimal(port));
    JoinedNoBreak(host, ":" + Decimal(port));
    assert host + ":" + Decimal(port) == host + (":" + Decimal(port));
    JoinedNoBreak("Host: ", HostPort(host, port));
  }

  lemma {:induction false} KeptNoBreak(lines: seq<string>)
    requires forall k :: 0 <= k < |lines| ==> NoBreak(lines[k])
    ensures forall k :: 0 <= k < |Kept(lines)| ==> NoBreak(Kept(lines)[k])
  {
    if lines != [] {
      KeptNoBreak(lines[1..]);
    }
  }

  lemma LinesFallApart(first: string, rest: seq<string>)
    requires NoBreak(first) && rest != [] && forall k :: 0 <= k < |rest| ==> NoBreak(rest[k])
    ensures var out := Join([first] + rest, CRLF);
            SplitOnce(out, CRLF) == Some((first, Join(rest, CRLF))) && Split(Join(rest, CRLF), CRLF) == rest
  {
    assert ([first] + rest)[1..] == rest;
    BreakAfter(first, Join(rest, CRLF));
    LinesSurvive(rest);
  }

  lemma RequestLineFields(name: string, target: string)
    requires ' ' !in name && ' ' !in target
    ensures Split(RequestLine(name, target), " ") == [name, OriginForm(target), "HTTP/1.1"]
  {
    OriginFormIsPlain(target);
    ThreeFields(name, OriginForm(target), "HTTP/1.1");
    assert RequestLine(name, target) == name + " " + OriginForm(target) + " " + "HTTP/1.1";
  }

  /** The rebuilt head falls apart into exactly the lines it was put together from. */
  lemma RebuiltFallsApart(head: string, host: string, port: nat, body: Body)
    requires ReadAs(head, host, port, body)
    ensures Rebuilt(head, host, port).Some? && SplitOnce(head, CRLF).Some? && |Split(LineOf(head), " ")| == 3
    ensures var out := Rebuilt(head, host, port).value;
            var fields := Split(LineOf(head), " ");
            && SplitOnce(out, CRLF).Some?
            && Split(LineOf(out), " ") == [fields[0], OriginForm(fields[1]), "HTTP/1.1"]
            && LineOf(out) == RequestLine(fields[0], fields[1])
            && Split(HeadersOf(out), CRLF) == FieldLines(HeadersOf(head), host, port)
  {
    ReadFields(head, host, port, body);
    ReadHost(head, host, port, body);
    var fields, headers := Split(LineOf(head), " "), HeadersOf(head);
    RequestLineNoBreak(fields[0], fields[1]);
    RequestLineFields(fields[0], fields[1]);
    FieldLinesNoBreak(headers, host, port);
    LinesFallApart(RequestLine(fields[0], fields[1]), FieldLines(headers, host, port));
  }

  lemma FieldLinesNoBreak(headers: string, host: string, port: nat)
    requires NoBreak(host)
    ensures forall k :: 0 <= k < |FieldLines(headers, host, port)| ==> NoBreak(FieldLines(headers, host, port)[k])
  {
    HostLineNoBreak(host, port);
    PiecesNoBreak(headers, CRLF);
    KeptNoBreak(Split(headers, CRLF));
    assert forall k :: 0 <= k < |CLOSING| ==> NoBreak(CLOSING[k]);
  }

  // ---------- labels of the lines added ----------

  lemma FieldOf(name: string, value: string)
    requires ':' !in name
    ensures Label(name + ":" + value) == Some(Lower(Trim(name))) && FieldValue(name + ":" + value) == Trim(value)
  {
    var line := name + ":" + value;
    FindBefore(name, ':', value);
    match Find(name, ":")
    case None => assert line[..|name|] == name && line[|name| + 1..] == value;
    case Some(i) => OccursOne(name, ':', i);
  }

  /** The label of a field written `name: value`, when nothing in the name is a colon or a space. */
  lemma LabelOf(name: string, value: string, lower: string)
    requires name != "" && ':' !in name && !IsSpace(name[0]) && !IsSpace(name[|name| - 1]) && Lower(name) == lower
    ensures Label(name + ":" + value) == Some(lower) && FieldValue(name + ":" + value) == Trim(value)
  {
    TrimPlain(name);
    FieldOf(name, value);
  }

  lemma LowerHost()
    ensures Lower("Host") == "host"
  {
    var name, lower := "Host", "host";
    forall i | 0 <= i < 4 ensures Lower(name)[i] == lower[i] {
    }
  }

  lemma HostLineFalls(text: string)
    ensures "Host: " + text == "Host" + ":" + (" " + text)
  {
  }

  lemma HostLabel(host: string, port: nat)
    ensures Label(HostLine(host, port)) == Some("host")
    ensures FieldValue(HostLine(host, port)) == Trim(" " + HostPort(host, port))
  {
    LowerHost();
    LabelOf("Host", " " + HostPort(host, port), "host");
    HostLineFalls(HostPort(host, port));
  }

  lemma NoLabel()
    ensures Label("") == None
  {
    WholeFind("", ':');
  }

  lemma LowerConnection()
    ensures Lower("Connection") == "connection"
  {
    var name, lower := "Connection", "connection";
    forall i | 0 <= i < 10 ensures Lower(name)[i] == lower[i] {
    }
  }

  lemma ConnectionLine()
    ensures CLOSING[0] == "Connection" + ":" + " close"
  {
  }

  lemma ConnectionLabel()
    ensures Label(CLOSING[0]) == Some("connection") && FieldValue(CLOSING[0]) == Trim(" " + "close")
  {
    LowerConnection();
    LabelOf("Connection", " close", "connection");
    ConnectionLine();
  }

  lemma ClosingLabels()
    ensures Label(CLOSING[0]) == Some("connection") && FieldValue(CLOSING[0]) == Trim(" " + "close")
    ensures Label(CLOSING[1]) == None && Label(CLOSING[2]) == None
  {
    ConnectionLabel();
    NoLabel();
  }

  lemma {:induction false} KeptTwice(lines: seq<string>)
    ensures Kept(Kept(lines)) == Kept(lines)
  {
    if lines != [] {
      KeptTwice(lines[1..]);
      var kept := Kept(lines[1..]);
      if Keeps(lines[0]) {
        assert ([lines[0]] + kept)[1..] == kept;
      } else {
        assert Kept(lines) == kept;
      }
    }
  }

  lemma OneLineKept(line: string)
    ensures Kept([line]) == if Keeps(line) then [line] else []
  {
    assert [line][1..] == [];
  }

  lemma NoneOfClosingKept()
    ensures Kept(CLOSING) == []
  {
    ClosingLabels();
    ThreeLines(CLOSING);
    OneLineKept(CLOSING[2]);
    KeptAppends([CLOSING[1]], [CLOSING[2]]);
    OneLineKept(CLOSING[1]);
    KeptAppends([CLOSING[0]], [CLOSING[1]] + [CLOSING[2]]);
    OneLineKept(CLOSING[0]);
  }

  lemma ThreeLines(lines: seq<string>)
    requires |lines| == 3
    ensures lines == [lines[0]] + ([lines[1]] + [lines[2]])
  {
  }

  lemma KeptOfFieldLines(headers: string, host: string, port: nat)
    ensures Kept(FieldLines(headers, host, port)) == Kept(Split(headers, CRLF))
  {
    var kept := Kept(Split(headers, CRLF));
    HostLabel(host, port);
    OneLineKept(HostLine(host, port));
    NoneOfClosingKept();
    KeptAppends([HostLine(host, port)] + kept, CLOSING);
    KeptAppends([HostLine(host, port)], kept);
    KeptTwice(Split(headers, CRLF));
  }

  // ---------- idempotence, and one Host ----------

  /** Rebuilding an already rebuilt request changes nothing. */
  lemma RebuildingTwiceIsOnce(head: string, host: string, port: nat, body: Body)
    requires ReadAs(head, host, port, body)
    ensures Rebuilt(head, host, port).Some?
    ensures Rebuilt(Rebuilt(head, host, port).value, host, port) == Rebuilt(head, host, port)
  {
    RebuiltFallsApart(head, host, port, body);
    KeptOfFieldLines(HeadersOf(head), host, port);
    OriginFormIsPlain(Split(LineOf(head), " ")[1]);
  }

  function Count(lines: seq<string>, tag: string): nat {
    if lines == [] then 0 else (if Label(lines[0]) == Some(tag) then 1 else 0) + Count(lines[1..], tag)
  }

  lemma {:induction false} CountAppends(a: seq<string>, b: seq<string>, tag: string)
    ensures Count(a + b, tag) == Count(a, tag) + Count(b, tag)
  {
    if a == [] {
      assert a + b == b;
    } else {
      assert (a + b)[1..] == a[1..] + b;
      CountAppends(a[1..], b, tag);
    }
  }

  lemma {:induction false} NoneKept(lines: seq<string>, tag: string)
    requires Dropped(tag)
    ensures Count(Kept(lines), tag) == 0
  {
    if lines != [] {
      NoneKept(lines[1..], tag);
      CountAppends(if Keeps(lines[0]) then [lines[0]] else [], Kept(lines[1..]), tag);
      assert [lines[0]][1..] == [];
    }
  }

  lemma OneLineCount(line: string, tag: string)
    ensures Count([line], tag) == if Label(line) == Some(tag) then 1 else 0
  {
    assert [line][1..] == [];
  }

  lemma ClosingCount(tag: string)
    ensures Count(CLOSING, tag) == if tag == "connection" then 1 else 0
  {
    ClosingLabels();
    ThreeLines(CLOSING);
    CountAppends([CLOSING[1]], [CLOSING[2]], tag);
    CountAppends([CLOSING[0]], [CLOSING[1]] + [CLOSING[2]], tag);
    OneLineCount(CLOSING[0], tag);
    OneLineCount(CLOSING[1], tag);
    OneLineCount(CLOSING[2], tag);
  }

  lemma FieldLinesCount(headers: string, host: string, port: nat, tag: string)
    requires Dropped(tag)
    ensures Count(FieldLines(headers, host, port), tag) == if tag == "host" || tag == "connection" then 1 else 0
  {
    var first, kept := [HostLine(host, port)], Kept(Split(headers, CRLF));
    HostLabel(host, port);
    OneLineCount(HostLine(host, port), tag);
    NoneKept(Split(headers, CRLF), tag);
    CountAppends(first + kept, CLOSING, tag);
    CountAppends(first, kept, tag);
    ClosingCount(tag);
  }

  // ---------- reading it back ----------

  lemma {:induction false} KeptFirstValue(lines: seq<string>, tag: string)
    requires !Dropped(tag)
    ensures FirstValue(Kept(lines), tag) == FirstValue(lines, tag)
  {
    if lines != [] {
      KeptFirstValue(lines[1..], tag);
      var kept := Kept(lines[1..]);
      if Keeps(lines[0]) {
        assert ([lines[0]] + kept)[1..] == kept;
      } else {
        assert Kept(lines) == kept;
      }
    }
  }

  lemma {:induction false} FirstValueAppends(a: seq<string>, b: seq<string>, tag: string)
    ensures FirstValue(a + b, tag) == if FirstValue(a, tag).Some? then FirstValue(a, tag) else FirstValue(b, tag)
  {
    if a == [] {
      assert a + b == b;
    } else {
      assert (a + b)[1..] == a[1..] + b;
      FirstValueAppends(a[1..], b, tag);
    }
  }

  lemma OneLineValue(line: string, tag: string)
    ensures FirstValue([line], tag) == if Label(line) == Some(tag) then Some(FieldValue(line)) else None
  {
    assert [line][1..] == [];
  }

  lemma ClosingValue(tag: string)
    ensures FirstValue(CLOSING, tag) == if tag == "connection" then Some("close") else None
  {
    ClosingLabels();
    TrimPadded("close");
    ThreeLines(CLOSING);
    FirstValueAppends([CLOSING[1]], [CLOSING[2]], tag);
    FirstValueAppends([CLOSING[0]], [CLOSING[1]] + [CLOSING[2]], tag);
    OneLineValue(CLOSING[0], tag);
    OneLineValue(CLOSING[1], tag);
    OneLineValue(CLOSING[2], tag);
  }

  lemma {:induction false} DroppedHasNoValue(lines: seq<string>, tag: string)
    requires Dropped(tag)
    ensures FirstValue(Kept(lines), tag) == None
  {
    if lines != [] {
      DroppedHasNoValue(lines[1..], tag);
      FirstValueAppends(if Keeps(lines[0]) then [lines[0]] else [], Kept(lines[1..]), tag);
      OneLineValue(lines[0], tag);
    }
  }

  /** What the rebuilt field lines say: their own `Host` and `Connection`, and whatever the client said of the rest. */
  lemma FieldLinesFirstValue(headers: string, host: string, port: nat, tag: string)
    requires tag == "host" || tag == "connection" || !Dropped(tag)
    ensures FirstValue(FieldLines(headers, host, port), tag)
            == if tag == "host" then Some(Trim(" " + HostPort(host, port)))
               else if tag == "connection" then Some("close") else Header(headers, tag)
  {
    var lines := Split(headers, CRLF);
    var first, kept := [HostLine(host, port)], Kept(lines);
    HostLabel(host, port);
    OneLineValue(HostLine(host, port), tag);
    FirstValueAppends(first + kept, CLOSING, tag);
    FirstValueAppends(first, kept, tag);
    ClosingValue(tag);
    if Dropped(tag) {
      DroppedHasNoValue(lines, tag);
    } else {
      KeptFirstValue(lines, tag);
    }
  }

  /** The rebuilt request has one `Host` field, one `Connection` field saying close, and no other hop-by-hop field. */
  lemma OneHostAndOneConnection(head: string, host: string, port: nat, body: Body, tag: string)
    requires ReadAs(head, host, port, body) && Dropped(tag)
    ensures Rebuilt(head, host, port).Some? && SplitOnce(Rebuilt(head, host, port).value, CRLF).Some?
    ensures Count(Split(HeadersOf(Rebuilt(head, host, port).value), CRLF), tag)
            == if tag == "host" || tag == "connection" then 1 else 0
    ensures Header(HeadersOf(Rebuilt(head, host, port).value), "connection") == Some("close")
  {
    RebuiltFallsApart(head, host, port, body);
    FieldLinesCount(HeadersOf(head), host, port, tag);
    FieldLinesFirstValue(HeadersOf(head), host, port, "connection");
  }

  /** A host that survives being written bare into a `Host` field and read back. */
  predicate Survives(host: string, port: nat)
    requires host != ""
  {
    && !IsSpace(host[0]) && host[0] != '['
    && (port == DEFAULT_PORT ==> ':' !in host && !IsSpace(host[|host| - 1]))
  }

  lemma {:induction false} TrimStartIs(s: string) returns (k: nat)
    ensures k <= |s| && TrimStart(s) == s[k..] && forall i :: 0 <= i < k ==> IsSpace(s[i])
  {
    if s == "" || !IsSpace(s[0]) {
      k := 0;
    } else {
      var later := TrimStartIs(s[1..]);
      k := later + 1;
      forall i | 0 <= i < k ensures IsSpace(s[i]) {
        if i > 0 {
          assert s[i] == s[1..][i - 1];
        }
      }
    }
  }

  lemma PortReadsBack(port: nat)
    requires port <= MAX_PORT
    ensures ParseUpTo(Decimal(port), MAX_PORT) == Some(port)
  {
    DecimalReadsBack(port);
  }

  lemma TrimPadded(text: string)
    requires text != "" && !IsSpace(text[0]) && !IsSpace(text[|text| - 1])
    ensures Trim(" " + text) == text
  {
    assert (" " + text)[1..] == text;
    assert TrimStart(" " + text) == TrimStart(text) == text;
  }

  lemma LastColon(host: string, digits: string)
    requires ':' !in digits
    ensures FindLast(host + ":" + digits, ':') == Some(|host|)
  {
    var text := host + ":" + digits;
    assert text[|host|] == ':';
    assert forall k :: |host| < k < |text| ==> text[k] == digits[k - |host| - 1];
  }

  lemma PortBehindName(host: string, digits: string)
    requires host != "" && host[0] != '[' && ':' !in digits
    ensures SplitAuthority(host + ":" + digits, Some(DEFAULT_PORT)) == NamedAt(host, digits)
  {
    var text := host + ":" + digits;
    LastColon(host, digits);
    assert text[0] == host[0] && !StartsWith(text, "[");
    assert text[..|host|] == host && text[|host| + 1..] == digits;
  }

  /** The bare form of a host that starts like a name, with a port other than the default, reads back. */
  lemma NamedPortReadsBack(host: string, port: nat)
    requires host != "" && port <= MAX_PORT && port != DEFAULT_PORT && !IsSpace(host[0]) && host[0] != '['
    ensures SplitAuthority(Trim(" " + HostPort(host, port)), Some(DEFAULT_PORT)) == Some((host, port))
  {
    var digits := Decimal(port);
    DecimalReadsBack(port);
    assert IsDigit(digits[|digits| - 1]);
    TrimPadded(host + ":" + digits);
    PortBehindName(host, digits);
    PortReadsBack(port);
  }

  lemma TrimEndKeeps(s: string)
    ensures forall i :: 0 <= i < |s| && !IsSpace(s[i]) ==> i < |TrimEnd(s)|
  {
  }

  /** Whatever a text reads as, the host is a shorter stretch of it, or all of it, and starts as the text does. */
  lemma HostWithin(text: string, host: string, port: nat)
    requires SplitAuthority(text, Some(DEFAULT_PORT)) == Some((host, port))
    ensures StartsWith(text, "[") ==> |host| + 2 <= |text| && host == text[1..|host| + 1] && text[|host| + 1] == ']'
    ensures !StartsWith(text, "[") ==> host <= text
    ensures host != ""
  {
    if StartsWith(text, "[") {
      var i := Find(text[1..], "]").value;
      OccursOne(text[1..], ']', i);
      assert text[1..][..i] == text[1..i + 1];
    }
  }

  lemma PaddedStart(text: string)
    requires text != "" && !IsSpace(text[0])
    ensures Trim(" " + text) == TrimEnd(text)
  {
    assert (" " + text)[1..] == text;
    assert TrimStart(" " + text) == TrimStart(text) == text;
  }

  lemma TrimEndShortens(s: string)
    requires s != "" && IsSpace(s[|s| - 1])
    ensures |TrimEnd(s)| < |s|
  {
    assert TrimEnd(s) != "" ==> TrimEnd(s)[|TrimEnd(s)| - 1] == s[|TrimEnd(s)| - 1];
  }

  /** A text with a colon is cut at the last one, so its host is shorter than the text. */
  lemma WithoutPort(text: string)
    requires text != "" && text[0] != '['
    ensures SplitAuthority(text, Some(DEFAULT_PORT)) == Some((text, DEFAULT_PORT)) <==> ':' !in text
  {
    assert !StartsWith(text, "[");
    match FindLast(text, ':')
    case None => assert ':' !in text;
    case Some(i) => assert text[i] == ':' && |text[..i]| < |text|;
  }

  /** A text that ends in a space is trimmed, so whatever it reads as is shorter. */
  lemma SpaceAtEndIsLost(host: string)
    requires host != "" && !IsSpace(host[0]) && host[0] != '[' && IsSpace(host[|host| - 1])
    ensures SplitAuthority(TrimEnd(host), Some(DEFAULT_PORT)) != Some((host, DEFAULT_PORT))
  {
    var text := TrimEnd(host);
    TrimEndKeeps(host);
    TrimEndShortens(host);
    assert text[0] == host[0] && !StartsWith(text, "[");
    if SplitAuthority(text, Some(DEFAULT_PORT)) == Some((host, DEFAULT_PORT)) {
      HostWithin(text, host, DEFAULT_PORT);
    }
  }

  /** On the default port the bare form reads back exactly when it has no colon and no space at its end. */
  lemma NamedDefaultReadsBack(host: string)
    requires host != "" && !IsSpace(host[0]) && host[0] != '['
    ensures SplitAuthority(Trim(" " + host), Some(DEFAULT_PORT)) == Some((host, DEFAULT_PORT))
            <==> ':' !in host && !IsSpace(host[|host| - 1])
  {
    PaddedStart(host);
    if IsSpace(host[|host| - 1]) {
      SpaceAtEndIsLost(host);
    } else {
      TrimPlain(host);
      WithoutPort(host);
    }
  }

  lemma PortHasNoBracket(host: string, port: nat)
    ensures forall j :: |host| <= j < |HostPort(host, port)| ==> HostPort(host, port)[j] != ']'
  {
    if port != DEFAULT_PORT {
      DecimalReadsBack(port);
      var text := HostPort(host, port);
      forall j | |host| <= j < |text| ensures text[j] != ']' {
        if j > |host| {
          assert text[j] == Decimal(port)[j - |host| - 1];
        }
      }
    }
  }

  /** What the bare form of a host is once trimmed: it starts with no space, and keeps a bracket it starts with. */
  lemma BareForm(host: string, port: nat) returns (k: nat)
    requires host != ""
    ensures var text, read := HostPort(host, port), Trim(" " + HostPort(host, port));
            && k + |read| <= |text| && read == text[k..k + |read|]
            && (read != "" ==> !IsSpace(read[0]))
            && (host[0] == '[' ==> k == 0 && StartsWith(read, "["))
  {
    var text := HostPort(host, port);
    var whole := " " + text;
    var n := TrimStartIs(whole);
    assert whole[1..] == text;
    assert TrimStart(whole) == TrimStart(text);
    k := TrimStartIs(text);
    TrimEndKeeps(text[k..]);
    var read := Trim(whole);
    assert read <= text[k..];
  }

  /** A host that starts with a space or a bracket never reads back from its bare form. */
  lemma OthersDoNotReadBack(host: string, port: nat)
    requires host != "" && port <= MAX_PORT && (IsSpace(host[0]) || host[0] == '[')
    ensures SplitAuthority(Trim(" " + HostPort(host, port)), Some(DEFAULT_PORT)) != Some((host, port))
  {
    var text, read := HostPort(host, port), Trim(" " + HostPort(host, port));
    var k := BareForm(host, port);
    PortHasNoBracket(host, port);
    var result := SplitAuthority(read, Some(DEFAULT_PORT));
    if result.Some? {
      var other := result.value.0;
      HostWithin(read, other, result.value.1);
      if StartsWith(read, "[") {
        assert text[k + |other| + 1] == ']';
        assert |other| < |host|;
      } else {
        assert other[0] == read[0];
      }
    }
  }

  /** The bare form of a host reads back exactly when the host survives it. */
  lemma ReadsBackExactly(host: string, port: nat)
    requires host != "" && port <= MAX_PORT
    ensures SplitAuthority(Trim(" " + HostPort(host, port)), Some(DEFAULT_PORT)) == Some((host, port))
            <==> Survives(host, port)
  {
    if IsSpace(host[0]) || host[0] == '[' {
      OthersDoNotReadBack(host, port);
    } else if port == DEFAULT_PORT {
      NamedDefaultReadsBack(host);
    } else {
      NamedPortReadsBack(host, port);
    }
  }

  lemma SameBody(a: string, b: string)
    requires Header(a, "transfer-encoding") == Header(b, "transfer-encoding")
    requires Header(a, "content-length") == Header(b, "content-length")
    ensures BodyOf(a) == BodyOf(b)
  {
  }

  lemma FieldLinesBody(headers: string, after: string, host: string, port: nat)
    requires Split(after, CRLF) == FieldLines(headers, host, port)
    ensures BodyOf(after) == BodyOf(headers)
    ensures Header(after, "host") == Some(Trim(" " + HostPort(host, port)))
  {
    FieldLinesFirstValue(headers, host, port, "host");
    FieldLinesFirstValue(headers, host, port, "transfer-encoding");
    FieldLinesFirstValue(headers, host, port, "content-length");
    SameBody(headers, after);
  }

  lemma RebuiltBody(head: string, host: string, port: nat, body: Body)
    requires ReadAs(head, host, port, body)
    ensures Rebuilt(head, host, port).Some? && SplitOnce(Rebuilt(head, host, port).value, CRLF).Some?
    ensures BodyOf(HeadersOf(Rebuilt(head, host, port).value)) == body
    ensures Header(HeadersOf(Rebuilt(head, host, port).value), "host") == Some(Trim(" " + HostPort(host, port)))
  {
    RebuiltFallsApart(head, host, port, body);
    ReadHost(head, host, port, body);
    FieldLinesBody(HeadersOf(head), HeadersOf(Rebuilt(head, host, port).value), host, port);
  }

  /** Reading a head whose line is plain: the authority is in its `Host` field. */
  lemma PlainHeadReadsAs(out: string, name: string, target: string, host: string, port: nat, body: Body)
    requires SplitOnce(out, CRLF).Some? && Split(LineOf(out), " ") == [name, target, "HTTP/1.1"]
    requires name != "CONNECT" && !StartsWith(target, SCHEME) && BodyOf(HeadersOf(out)) == body
    requires Header(HeadersOf(out), "host").Some?
    ensures ReadAs(out, host, port, body)
            <==> SplitAuthority(Header(HeadersOf(out), "host").value, Some(DEFAULT_PORT)) == Some((host, port))
  {
  }

  /**
   The rebuilt request reads as the same request - same host, port and body framing - exactly when its host survives
   being written without brackets.
   */
  lemma RebuiltReadsBack(head: string, host: string, port: nat, body: Body)
    requires ReadAs(head, host, port, body)
    ensures Rebuilt(head, host, port).Some? && host != ""
    ensures ReadAs(Rebuilt(head, host, port).value, host, port, body) <==> Survives(host, port)
  {
    RebuiltFallsApart(head, host, port, body);
    ReadFields(head, host, port, body);
    ReadHost(head, host, port, body);
    RebuiltBody(head, host, port, body);
    var fields := Split(LineOf(head), " ");
    OriginFormIsPlain(fields[1]);
    PlainHeadReadsAs(Rebuilt(head, host, port).value, fields[0], OriginForm(fields[1]), host, port, body);
    ReadsBackExactly(host, port);
  }

  lemma WholeFind(s: string, c: char)
    requires c !in s
    ensures Find(s, [c]) == None
  {
    if Find(s, [c]).Some? {
      OccursOne(s, c, Find(s, [c]).value);
    }
  }

  /** Reading a bracketed address without a port. */
  lemma Bracketed(address: string)
    requires ']' !in address && address != ""
    ensures SplitAuthority("[" + address + "]", Some(DEFAULT_PORT)) == Some((address, DEFAULT_PORT))
  {
    var text := "[" + address + "]";
    FindBefore(address, ']', "");
    WholeFind(address, ']');
    assert text[1..] == address + [']'] + "";
    assert text[1..][..|address|] == address && text[1..][|address| + 1..] == "";
  }

  lemma AbsoluteTarget(authority: string)
    requires '/' !in authority
    ensures AbsoluteAuthority(SCHEME + authority + "/") == Some(authority)
  {
    var target := SCHEME + authority + "/";
    FindBefore(authority, '/', "");
    WholeFind(authority, '/');
    assert target[..|SCHEME|] == SCHEME && target[|SCHEME|..] == authority + ['/'] + "";
    assert target[|SCHEME|..][..|authority|] == authority;
  }

  lemma NoFields(tag: string)
    ensures Header(CRLF, tag) == None
  {
    BreakAfter("", "");
    assert CRLF == "" + CRLF + "";
    SplitUnfolds(CRLF, CRLF, 0, "", "");
    NoBreakFound("");
    NoLabel();
    assert Split(CRLF, CRLF) == ["", ""] && ["", ""][1..] == [""];
    assert FirstValue([""], tag) == None;
  }

  lemma OneLineNoBreak(name: string, target: string)
    requires NoBreak(name) && NoBreak(target)
    ensures NoBreak(name + " " + target + " HTTP/1.1")
  {
    JoinedNoBreak(name, " ");
    JoinedNoBreak(name + " ", target);
    JoinedNoBreak(name + " " + target, " HTTP/1.1");
  }

  function BracketedTarget(address: string): string {
    SCHEME + "[" + address + "]/"
  }

  lemma BracketedTargetReads(address: string)
    requires address != "" && NoBreak(address) && ' ' !in address && '/' !in address && ']' !in address
    ensures NoBreak(BracketedTarget(address)) && ' ' !in BracketedTarget(address)
    ensures AbsoluteAuthority(BracketedTarget(address)) == Some("[" + address + "]")
    ensures SplitAuthority("[" + address + "]", Some(DEFAULT_PORT)) == Some((address, DEFAULT_PORT))
  {
    JoinedNoBreak(SCHEME + "[", address);
    JoinedNoBreak(SCHEME + "[" + address, "]/");
    assert BracketedTarget(address) == SCHEME + ("[" + address + "]") + "/";
    AbsoluteTarget("[" + address + "]");
    Bracketed(address);
  }

  /** A request of one line, for a bracketed address, reads as a request to that address. */
  lemma OneLineReadsAs(name: string, address: string, target: string, line: string)
    requires ' ' !in name && NoBreak(name) && name != "CONNECT"
    requires address != "" && NoBreak(address) && ' ' !in address && '/' !in address && ']' !in address
    requires target == BracketedTarget(address) && line == name + " " + target + " HTTP/1.1"
    ensures ReadAs(line + CRLF + CRLF, address, DEFAULT_PORT, Sized(0))
  {
    BracketedTargetReads(address);
    OneLineNoBreak(name, target);
    LineFields(name, target, line);
    NoFieldsNoBody();
    AbsoluteHeadReadsAs(line, CRLF, name, target, "[" + address + "]", address);
  }

  lemma LineFields(name: string, target: string, line: string)
    requires ' ' !in name && ' ' !in target && line == name + " " + target + " HTTP/1.1"
    ensures Split(line, " ") == [name, target, "HTTP/1.1"]
  {
    ThreeFields(name, target, "HTTP/1.1");
    assert line == name + " " + target + " " + "HTTP/1.1";
  }

  lemma NoFieldsNoBody()
    ensures BodyOf(CRLF) == Sized(0)
  {
    NoFields("transfer-encoding");
    NoFields("content-length");
  }

  lemma AbsoluteHeadReadsAs(
    line: string, headers: string, name: string, target: string, authority: string, host: string)
    requires NoBreak(line) && Split(line, " ") == [name, target, "HTTP/1.1"] && name != "CONNECT"
    requires AbsoluteAuthority(target) == Some(authority)
    requires SplitAuthority(authority, Some(DEFAULT_PORT)) == Some((host, DEFAULT_PORT))
    ensures ReadAs(line + CRLF + headers, host, DEFAULT_PORT, BodyOf(headers))
  {
    BreakAfter(line, headers);
  }

  /**
   An IPv6 literal on the default port is lost: a request line for `http://[::1]/` reads as a request to `::1`, and
   rebuilt it no longer does.
   */
  lemma BareIpv6IsLost(name: string) returns (head: string)
    requires ' ' !in name && NoBreak(name) && name != "CONNECT"
    ensures head == name + " " + BracketedTarget("::1") + " HTTP/1.1" + CRLF + CRLF
    ensures ReadAs(head, "::1", DEFAULT_PORT, Sized(0))
    ensures Rebuilt(head, "::1", DEFAULT_PORT).Some?
    ensures !ReadAs(Rebuilt(head, "::1", DEFAULT_PORT).value, "::1", DEFAULT_PORT, Sized(0))
  {
    var address := "::1";
    head := name + " " + BracketedTarget(address) + " HTTP/1.1" + CRLF + CRLF;
    OneLineReadsAs(name, address, BracketedTarget(address), name + " " + BracketedTarget(address) + " HTTP/1.1");
    RebuiltReadsBack(head, address, DEFAULT_PORT, Sized(0));
    assert address[0] == ':';
  }
}

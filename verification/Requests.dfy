/** Reading a request head, and rebuilding an absolute-class request as the origin must receive it. */
module Requests {
  import opened Options
  import opened Text
  import opened Framing

  const CRLF: string := "\r\n"
  const SCHEME: string := "http://"
  const DEFAULT_PORT: nat := 80
  const MAX_PORT: nat := 65535
  const MAX_USIZE: nat := 0xFFFF_FFFF_FFFF_FFFF

  /** The fields of section 7.6.1 of RFC 9110 that belong to one hop. */
  const HOP_BY_HOP: seq<string> := [
    "connection", "proxy-connection", "keep-alive", "proxy-authenticate", "proxy-authorization", "te", "trailer",
    "upgrade"]

  datatype Request = Request(how: Method, host: string, port: nat, body: Body)

  // ---------- reading a head ----------

  /** A field line's name, trimmed and lower-cased; absent when the line has no colon. */
  function Label(line: string): Option<string> {
    match SplitOnce(line, ":")
    case None => None
    case Some((name, _)) => Some(Lower(Trim(name)))
  }

  function FieldValue(line: string): string {
    match SplitOnce(line, ":")
    case None => ""
    case Some((_, value)) => Trim(value)
  }

  /** The value of the first line carrying the label. */
  function FirstValue(lines: seq<string>, tag: string): Option<string> {
    if lines == [] then None
    else if Label(lines[0]) == Some(tag) then Some(FieldValue(lines[0]))
    else FirstValue(lines[1..], tag)
  }

  function Header(headers: string, tag: string): Option<string> {
    FirstValue(Split(headers, CRLF), tag)
  }

  function BodyOf(headers: string): Body {
    if Header(headers, "transfer-encoding").Some? then Streamed
    else
      match Header(headers, "content-length")
      case None => Sized(0)
      case Some(text) =>
        match ParseUpTo(text, MAX_USIZE)
        case None => Sized(0)
        case Some(len) => Sized(len)
  }

  function AbsoluteAuthority(target: string): Option<string> {
    if !StartsWith(target, SCHEME) then None
    else
      var rest := target[|SCHEME|..];
      match SplitOnce(rest, "/")
      case None => Some(rest)
      case Some((authority, _)) => Some(authority)
  }

  function Named(host: string, port: nat): Option<(string, nat)> {
    if host == "" then None else Some((host, port))
  }

  function NamedBy(host: string, fallback: Option<nat>): Option<(string, nat)> {
    match fallback
    case None => None
    case Some(port) => Named(host, port)
  }

  function NamedAt(host: string, port: string): Option<(string, nat)> {
    match ParseUpTo(port, MAX_PORT)
    case None => None
    case Some(number) => Named(host, number)
  }

  function SplitAuthority(authority: string, fallback: Option<nat>): Option<(string, nat)> {
    if StartsWith(authority, "[") then
      (match SplitOnce(authority[1..], "]")
       case None => None
       case Some((host, rest)) => if StartsWith(rest, ":") then NamedAt(host, rest[1..]) else NamedBy(host, fallback))
    else
      match FindLast(authority, ':')
      case None => NamedBy(authority, fallback)
      case Some(i) => NamedAt(authority[..i], authority[i + 1..])
  }

  function ParseHead(head: string): Option<Request> {
    match SplitOnce(head, CRLF)
    case None => None
    case Some((line, headers)) =>
      var fields := Split(line, " ");
      if |fields| != 3 || !StartsWith(fields[2], "HTTP/") then None
      else if fields[0] == "CONNECT" then
        (match SplitAuthority(fields[1], None)
         case None => None
         case Some((host, port)) => Some(Request(Connect, host, port, Streamed)))
      else
        var authority := match AbsoluteAuthority(fields[1])
                         case Some(given) => Some(given)
                         case None => Header(headers, "host");
        match authority
        case None => None
        case Some(text) =>
          match SplitAuthority(text, Some(DEFAULT_PORT))
          case None => None
          case Some((host, port)) => Some(Request(Absolute, host, port, BodyOf(headers)))
  }

  // ---------- rebuilding it ----------

  function OriginForm(target: string): string {
    if !StartsWith(target, SCHEME) then target
    else
      var rest := target[|SCHEME|..];
      match Find(rest, "/")
      case None => "/"
      case Some(slash) => rest[slash..]
  }

  function HostPort(host: string, port: nat): string {
    if port == DEFAULT_PORT then host else host + ":" + Decimal(port)
  }

  predicate Dropped(tag: string) {
    tag == "host" || tag in HOP_BY_HOP
  }

  predicate Keeps(line: string) {
    Label(line).Some? && !Dropped(Label(line).value)
  }

  function Kept(lines: seq<string>): seq<string> {
    if lines == [] then [] else (if Keeps(lines[0]) then [lines[0]] else []) + Kept(lines[1..])
  }

  function RequestLine(name: string, target: string): string {
    name + " " + OriginForm(target) + " HTTP/1.1"
  }

  function HostLine(host: string, port: nat): string {
    "Host: " + HostPort(host, port)
  }

  const CLOSING: seq<string> := ["Connection: close", "", ""]

  /** The field lines of the rebuilt request, blank line included. */
  function FieldLines(headers: string, host: string, port: nat): seq<string> {
    [HostLine(host, port)] + Kept(Split(headers, CRLF)) + CLOSING
  }

  function Rebuilt(head: string, host: string, port: nat): Option<string> {
    match SplitOnce(head, CRLF)
    case None => None
    case Some((line, headers)) =>
      var fields := Split(line, " ");
      if |fields| < 2 then None
      else Some(Join([RequestLine(fields[0], fields[1])] + FieldLines(headers, host, port), CRLF))
  }

  function Terminated(lines: seq<string>): string {
    if lines == [] then "" else Terminated(lines[..|lines| - 1]) + lines[|lines| - 1] + CRLF
  }

  lemma {:induction false} TerminatedFront(line: string, lines: seq<string>)
    ensures Terminated([line] + lines) == line + CRLF + Terminated(lines)
  {
    var all := [line] + lines;
    if lines == [] {
      assert all[..0] == [];
    } else {
      TerminatedFront(line, lines[..|lines| - 1]);
      assert all[..|all| - 1] == [line] + lines[..|lines| - 1];
    }
  }

  lemma {:induction false} JoinTerminated(lines: seq<string>, tail: seq<string>)
    requires tail != []
    ensures Join(lines + tail, CRLF) == Terminated(lines) + Join(tail, CRLF)
  {
    if lines == [] {
      assert lines + tail == tail;
    } else {
      var line, rest := lines[0], lines[1..];
      assert lines == [line] + rest && (lines + tail)[1..] == rest + tail;
      JoinTerminated(rest, tail);
      TerminatedFront(line, rest);
    }
  }

  lemma KeptGrows(lines: seq<string>, line: string)
    ensures Kept(lines + [line]) == if Keeps(line) then Kept(lines) + [line] else Kept(lines)
  {
    KeptAppends(lines, [line]);
    assert Kept(lines) + [] == Kept(lines);
  }

  lemma {:induction false} KeptAppends(a: seq<string>, b: seq<string>)
    ensures Kept(a + b) == Kept(a) + Kept(b)
  {
    if a == [] {
      assert a + b == b;
    } else {
      var line, rest := a[0], a[1..];
      assert a == [line] + rest;
      Regroup([line], rest, b);
      KeptAppends(rest, b);
      KeptBoth(line, rest, b, a, a + b);
    }
  }

  lemma KeptBoth(line: string, rest: seq<string>, b: seq<string>, a: seq<string>, both: seq<string>)
    requires a == [line] + rest && both == [line] + (rest + b) && Kept(rest + b) == Kept(rest) + Kept(b)
    ensures Kept(both) == Kept(a) + Kept(b)
  {
    KeptUnfolds(line, rest, a);
    KeptUnfolds(line, rest + b, both);
    Regroup(if Keeps(line) then [line] else [], Kept(rest), Kept(b));
  }

  lemma KeptUnfolds(line: string, rest: seq<string>, lines: seq<string>)
    requires lines == [line] + rest
    ensures Kept(lines) == (if Keeps(line) then [line] else []) + Kept(rest)
  {
    assert lines[1..] == rest;
  }

  lemma ClosingText()
    ensures Join(CLOSING, CRLF) == "Connection: close\r\n\r\n"
  {
    assert CLOSING[1..] == ["", ""] && CLOSING[1..][1..] == [""];
    assert Join([""], CRLF) == "" && Join(["", ""], CRLF) == "" + CRLF + "";
  }

  lemma AssembledText(first: string, second: string, kept: seq<string>)
    ensures Join([first] + ([second] + kept + CLOSING), CRLF)
            == first + CRLF + second + CRLF + Terminated(kept) + "Connection: close\r\n\r\n"
  {
    var lines := [first] + ([second] + kept);
    assert [first] + ([second] + kept + CLOSING) == lines + CLOSING;
    JoinTerminated(lines, CLOSING);
    TerminatedFront(first, [second] + kept);
    TerminatedFront(second, kept);
    ClosingText();
  }

  /** Appends the field lines that may reach the origin, as they were written. */
  method KeptText(headers: string) returns (text: string)
    ensures text == Terminated(Kept(Split(headers, CRLF)))
  {
    text := "";
    var lines := Split(headers, CRLF);
    for i := 0 to |lines|
      invariant text == Terminated(Kept(lines[..i]))
    {
      assert lines[..i + 1] == lines[..i] + [lines[i]];
      KeptGrows(lines[..i], lines[i]);
      var tag := Label(lines[i]);
      if tag.None? {
        continue;
      }
      if tag.value == "host" || tag.value in HOP_BY_HOP {
        continue;
      }
      ghost var kept := Kept(lines[..i]);
      assert (kept + [lines[i]])[..|kept|] == kept;
      text := text + lines[i] + "\r\n";
    }
    assert lines[..|lines|] == lines;
  }

  /** Writes the rebuilt head piece by piece. */
  method Rewritten(head: string, host: string, port: nat) returns (out: Option<string>)
    ensures out == Rebuilt(head, host, port)
  {
    var cut := SplitOnce(head, CRLF);
    if cut.None? {
      return None;
    }
    var (line, headers) := cut.value;
    var fields := Split(line, " ");
    if |fields| < 2 {
      return None;
    }
    var text := fields[0] + " " + OriginForm(fields[1]) + " HTTP/1.1";
    var second := "Host: " + host;
    if port != 80 {
      second := second + ":" + Decimal(port);
    }
    assert second == HostLine(host, port);
    var kept := KeptText(headers);
    AssembledText(text, second, Kept(Split(headers, CRLF)));
    return Some(text + "\r\n" + second + "\r\n" + kept + "Connection: close\r\n\r\n");
  }

  // ---------- lines and pieces survive being joined ----------

  /** No line break inside. */
  ghost predicate NoBreak(s: string) {
    forall i :: 0 <= i < |s| - 1 ==> !(s[i] == '\r' && s[i + 1] == '\n')
  }

  lemma BreakAt(s: string, i: nat)
    ensures OccursAt(s, CRLF, i) <==> i + 1 < |s| && s[i] == '\r' && s[i + 1] == '\n'
  {
    if i + 1 < |s| {
      assert s[i..i + 2] == [s[i], s[i + 1]];
    }
  }

  lemma BreakAfter(line: string, rest: string)
    requires NoBreak(line)
    ensures Find(line + CRLF + rest, CRLF) == Some(|line|)
    ensures SplitOnce(line + CRLF + rest, CRLF) == Some((line, rest))
  {
    var s := line + CRLF + rest;
    forall j: nat | j < |line| ensures !OccursAt(s, CRLF, j) {
      BreakAt(s, j);
    }
    BreakAt(s, |line|);
    FirstIsFind(s, CRLF, |line|);
    assert s[..|line|] == line && s[|line| + 2..] == rest;
  }

  lemma NoBreakFound(s: string)
    requires NoBreak(s)
    ensures Find(s, CRLF) == None
  {
    if Find(s, CRLF).Some? {
      BreakAt(s, Find(s, CRLF).value);
    }
  }

  lemma {:induction false} LinesSurvive(lines: seq<string>)
    requires lines != [] && forall k :: 0 <= k < |lines| ==> NoBreak(lines[k])
    ensures Split(Join(lines, CRLF), CRLF) == lines
  {
    if |lines| == 1 {
      NoBreakFound(lines[0]);
    } else {
      var rest := Join(lines[1..], CRLF);
      BreakAfter(lines[0], rest);
      SplitUnfolds(lines[0] + CRLF + rest, CRLF, |lines[0]|, lines[0], rest);
      LinesSurvive(lines[1..]);
    }
  }

  lemma SliceNoBreak(s: string, i: nat, j: nat)
    requires NoBreak(s) && i <= j <= |s|
    ensures NoBreak(s[i..j])
  {
  }

  /** The pieces of a text without line breaks have none, whatever it is cut at; nor has a line cut at line breaks. */
  lemma {:induction false} PiecesNoBreak(s: string, sep: string)
    requires sep != "" && (NoBreak(s) || sep == CRLF)
    ensures forall k :: 0 <= k < |Split(s, sep)| ==> NoBreak(Split(s, sep)[k])
    decreases |s|
  {
    match Find(s, sep)
    case None =>
      forall i | 0 <= i < |s| - 1 ensures !(s[i] == '\r' && s[i + 1] == '\n') {
        BreakAt(s, i);
      }
    case Some(i) =>
      forall j | 0 <= j < i - 1 ensures !(s[j] == '\r' && s[j + 1] == '\n') {
        BreakAt(s, j);
      }
      PiecesNoBreak(s[i + |sep|..], sep);
  }

  lemma {:induction false} PiecesAvoid(s: string, c: char)
    ensures forall k :: 0 <= k < |Split(s, [c])| ==> c !in Split(s, [c])[k]
    decreases |s|
  {
    match Find(s, [c])
    case None =>
      forall i | 0 <= i < |s| ensures s[i] != c {
        OccursOne(s, c, i);
      }
    case Some(i) =>
      forall j | 0 <= j < i ensures s[..i][j] != c {
        OccursOne(s, c, j);
      }
      PiecesAvoid(s[i + 1..], c);
  }

  lemma WholePiece(s: string, c: char)
    requires c !in s
    ensures Split(s, [c]) == [s]
  {
    match Find(s, [c])
    case None =>
    case Some(i) => OccursOne(s, c, i);
  }

  lemma OneMoreField(a: string, rest: string, fields: seq<string>)
    requires ' ' !in a && Split(rest, " ") == fields
    ensures Split(a + " " + rest, " ") == [a] + fields
  {
    WholePiece(a, ' ');
    SplitAt(a, ' ', rest);
  }

  lemma FieldsRegroup(a: string, b: string, c: string)
    ensures a + " " + b + " " + c == a + " " + (b + " " + c)
  {
  }

  lemma ThreeFields(a: string, b: string, c: string)
    requires ' ' !in a && ' ' !in b && ' ' !in c
    ensures Split(a + " " + b + " " + c, " ") == [a, b, c]
  {
    WholePiece(c, ' ');
    OneMoreField(b, c, [c]);
    OneMoreField(a, b + " " + c, [b] + [c]);
    FieldsRegroup(a, b, c);
  }

  lemma JoinedNoBreak(a: string, b: string)
    requires NoBreak(a) && NoBreak(b) && (a == "" || b == "" || a[|a| - 1] != '\r' || b[0] != '\n')
    ensures NoBreak(a + b)
  {
  }
}

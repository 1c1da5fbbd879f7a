/** Reading a log file's complete lines bit by bit while it grows. Characters stand for bytes. */
module LogReading {
  import opened Options
  import opened Text

  /** Only newlines end lines: the text is a run of whole lines. */
  predicate WholeLines(text: string) {
    text == "" || text[|text| - 1] == '\n'
  }

  function NewlineFrom(text: string, i: nat): (r: nat)
    requires i <= |text|
    ensures i <= r <= |text| && (r < |text| ==> text[r] == '\n')
    ensures forall j :: i <= j < r ==> text[j] != '\n'
    decreases |text| - i
  {
    if i == |text| || text[i] == '\n' then i else NewlineFrom(text, i + 1)
  }

  /** How long the first line is, its newline included when it has one. */
  function LineEnd(text: string): (n: nat)
    requires text != ""
    ensures 0 < n <= |text|
    ensures forall j :: 0 <= j < n - 1 ==> text[j] != '\n'
    ensures n < |text| ==> text[n - 1] == '\n'
  {
    var i := NewlineFrom(text, 0);
    if i < |text| then i + 1 else i
  }

  /** The lines of a text, each trimmed at its end. */
  function Lines(text: string): seq<string> {
    if text == "" then [] else [TrimEnd(text[..LineEnd(text)])] + Lines(text[LineEnd(text)..])
  }

  function LastLineEnd(text: string, n: nat): (r: nat)
    requires n <= |text|
    ensures r <= n && (r > 0 ==> text[r - 1] == '\n')
    ensures forall j :: r <= j < n ==> text[j] != '\n'
  {
    if n == 0 || text[n - 1] == '\n' then n else LastLineEnd(text, n - 1)
  }

  /** How far the last newline reaches. */
  function Complete(text: string): (n: nat)
    ensures n <= |text| && WholeLines(text[..n])
    ensures forall j :: n <= j < |text| ==> text[j] != '\n'
  {
    LastLineEnd(text, |text|)
  }

  lemma LineEndIs(text: string, n: nat)
    requires 0 < n <= |text| && text[n - 1] == '\n' && forall j :: 0 <= j < n - 1 ==> text[j] != '\n'
    ensures LineEnd(text) == n
  {
  }

  lemma LinesUnfold(text: string, first: string, rest: string)
    requires text != "" && LineEnd(text) == |first| && text == first + rest
    ensures Lines(text) == [TrimEnd(first)] + Lines(rest)
  {
    assert text[..|first|] == first && text[|first|..] == rest;
  }

  /** Lines after whole lines are just more lines. */
  lemma {:induction false} LinesAppend(a: string, b: string)
    requires WholeLines(a)
    ensures Lines(a + b) == Lines(a) + Lines(b)
    decreases |a|
  {
    if a == "" {
      assert a + b == b;
    } else {
      var n := LineEnd(a);
      var first, rest := a[..n], a[n..];
      assert a == first + rest;
      Regroup(first, rest, b);
      LineEndIs(a + b, n);
      LinesAppend(rest, b);
      LinesUnfold(a, first, rest);
      LinesUnfold(a + b, first, rest + b);
      Regroup([TrimEnd(first)], Lines(rest), Lines(b));
    }
  }

  lemma WholeLinesJoin(a: string, b: string, both: string)
    requires both == a + b && WholeLines(a) && WholeLines(b)
    ensures WholeLines(both) && Lines(both) == Lines(a) + Lines(b)
  {
    LinesAppend(a, b);
    if b == "" {
      assert both == a;
    }
  }

  lemma OneLine(line: string)
    requires line != "" && LineEnd(line) == |line|
    ensures Lines(line) == [TrimEnd(line)]
  {
    assert line[..|line|] == line && line[|line|..] == "";
  }

  lemma Cut(s: string, n: nat, k: nat)
    requires n + k <= |s|
    ensures s[..n + k] == s[..n] + s[n..][..k] && s[n..n + k] == s[n..][..k]
  {
  }

  /** The first line of what is left of `read` past `n` joins the lines before it. */
  lemma OneMoreLine(read: string, n: nat, m: nat)
    requires n < |read| && WholeLines(read[..n])
    requires m == n + LineEnd(read[n..]) && read[m - 1] == '\n'
    ensures WholeLines(read[..m]) && Lines(read[..m]) == Lines(read[..n]) + [TrimEnd(read[n..m])]
  {
    var line := read[n..][..m - n];
    Cut(read, n, m - n);
    LineEndIs(line, m - n);
    OneLine(line);
    WholeLinesJoin(read[..n], line, read[..m]);
  }

  lemma CompleteIs(text: string, n: nat)
    requires n <= |text| && WholeLines(text[..n])
    requires forall j :: n <= j < |text| ==> text[j] != '\n'
    ensures Complete(text) == n
  {
  }

  /** Line by line, up to the first piece without a newline. */
  method CompleteLines(read: string) returns (lines: seq<string>, consumed: nat)
    ensures consumed == Complete(read) && lines == Lines(read[..consumed])
  {
    consumed, lines := 0, [];
    while consumed < |read|
      invariant consumed <= |read| && WholeLines(read[..consumed])
      invariant lines == Lines(read[..consumed])
    {
      var end := consumed + LineEnd(read[consumed..]);
      if read[end - 1] != '\n' {
        Unfinished(read, consumed);
        break;
      }
      OneMoreLine(read, consumed, end);
      lines := lines + [TrimEnd(read[consumed..end])];
      consumed := end;
    }
    CompleteIs(read, consumed);
  }

  lemma Unfinished(read: string, n: nat)
    requires n < |read| && read[n + LineEnd(read[n..]) - 1] != '\n'
    ensures forall j :: n <= j < |read| ==> read[j] != '\n'
  {
    var rest := read[n..];
    forall j | n <= j < |read| ensures read[j] != '\n' {
      assert rest[j - n] == read[j];
    }
  }

  /** Reads the complete lines the file holds past `offset`, or past its start when it is shorter than that. */
  method ReadFrom(file: string, offset: nat) returns (lines: seq<string>, next: nat)
    ensures var start := if |file| < offset then 0 else offset;
            && next == start + Complete(file[start..])
            && lines == Lines(file[start..next])
  {
    var start := if |file| < offset then 0 else offset;
    var consumed;
    lines, consumed := CompleteLines(file[start..]);
    next := start + consumed;
    assert file[start..next] == file[start..][..consumed];
  }

  /** Lines put one after another, each ended by a newline. */
  function Ended(lines: seq<string>): string {
    if lines == [] then "" else lines[0] + "\n" + Ended(lines[1..])
  }

  /**
   Read from the writer's side: lines without newlines, each ended by one, come back trimmed, each once and in order.
   */
  lemma {:induction false} LinesComeBack(lines: seq<string>)
    requires forall k :: 0 <= k < |lines| ==> '\n' !in lines[k]
    ensures |Lines(Ended(lines))| == |lines|
    ensures forall k :: 0 <= k < |lines| ==> Lines(Ended(lines))[k] == TrimEnd(lines[k] + "\n")
  {
    if lines != [] {
      var line, rest := lines[0] + "\n", Ended(lines[1..]);
      LineEndIs(line + rest, |line|);
      LinesUnfold(line + rest, line, rest);
      LinesComeBack(lines[1..]);
    }
  }

  // ---------- a file that only grows, and a reader that comes back ----------

  datatype Tail = Tail(file: string, offset: nat, lines: seq<string>)

  datatype Step =
    | Append(text: string)
    | Read

  function Start(file: string, offset: nat): nat {
    if |file| < offset then 0 else offset
  }

  function ReadOn(tail: Tail, start: nat): Tail
    requires start <= |tail.file|
  {
    var rest := tail.file[start..];
    var n := Complete(rest);
    Tail(tail.file, start + n, tail.lines + Lines(rest[..n]))
  }

  function Next(tail: Tail, step: Step): Tail {
    match step
    case Append(text) => tail.(file := tail.file + text)
    case Read => ReadOn(tail, Start(tail.file, tail.offset))
  }

  function After(tail: Tail, steps: seq<Step>): Tail
    decreases |steps|
  {
    if steps == [] then tail else After(Next(tail, steps[0]), steps[1..])
  }

  /** The offset stands at a line boundary, and exactly the lines up to it have been returned. */
  ghost predicate CaughtUp(tail: Tail) {
    && tail.offset <= |tail.file|
    && WholeLines(tail.file[..tail.offset])
    && tail.lines == Lines(tail.file[..tail.offset])
  }

  ghost predicate NoLineLeft(tail: Tail) {
    forall j :: tail.offset <= j < |tail.file| ==> tail.file[j] != '\n'
  }

  lemma NothingAfter(file: string, offset: nat, n: nat)
    requires offset <= |file| && n == Complete(file[offset..])
    ensures forall j :: offset + n <= j < |file| ==> file[j] != '\n'
  {
    forall j | offset + n <= j < |file| ensures file[j] != '\n' {
      assert file[j] == file[offset..][j - offset];
    }
  }

  lemma AppendKeeps(tail: Tail, text: string)
    requires CaughtUp(tail)
    ensures CaughtUp(Next(tail, Append(text)))
  {
    assert (tail.file + text)[..tail.offset] == tail.file[..tail.offset];
  }

  lemma JoinedIsCaughtUp(t: Tail, before: string, added: string, lines: seq<string>)
    requires t.offset <= |t.file| && t.file[..t.offset] == before + added
    requires WholeLines(before) && WholeLines(added) && lines == Lines(before) && t.lines == lines + Lines(added)
    ensures CaughtUp(t)
  {
    WholeLinesJoin(before, added, t.file[..t.offset]);
  }

  lemma ReadKeeps(tail: Tail, t: Tail, n: nat, added: string)
    requires CaughtUp(tail) && tail.offset + n <= |tail.file| && WholeLines(added)
    requires added == tail.file[tail.offset..][..n]
    requires t == Tail(tail.file, tail.offset + n, tail.lines + Lines(added))
    ensures CaughtUp(t)
  {
    Cut(tail.file, tail.offset, n);
    JoinedIsCaughtUp(t, tail.file[..tail.offset], added, tail.lines);
  }

  lemma StepKeeps(tail: Tail, step: Step)
    requires CaughtUp(tail)
    ensures CaughtUp(Next(tail, step))
    ensures step == Read ==> NoLineLeft(Next(tail, step))
  {
    match step
    case Append(text) => AppendKeeps(tail, text);
    case Read =>
      var n := Complete(tail.file[tail.offset..]);
      var added := tail.file[tail.offset..][..n];
      Cut(tail.file, tail.offset, n);
      ReadKeeps(tail, Next(tail, step), n, added);
      NothingAfter(tail.file, tail.offset, n);
  }

  /**
   Over any interleaving of appends and reads the offset is a line boundary and the lines returned so far are exactly
   those before it, each once and in order; right after a read no complete line is left.
   */
  lemma {:induction false} EveryLineOnce(steps: seq<Step>, tail: Tail)
    requires CaughtUp(tail)
    ensures CaughtUp(After(tail, steps))
    ensures steps != [] && steps[|steps| - 1] == Read ==>
              NoLineLeft(After(tail, steps))
    decreases |steps|
  {
    if steps != [] {
      StepKeeps(tail, steps[0]);
      EveryLineOnce(steps[1..], Next(tail, steps[0]));
      if |steps| > 1 {
        assert steps[1..][|steps| - 2] == steps[|steps| - 1];
      } else {
        assert After(tail, steps) == Next(tail, steps[0]);
      }
    }
  }
}

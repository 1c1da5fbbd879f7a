/**
 One upstream's verdict: the cell every dial and probe writes, and the turnover lines those writes leave.
 Instants are integers in milliseconds; nothing here assumes they grow.
 */
module Health {
  import opened Options

  datatype HealthState = Up | Down

  datatype VerdictCause = Probe | Dial

  datatype Verdict = Verdict(state: HealthState, changedAt: int)

  /** One observation handed to the cell: what was seen, by whom, and the stamp a turnover takes. */
  datatype Observation = Observation(state: HealthState, cause: VerdictCause, at: int)

  /** One turnover line, with the stamp the verdict took. */
  datatype Turnover = Turnover(from: HealthState, to: HealthState, cause: VerdictCause, at: int)

  /** The verdict one swap leaves: the stamp moves only when the state does. */
  function Settled(verdict: Verdict, state: HealthState, at: int): Verdict {
    Verdict(state, if verdict.state == state then verdict.changedAt else at)
  }

  /** The line one observation is worth, if any. */
  function Line(verdict: Verdict, seen: Observation): seq<Turnover> {
    if verdict.state == seen.state then [] else [Turnover(verdict.state, seen.state, seen.cause, seen.at)]
  }

  /** The shared cell, and the lines written about it in the order of the swaps. */
  class HealthHandle {
    const upstream: string
    var verdict: Verdict
    var log: seq<Turnover>

    constructor Judging(upstream: string, now: int)
      ensures this.upstream == upstream && verdict == Verdict(Down, now) && log == []
    {
      this.upstream := upstream;
      verdict := Verdict(Down, now);
      log := [];
    }

    method Settle(state: HealthState, at: int) returns (previous: Verdict)
      modifies this`verdict
      ensures previous == old(verdict) && verdict == Settled(old(verdict), state, at)
    {
      previous := verdict;
      var changedAt := previous.changedAt;
      match (previous.state, state) {
        case (Up, Up) =>
        case (Down, Down) =>
        case (Up, Down) => changedAt := at;
        case (Down, Up) => changedAt := at;
      }
      verdict := Verdict(state, changedAt);
    }

    method SetAt(state: HealthState, cause: VerdictCause, at: int)
      modifies this
      ensures verdict == Settled(old(verdict), state, at)
      ensures log == old(log) + Line(old(verdict), Observation(state, cause, at))
      ensures state == old(verdict.state) ==> verdict == old(verdict) && log == old(log)
      ensures state != old(verdict.state) ==>
                verdict == Verdict(state, at) && log == old(log) + [Turnover(old(verdict.state), state, cause, at)]
    {
      var previous := Settle(state, at);
      match (previous.state, state) {
        case (Up, Up) =>
        case (Down, Down) =>
        case (Up, Down) => log := log + [Turnover(Up, Down, cause, at)];
        case (Down, Up) => log := log + [Turnover(Down, Up, cause, at)];
      }
    }
  }

  // ---------- any run of observations on one cell ----------

  function VerdictAfter(start: Verdict, seen: seq<Observation>): Verdict {
    if seen == [] then start
    else
      var last := seen[|seen| - 1];
      Settled(VerdictAfter(start, seen[..|seen| - 1]), last.state, last.at)
  }

  function LogAfter(start: Verdict, seen: seq<Observation>): seq<Turnover> {
    if seen == [] then []
    else
      var before := seen[..|seen| - 1];
      LogAfter(start, before) + Line(VerdictAfter(start, before), seen[|seen| - 1])
  }

  /**
   The lines go back and forth: each turns the state over, the first one from `first`, each later one from where the
   last ended.
   */
  ghost predicate Alternates(first: HealthState, log: seq<Turnover>) {
    && (forall i :: 0 <= i < |log| ==> log[i].to != log[i].from)
    && (log != [] ==> log[0].from == first)
    && (forall i {:trigger log[i]} :: 0 < i < |log| ==> log[i].from == log[i - 1].to)
  }

  /** The turnover log tells the whole verdict: it alternates from down, and its last line is the verdict in force. */
  lemma {:induction false} LogTellsTheVerdict(born: int, seen: seq<Observation>)
    ensures var v := VerdictAfter(Verdict(Down, born), seen);
            var log := LogAfter(Verdict(Down, born), seen);
            && Alternates(Down, log)
            && (log == [] ==> v == Verdict(Down, born))
            && (log != [] ==> v == Verdict(log[|log| - 1].to, log[|log| - 1].at))
  {
    if seen != [] {
      var before := seen[..|seen| - 1];
      LogTellsTheVerdict(born, before);
      var log, last := LogAfter(Verdict(Down, born), before), seen[|seen| - 1];
      var v := VerdictAfter(Verdict(Down, born), before);
      var line := Line(v, last);
      assert log != [] ==> v.state == log[|log| - 1].to;
      forall i | 0 < i < |log + line| ensures (log + line)[i].from == (log + line)[i - 1].to {
        if i < |log| {
          assert log[i].from == log[i - 1].to;
        }
      }
    }
  }

  /** Where the final streak of equal observations begins. */
  function StreakStart(seen: seq<Observation>): (k: nat)
    requires seen != []
    ensures k < |seen|
    ensures forall j :: k <= j < |seen| ==> seen[j].state == seen[|seen| - 1].state
    ensures k > 0 ==> seen[k - 1].state != seen[|seen| - 1].state
  {
    var n := |seen| - 1;
    if n == 0 || seen[n - 1].state != seen[n].state then n else StreakStart(seen[..n])
  }

  /** However many confirming observations follow, the stamp stays that of the observation that opened the streak. */
  lemma {:induction false} StampIsStreakStart(start: Verdict, seen: seq<Observation>)
    requires seen != []
    ensures var v := VerdictAfter(start, seen);
            var k := StreakStart(seen);
            && v.state == seen[|seen| - 1].state
            && v.changedAt == (if k == 0 && seen[0].state == start.state then start.changedAt else seen[k].at)
  {
    var n := |seen| - 1;
    if n > 0 {
      StampIsStreakStart(start, seen[..n]);
    } else {
      assert VerdictAfter(start, seen[..n]) == start;
    }
  }
}

/**
 The same cell when the line is written some time after the swap, as it is when several tasks hold the handle:
 a caller swaps in one step and writes its line in a later one.
 */
module VerdictRace {
  import opened Health
  import Text

  datatype Race = Race(verdict: Verdict, owed: seq<Turnover>, written: seq<Turnover>)

  datatype Step =
    | Swap(seen: Observation)
    | Write(index: nat) // the caller owing this line writes it

  predicate Enabled(race: Race, step: Step) {
    step.Write? ==> step.index < |race.owed|
  }

  function Next(race: Race, step: Step): Race
    requires Enabled(race, step)
  {
    match step
    case Swap(seen) =>
      race.(verdict := Settled(race.verdict, seen.state, seen.at), owed := race.owed + Line(race.verdict, seen))
    case Write(i) =>
      race.(owed := race.owed[..i] + race.owed[i + 1..], written := race.written + [race.owed[i]])
  }

  ghost predicate Runs(race: Race, steps: seq<Step>)
    decreases |steps|
  {
    steps == [] || (Enabled(race, steps[0]) && Runs(Next(race, steps[0]), steps[1..]))
  }

  ghost function After(race: Race, steps: seq<Step>): Race
    requires Runs(race, steps)
    decreases |steps|
  {
    if steps == [] then race else After(Next(race, steps[0]), steps[1..])
  }

  function Swaps(steps: seq<Step>): seq<Observation> {
    if steps == [] then []
    else (if steps[0].Swap? then [steps[0].seen] else []) + Swaps(steps[1..])
  }

  lemma {:induction false} FoldFront(start: Verdict, head: Observation, tail: seq<Observation>)
    ensures VerdictAfter(start, [head] + tail) == VerdictAfter(Settled(start, head.state, head.at), tail)
    ensures LogAfter(start, [head] + tail) == Line(start, head) + LogAfter(Settled(start, head.state, head.at), tail)
  {
    var all := [head] + tail;
    if tail == [] {
      assert all[..0] == [];
    } else {
      FoldFront(start, head, tail[..|tail| - 1]);
      assert all[..|all| - 1] == [head] + tail[..|tail| - 1];
    }
  }

  lemma SwapConserves(race: Race, seen: Observation)
    ensures var next := Next(race, Swap(seen));
            next.written + next.owed == race.written + race.owed + Line(race.verdict, seen)
  {
    Text.Regroup(race.written, race.owed, Line(race.verdict, seen));
  }

  lemma OldestWritten(race: Race)
    requires race.owed != []
    ensures var next := Next(race, Write(0)); next.written + next.owed == race.written + race.owed
  {
    assert race.owed[..0] + race.owed[1..] == race.owed[1..];
    assert race.owed == [race.owed[0]] + race.owed[1..];
    Text.Regroup(race.written, [race.owed[0]], race.owed[1..]);
  }

  lemma WriteConserves(race: Race, i: nat)
    requires i < |race.owed|
    ensures var next := Next(race, Write(i));
            multiset(next.written + next.owed) == multiset(race.written + race.owed)
  {
    var before, line, after := race.owed[..i], [race.owed[i]], race.owed[i + 1..];
    assert race.owed == before + line + after;
    assert multiset(race.written + race.owed) == multiset(race.written) + multiset(race.owed);
    assert multiset(race.owed) == multiset(before) + multiset(line) + multiset(after);
    assert multiset(before + after) == multiset(before) + multiset(after);
    assert multiset(race.written + line) == multiset(race.written) + multiset(line);
  }

  lemma StepConserves(race: Race, step: Step)
    requires Enabled(race, step)
    ensures var next := Next(race, step);
            var line := if step.Swap? then Line(race.verdict, step.seen) else [];
            && multiset(next.written + next.owed) == multiset(race.written + race.owed + line)
            && ((step.Write? ==> step.index == 0) ==> next.written + next.owed == race.written + race.owed + line)
  {
    match step
    case Swap(seen) => SwapConserves(race, seen);
    case Write(i) =>
      assert race.written + race.owed + [] == race.written + race.owed;
      WriteConserves(race, i);
      if i == 0 {
        OldestWritten(race);
      }
  }

  lemma SwapsFront(race: Race, steps: seq<Step>)
    requires Runs(race, steps) && steps != []
    ensures var step, later := steps[0], Swaps(steps[1..]);
            var next := Next(race, step);
            var line := if step.Swap? then Line(race.verdict, step.seen) else [];
            && VerdictAfter(race.verdict, Swaps(steps)) == VerdictAfter(next.verdict, later)
            && LogAfter(race.verdict, Swaps(steps)) == line + LogAfter(next.verdict, later)
  {
    match steps[0]
    case Swap(seen) => FoldFront(race.verdict, seen, Swaps(steps[1..]));
    case Write(_) => assert Swaps(steps) == Swaps(steps[1..]);
  }

  /** No turnover is lost or repeated: written lines and lines still owed are together those of the swaps. */
  lemma {:induction false} LinesConserved(race: Race, steps: seq<Step>)
    requires Runs(race, steps)
    ensures var end := After(race, steps);
            && end.verdict == VerdictAfter(race.verdict, Swaps(steps))
            && multiset(end.written + end.owed)
               == multiset(race.written + race.owed) + multiset(LogAfter(race.verdict, Swaps(steps)))
    decreases |steps|
  {
    if steps != [] {
      StepConserves(race, steps[0]);
      SwapsFront(race, steps);
      LinesConserved(Next(race, steps[0]), steps[1..]);
    }
  }

  predicate OldestFirst(steps: seq<Step>) {
    forall i :: 0 <= i < |steps| && steps[i].Write? ==> steps[i].index == 0
  }

  /** The lines of the whole run in the order of their swaps. */
  ghost function SwapOrder(race: Race, steps: seq<Step>): seq<Turnover> {
    race.written + race.owed + LogAfter(race.verdict, Swaps(steps))
  }

  lemma OrderStands(race: Race, steps: seq<Step>)
    requires Runs(race, steps) && steps != [] && (steps[0].Write? ==> steps[0].index == 0)
    ensures SwapOrder(Next(race, steps[0]), steps[1..]) == SwapOrder(race, steps)
  {
    var next := Next(race, steps[0]);
    var line := if steps[0].Swap? then Line(race.verdict, steps[0].seen) else [];
    StepConserves(race, steps[0]);
    SwapsFront(race, steps);
    Text.Regroup(race.written + race.owed, line, LogAfter(next.verdict, Swaps(steps[1..])));
  }

  /** When lines are written oldest first, the file is the swap order; nothing else in the code enforces that order. */
  lemma {:induction false} OldestFirstKeepsSwapOrder(race: Race, steps: seq<Step>)
    requires Runs(race, steps) && OldestFirst(steps)
    ensures After(race, steps).written + After(race, steps).owed == SwapOrder(race, steps)
    decreases |steps|
  {
    if steps == [] {
      assert race.written + race.owed + [] == race.written + race.owed;
    } else {
      assert steps[0].Write? ==> steps[0].index == 0;
      OrderStands(race, steps);
      OldestFirstKeepsSwapOrder(Next(race, steps[0]), steps[1..]);
    }
  }

  lemma {:induction false} WrittenStays(race: Race, steps: seq<Step>)
    requires Runs(race, steps)
    ensures race.written <= After(race, steps).written
    decreases |steps|
  {
    if steps != [] {
      WrittenStays(Next(race, steps[0]), steps[1..]);
    }
  }

  lemma LateLineShows(race: Race, steps: seq<Step>)
    requires Runs(race, steps) && steps != [] && steps[0].Write? && steps[0].index > 0
    requires race.owed[steps[0].index] != race.owed[0]
    ensures After(race, steps).written + After(race, steps).owed != SwapOrder(race, steps)
  {
    var n := |race.written|;
    WrittenStays(Next(race, steps[0]), steps[1..]);
    assert Next(race, steps[0]).written[n] == race.owed[steps[0].index];
    assert SwapOrder(race, steps)[n] == race.owed[0];
  }

  ghost predicate NoTwins(lines: seq<Turnover>) {
    forall i, j :: 0 <= i < j < |lines| ==> lines[i] != lines[j]
  }

  /** As long as no two lines are alike, the file is in swap order exactly when every line is written oldest first. */
  lemma {:induction false} SwapOrderExactly(race: Race, steps: seq<Step>)
    requires Runs(race, steps) && NoTwins(SwapOrder(race, steps))
    ensures After(race, steps).written + After(race, steps).owed == SwapOrder(race, steps) <==> OldestFirst(steps)
    decreases |steps|
  {
    if steps == [] {
      assert race.written + race.owed + [] == race.written + race.owed;
    } else if steps[0].Write? && steps[0].index > 0 {
      var n, i := |race.written|, steps[0].index;
      assert SwapOrder(race, steps)[n] == race.owed[0] && SwapOrder(race, steps)[n + i] == race.owed[i];
      LateLineShows(race, steps);
      assert !OldestFirst(steps);
    } else {
      OrderStands(race, steps);
      SwapOrderExactly(Next(race, steps[0]), steps[1..]);
      assert OldestFirst(steps) <==> OldestFirst(steps[1..]) by {
        assert forall k :: 0 < k < |steps| ==> steps[k] == steps[1..][k - 1];
        assert forall k :: 0 <= k < |steps| - 1 ==> steps[1..][k] == steps[k + 1];
      }
    }
  }

  // ---------- which calls may overlap ----------

  predicate OnlyWrites(steps: seq<Step>) {
    forall i :: 0 <= i < |steps| ==> steps[i].Write?
  }

  /** The lines so far go back and forth in the order of their swaps, and end where the verdict is. */
  ghost predicate InOrder(race: Race, first: HealthState) {
    var lines := race.written + race.owed;
    Alternates(first, lines) && race.verdict.state == if lines == [] then first else lines[|lines| - 1].to
  }

  /** However the lines still owed are written, the file goes back and forth throughout. */
  ghost predicate SafeToWrite(race: Race, first: HealthState) {
    forall steps :: OnlyWrites(steps) && Runs(race, steps) ==> Alternates(first, After(race, steps).written)
  }

  lemma PrefixAlternates(first: HealthState, log: seq<Turnover>, n: nat)
    requires Alternates(first, log) && n <= |log|
    ensures Alternates(first, log[..n])
  {
    forall i | 0 < i < n ensures log[..n][i].from == log[..n][i - 1].to {
      assert log[i].from == log[i - 1].to;
    }
  }

  lemma {:induction false} OneOwedAlternates(race: Race, first: HealthState, steps: seq<Step>)
    requires Alternates(first, race.written + race.owed) && |race.owed| <= 1
    requires OnlyWrites(steps) && Runs(race, steps)
    ensures Alternates(first, After(race, steps).written)
    decreases |steps|
  {
    if steps == [] {
      PrefixAlternates(first, race.written + race.owed, |race.written|);
      assert (race.written + race.owed)[..|race.written|] == race.written;
    } else {
      assert steps[0].Write?;
      OldestWritten(race);
      OneOwedAlternates(Next(race, steps[0]), first, steps[1..]);
    }
  }

  lemma SecondFirstBreaks(race: Race, first: HealthState)
    requires Alternates(first, race.written + race.owed) && |race.owed| >= 2
    ensures !SafeToWrite(race, first)
  {
    var n, lines, steps := |race.written|, race.written + race.owed, [Write(1)];
    var next := Next(race, Write(1));
    assert steps[1..] == [] && Runs(next, []) && Runs(race, steps) && OnlyWrites(steps);
    assert After(race, steps) == next && next.written == race.written + [race.owed[1]];
    assert lines[n] == race.owed[0] && lines[n + 1] == race.owed[1] && lines[n + 1].from == lines[n].to;
    var late := next.written[n];
    assert late == lines[n + 1] && late.from == lines[n].to != lines[n].from;
    if n == 0 {
      assert late.from != first && next.written[0] == late;
    } else {
      assert lines[n].from == lines[n - 1].to && lines[n - 1] == next.written[n - 1];
      assert next.written[n].from != next.written[n - 1].to;
    }
    assert !Alternates(first, After(race, steps).written);
  }

  /** The file is safe however the owed lines are written exactly when at most one is owed. */
  lemma SafeExactly(race: Race, first: HealthState)
    requires Alternates(first, race.written + race.owed)
    ensures SafeToWrite(race, first) <==> |race.owed| <= 1
  {
    if |race.owed| <= 1 {
      forall steps | OnlyWrites(steps) && Runs(race, steps) ensures Alternates(first, After(race, steps).written) {
        OneOwedAlternates(race, first, steps);
      }
    } else {
      SecondFirstBreaks(race, first);
    }
  }

  /**
   Which calls may overlap: with at most one line owed, an observation leaves the file safe exactly when it turns
   nothing over or finds no line of another call still unwritten.
   */
  lemma OverlapExactly(race: Race, first: HealthState, seen: Observation)
    requires InOrder(race, first) && |race.owed| <= 1
    ensures InOrder(Next(race, Swap(seen)), first)
    ensures SafeToWrite(Next(race, Swap(seen)), first) <==> race.owed == [] || race.verdict.state == seen.state
  {
    var next, lines := Next(race, Swap(seen)), race.written + race.owed;
    SwapConserves(race, seen);
    assert lines + [] == lines;
    var grown := next.written + next.owed;
    forall i | 0 < i < |grown| ensures grown[i].from == grown[i - 1].to {
      if i < |lines| {
        assert lines[i].from == lines[i - 1].to;
      }
    }
    SafeExactly(next, first);
  }

  /** Two racing callers can leave the file saying up-to-down before it ever said down-to-up. */
  lemma FileOrderMayDiffer()
    ensures var start := Race(Verdict(Down, 0), [], []);
            var steps := [Swap(Observation(Up, Dial, 1)), Swap(Observation(Down, Dial, 2)), Write(1), Write(0)];
            && Runs(start, steps)
            && After(start, steps).owed == []
            && !Alternates(Down, After(start, steps).written)
  {
    var start := Race(Verdict(Down, 0), [], []);
    var up, down := Observation(Up, Dial, 1), Observation(Down, Dial, 2);
    var steps := [Swap(up), Swap(down), Write(1), Write(0)];
    var r1 := Next(start, steps[0]);
    var r2 := Next(r1, steps[1]);
    var r3 := Next(r2, steps[2]);
    var r4 := Next(r3, steps[3]);
    assert steps[1..] == [Swap(down), Write(1), Write(0)];
    assert steps[1..][1..] == [Write(1), Write(0)];
    assert steps[1..][1..][1..] == [Write(0)];
    assert steps[1..][1..][1..][1..] == [];
    assert Runs(r4, []) && Runs(r3, [Write(0)]) && Runs(r2, [Write(1), Write(0)]);
    assert Runs(r1, steps[1..]) && Runs(start, steps);
    assert After(r4, []) == r4 && After(r3, [Write(0)]) == r4;
    assert After(r2, [Write(1), Write(0)]) == r4 && After(r1, steps[1..]) == r4;
    assert After(start, steps).written[0] == Turnover(Up, Down, Dial, 2);
  }
}

/** When, exactly, an entry that is up loses new connections to one ranked below it. */
module Displacement {
  import opened Options
  import opened Health
  import opened Upstreams
  import opened Entries
  import opened Lineage
  import opened Switching
  import opened Patrol
  import opened Failover
  import opened FailoverRuns
  import Selecting

  /** Entry `i` of the list is up and nothing ranked below it would be chosen over it. */
  ghost predicate Outranks(pace: Pace, s: State, list: List, i: nat)
    requires Judged(s, list)
  {
    Selecting.Outranks(Verdicts(s, list), s.now, pace.hold, i)
  }

  ghost predicate RankedBelow(list: List, i: nat, h: Handle) {
    exists k :: i < k < |list.entries| && list.entries[k].health == h
  }

  /**
   The step is a probe of the pass under way that closes a sequence up for an entry ranked below `i`, in a pass that
   began before `i` settled, while `i` has not held.
   */
  ghost predicate Overtakes(pace: Pace, s: State, step: Step, list: List, i: nat)
    requires Judged(s, list) && i < |list.entries| && Enabled(s, step)
  {
    && step.Probed? && step.seen == Up
    && var settled, probed := s.cells[list.entries[i].health], s.phase.probed.entries[step.index].health;
       && s.phase.started < settled.changedAt && !Selecting.UpHeld(settled, s.now, pace.hold)
       && RankedBelow(list, i, probed)
       && s.cells[probed].state == Down && Pending(Up, probed) in s.pending
  }

  // ---------- one step ----------

  /** How one step moves one cell: not at all, to a stamp at the clock, or as the probe of a closed sequence. */
  lemma CellStep(pace: Pace, s: State, step: Step, h: Handle)
    requires ListsGood(s) && StampsGood(s) && OnePerHandle(s.pending) && Enabled(s, step) && h in s.cells
    ensures var t := Next(pace, s, step);
            && h in t.cells && s.now <= t.now
            && (t.cells[h] == s.cells[h]
                || (t.now == s.now == t.cells[h].changedAt && step.Answer?)
                || (t.now == s.now && step.Probed? && s.phase.probed.entries[step.index].health == h
                    && s.cells[h].state != step.seen && Pending(step.seen, h) in s.pending
                    && t.cells[h] == Verdict(step.seen, s.phase.started)))
  {
    match step
    case Probed(i, seen) =>
      BankedExactly(s.pending, s.phase.probed.entries[i].health, seen);
      assert Next(pace, s, step) == Heard(s, i, seen);
    case Publish(list) => assert h < s.bound;
    case Answer(dial, _) => assert s.now == Next(pace, s, step).now;
    case _ =>
  }

  lemma NoProbeKeepsOutranking(pace: Pace, s: State, step: Step, list: List, i: nat)
    requires ListsGood(s) && StampsGood(s) && OnePerHandle(s.pending) && Enabled(s, step)
    requires Judged(s, list) && i < |list.entries| && Judged(Next(pace, s, step), list)
    requires Next(pace, s, step).cells[list.entries[i].health] == s.cells[list.entries[i].health]
    requires Outranks(pace, s, list, i) && !Overtakes(pace, s, step, list, i)
    ensures Outranks(pace, Next(pace, s, step), list, i)
  {
    var t := Next(pace, s, step);
    var before, after := Verdicts(s, list), Verdicts(t, list);
    CellStep(pace, s, step, list.entries[i].health);
    if !Selecting.UpHeld(after[i], t.now, pace.hold) {
      assert !Selecting.UpHeld(before[i], s.now, pace.hold);
      forall k | i < k < |after| && after[k].state == Up ensures after[i].changedAt <= after[k].changedAt {
        var g := list.entries[k].health;
        CellStep(pace, s, step, g);
        if after[k] != before[k] && step.Probed? {
          assert RankedBelow(list, i, g);
        }
      }
    }
  }

  /**
   One step that leaves the verdict of entry `i` standing takes its rank over all below it away exactly when it
   overtakes it.
   */
  lemma OvertakingExactly(pace: Pace, s: State, step: Step, list: List, i: nat)
    requires ListsGood(s) && StampsGood(s) && OnePerHandle(s.pending) && Enabled(s, step)
    requires Judged(s, list) && i < |list.entries| && Judged(Next(pace, s, step), list)
    requires Next(pace, s, step).cells[list.entries[i].health] == s.cells[list.entries[i].health]
    requires Outranks(pace, s, list, i)
    ensures Outranks(pace, Next(pace, s, step), list, i) <==> !Overtakes(pace, s, step, list, i)
  {
    var t := Next(pace, s, step);
    if Overtakes(pace, s, step, list, i) {
      var g := s.phase.probed.entries[step.index].health;
      var k :| i < k < |list.entries| && list.entries[k].health == g;
      BankedExactly(s.pending, g, Up);
      assert Verdicts(t, list)[k] == Verdict(Up, s.phase.started);
      assert Verdicts(t, list)[i] == Verdicts(s, list)[i];
    } else {
      NoProbeKeepsOutranking(pace, s, step, list, i);
    }
  }

  /**
   The overtaking probe, seen from the choice: nothing ranked at or above `i` moves, and entry `k` came up before it.
   */
  lemma OvertakenIsPassedOver(pace: Pace, s: State, step: Step, seen: Snapshot<Handle>, i: nat)
    requires ListsGood(s) && OnePerHandle(s.pending) && Known(s, seen) && Judged(s, seen.list) && Enabled(s, step)
    requires i < |seen.list.entries| && Choice(pace, s, seen.list) == Some(i)
    requires Overtakes(pace, s, step, seen.list, i) && Judged(Next(pace, s, step), seen.list)
    ensures var choice := Choice(pace, Next(pace, s, step), seen.list); choice.Some? && choice.value > i
  {
    var list, t := seen.list, Next(pace, s, step);
    var before, after := Verdicts(s, list), Verdicts(t, list);
    var g := s.phase.probed.entries[step.index].health;
    var k :| i < k < |list.entries| && list.entries[k].health == g;
    BankedExactly(s.pending, g, Up);
    assert after[k] == Verdict(Up, s.phase.started);
    forall j | 0 <= j <= i ensures after[j] == before[j] {
      KnownIsPublished(s, seen);
      DistinctHandles(s, list, j, k);
    }
    Selecting.SelectionIsTheChoice(before, s.now, pace.hold, Some(i));
    assert Selecting.CameUpBefore(after, k, i);
    Selecting.PassedOverExactly(after, t.now, pace.hold, i);
  }

  lemma KnownIsPublished(s: State, seen: Snapshot<Handle>)
    requires s.lists != [] && s.lists[0] == UpstreamEntries([], 0) && Known(s, seen)
    ensures seen.list in s.lists
  {
  }

  /**
   In every reachable state with entry `i` of a list selected, a step that leaves its verdict standing displaces it
   downwards exactly when it overtakes it.
   */
  lemma DisplacedDownwardsExactly(pace: Pace, s: State, step: Step, seen: Snapshot<Handle>, i: nat)
    requires Reachable(pace, s) && Enabled(s, step) && Known(s, seen) && Judged(s, seen.list)
    requires Choice(pace, s, seen.list) == Some(i) && i < |seen.list.entries|
    requires var h := seen.list.entries[i].health; h in s.cells && Next(pace, s, step).cells[h] == s.cells[h]
    ensures var t := Next(pace, s, step);
            && Judged(t, seen.list) && Choice(pace, t, seen.list).Some?
            && (Choice(pace, t, seen.list).value > i <==> Overtakes(pace, s, step, seen.list, i))
  {
    ReachableKeeps(pace, s);
    ListsKept(pace, s, step);
    var t := Next(pace, s, step);
    Selecting.OutranksKeepsTheChoice(Verdicts(s, seen.list), s.now, pace.hold, i);
    OvertakingExactly(pace, s, step, seen.list, i);
    Selecting.OutranksKeepsTheChoice(Verdicts(t, seen.list), t.now, pace.hold, i);
    if Overtakes(pace, s, step, seen.list, i) {
      OvertakenIsPassedOver(pace, s, step, seen, i);
    }
  }

  // ---------- whole runs ----------

  /** The verdict of `h` is `v` in every state of the run. */
  ghost predicate StandsThroughout(pace: Pace, s: State, steps: seq<Step>, h: Handle, v: Verdict)
    requires Runs(pace, s, steps)
    decreases |steps|
  {
    && h in s.cells && s.cells[h] == v
    && (steps == [] || StandsThroughout(pace, Next(pace, s, steps[0]), steps[1..], h, v))
  }

  /** In every state of the run entry `i` outranks all below it, so the choice is `i` or one above it. */
  ghost predicate OutranksThroughout(pace: Pace, s: State, steps: seq<Step>, list: List, i: nat)
    requires Runs(pace, s, steps)
    decreases |steps|
  {
    && Judged(s, list) && i < |list.entries| && Outranks(pace, s, list, i)
    && (steps == [] || OutranksThroughout(pace, Next(pace, s, steps[0]), steps[1..], list, i))
  }

  /** No step of the run overtakes entry `i`. */
  ghost predicate NoneOvertakes(pace: Pace, s: State, steps: seq<Step>, list: List, i: nat)
    requires Runs(pace, s, steps)
    decreases |steps|
  {
    steps == []
    || (&& Judged(s, list) && i < |list.entries| && !Overtakes(pace, s, steps[0], list, i)
        && NoneOvertakes(pace, Next(pace, s, steps[0]), steps[1..], list, i))
  }

  ghost predicate AtOrAboveThroughout(pace: Pace, s: State, steps: seq<Step>, list: List, i: nat)
    requires Runs(pace, s, steps)
    decreases |steps|
  {
    && Judged(s, list) && Choice(pace, s, list).Some? && Choice(pace, s, list).value <= i
    && (steps == [] || AtOrAboveThroughout(pace, Next(pace, s, steps[0]), steps[1..], list, i))
  }

  lemma {:induction false} OutranksThroughoutExactly(
    pace: Pace, s: State, steps: seq<Step>, seen: Snapshot<Handle>, i: nat, v: Verdict)
    requires Inv(pace, s) && Runs(pace, s, steps) && Known(s, seen) && Judged(s, seen.list) && i < |seen.list.entries|
    requires Outranks(pace, s, seen.list, i) && StandsThroughout(pace, s, steps, seen.list.entries[i].health, v)
    ensures OutranksThroughout(pace, s, steps, seen.list, i) <==> NoneOvertakes(pace, s, steps, seen.list, i)
    decreases |steps|
  {
    if steps != [] {
      var t := Next(pace, s, steps[0]);
      StepKeeps(pace, s, steps[0]);
      ListsKept(pace, s, steps[0]);
      KnownGrows(s, t, seen);
      assert StandsThroughout(pace, t, steps[1..], seen.list.entries[i].health, v);
      OvertakingExactly(pace, s, steps[0], seen.list, i);
      if !Overtakes(pace, s, steps[0], seen.list, i) {
        OutranksThroughoutExactly(pace, t, steps[1..], seen, i, v);
      } else if steps[1..] == [] {
        assert !Outranks(pace, t, seen.list, i);
      }
    }
  }

  lemma {:induction false} OutranksMeansAtOrAbove(pace: Pace, s: State, steps: seq<Step>, list: List, i: nat)
    requires Runs(pace, s, steps) && OutranksThroughout(pace, s, steps, list, i)
    ensures AtOrAboveThroughout(pace, s, steps, list, i)
    decreases |steps|
  {
    Selecting.OutranksKeepsTheChoice(Verdicts(s, list), s.now, pace.hold, i);
    if steps != [] {
      OutranksMeansAtOrAbove(pace, Next(pace, s, steps[0]), steps[1..], list, i);
    }
  }

  /**
   Over any run in which the verdict of the selected entry stands throughout, it is never displaced by a lower-ranked
   one - among itself and the entries below it, it stays the one selected - exactly when no step overtakes it; and then
   the choice is that entry or a higher-ranked one in every state.
   */
  lemma NeverDisplacedDownwards(pace: Pace, s: State, steps: seq<Step>, seen: Snapshot<Handle>, i: nat)
    requires Reachable(pace, s) && Runs(pace, s, steps) && Known(s, seen) && Judged(s, seen.list)
    requires Choice(pace, s, seen.list) == Some(i) && i < |seen.list.entries|
    requires var h := seen.list.entries[i].health; StandsThroughout(pace, s, steps, h, s.cells[h])
    ensures OutranksThroughout(pace, s, steps, seen.list, i) <==> NoneOvertakes(pace, s, steps, seen.list, i)
    ensures NoneOvertakes(pace, s, steps, seen.list, i) ==> AtOrAboveThroughout(pace, s, steps, seen.list, i)
  {
    ReachableKeeps(pace, s);
    Selecting.OutranksKeepsTheChoice(Verdicts(s, seen.list), s.now, pace.hold, i);
    OutranksThroughoutExactly(pace, s, steps, seen, i, s.cells[seen.list.entries[i].health]);
    if NoneOvertakes(pace, s, steps, seen.list, i) {
      OutranksMeansAtOrAbove(pace, s, steps, seen.list, i);
    }
  }

  // ---------- before the run ----------

  /**
   A pass that began before entry `i` settled is still to hear a probe that may close a sequence up for one below it.
   */
  ghost predicate AtRisk(pace: Pace, s: State, list: List, i: nat)
    requires Judged(s, list) && i < |list.entries|
  {
    var settled := s.cells[list.entries[i].health];
    && s.phase.Probing? && s.phase.started < settled.changedAt && !Selecting.UpHeld(settled, s.now, pace.hold)
    && exists p :: p in s.phase.awaiting && p < |s.phase.probed.entries|
                   && Pending(Up, s.phase.probed.entries[p].health) in s.pending
                   && RankedBelow(list, i, s.phase.probed.entries[p].health)
  }

  lemma RiskDoesNotArise(pace: Pace, s: State, step: Step, list: List, i: nat)
    requires StampsGood(s) && Enabled(s, step) && Judged(s, list) && Judged(Next(pace, s, step), list)
    requires i < |list.entries| && !AtRisk(pace, s, list, i)
    requires Next(pace, s, step).cells[list.entries[i].health] == s.cells[list.entries[i].health]
    ensures !AtRisk(pace, Next(pace, s, step), list, i) && !Overtakes(pace, s, step, list, i)
  {
    var t := Next(pace, s, step);
    assert s.now <= t.now;
    if s.phase.Probing? && t.phase.Probing? {
      assert t.phase.started == s.phase.started && t.phase.probed == s.phase.probed && t.pending == s.pending;
      assert t.phase.awaiting <= s.phase.awaiting;
    }
  }

  /** Without that risk in the state it starts from, no run overtakes the entry while its verdict stands. */
  lemma {:induction false} NoRiskNoOvertaking(
    pace: Pace, s: State, steps: seq<Step>, list: List, i: nat, v: Verdict)
    requires Inv(pace, s) && Runs(pace, s, steps) && Judged(s, list) && i < |list.entries|
    requires !AtRisk(pace, s, list, i) && StandsThroughout(pace, s, steps, list.entries[i].health, v)
    ensures NoneOvertakes(pace, s, steps, list, i)
    decreases |steps|
  {
    if steps != [] {
      StepKeeps(pace, s, steps[0]);
      ListsKept(pace, s, steps[0]);
      assert StandsThroughout(pace, Next(pace, s, steps[0]), steps[1..], list.entries[i].health, v);
      RiskDoesNotArise(pace, s, steps[0], list, i);
      NoRiskNoOvertaking(pace, Next(pace, s, steps[0]), steps[1..], list, i, v);
    }
  }

  // ---------- an entry brought up by a dial ----------

  /** While nothing is up, a dial through entry `i` that finds the upstream serving makes it the one selected. */
  lemma ServingDialIsSelected(pace: Pace, s: State, dial: nat, outcome: Outcome, i: nat)
    requires Reachable(pace, s) && Enabled(s, Answer(dial, outcome)) && (outcome == Connected || outcome == Destination)
    requires Judged(s, LiveList(s)) && Choice(pace, s, LiveList(s)) == None
    requires i < |LiveList(s).entries| && s.dials[dial].entry.health == LiveList(s).entries[i].health
    ensures var t := Next(pace, s, Answer(dial, outcome));
            && LiveList(t) == LiveList(s) && Judged(t, LiveList(t)) && Choice(pace, t, LiveList(t)) == Some(i)
            && t.cells[LiveList(t).entries[i].health] == Verdict(Up, s.now)
  {
    ReachableKeeps(pace, s);
    var list, t := LiveList(s), AnsweredDial(s, dial, outcome);
    var before, after := Verdicts(s, list), Verdicts(t, list);
    Selecting.SelectionIsTheChoice(before, s.now, pace.hold, None);
    assert before[i].state == Down && after[i] == Verdict(Up, s.now);
    forall j | 0 <= j < |after| && j != i ensures after[j] == before[j] {
      DistinctHandles(s, list, i, j);
    }
    Selecting.OnlyUpIsSelected(after, t.now, pace.hold, i);
  }

  /**
   From then on, over any run in which its verdict stands: it is never displaced by a lower-ranked entry exactly when no
   step overtakes it - and none does unless a pass that began before the dial ended was out when it did.
   */
  lemma ServingDialStaysSelected(
    pace: Pace, s: State, dial: nat, outcome: Outcome, i: nat, steps: seq<Step>)
    requires Reachable(pace, s) && Enabled(s, Answer(dial, outcome)) && (outcome == Connected || outcome == Destination)
    requires Judged(s, LiveList(s)) && Choice(pace, s, LiveList(s)) == None
    requires i < |LiveList(s).entries| && s.dials[dial].entry.health == LiveList(s).entries[i].health
    requires var t := Next(pace, s, Answer(dial, outcome));
             Runs(pace, t, steps)
             && StandsThroughout(pace, t, steps, LiveList(s).entries[i].health, Verdict(Up, s.now))
    ensures var t, list := Next(pace, s, Answer(dial, outcome)), LiveList(s);
            && (OutranksThroughout(pace, t, steps, list, i) <==> NoneOvertakes(pace, t, steps, list, i))
            && (NoneOvertakes(pace, t, steps, list, i) ==> AtOrAboveThroughout(pace, t, steps, list, i))
            && ((s.phase.Probing? ==> s.phase.started == s.now) ==> NoneOvertakes(pace, t, steps, list, i))
  {
    var t, list := Next(pace, s, Answer(dial, outcome)), LiveList(s);
    ServingDialIsSelected(pace, s, dial, outcome, i);
    ReachableExtends(pace, s, Answer(dial, outcome));
    assert Live(t) == SnapshotOf(t, |t.lists| - 1);
    NeverDisplacedDownwards(pace, t, steps, Live(t), i);
    if s.phase.Probing? ==> s.phase.started == s.now {
      ReachableKeeps(pace, t);
      NoRiskNoOvertaking(pace, t, steps, list, i, Verdict(Up, s.now));
    }
  }
}

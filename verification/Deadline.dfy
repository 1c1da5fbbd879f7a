/** How soon the patrol alone settles a verdict on what its probes keep seeing. */
module Deadline {
  import opened Options
  import opened Health
  import opened Entries
  import opened Lineage
  import opened Patrol
  import opened Failover
  import opened FailoverRuns
  import Selecting

  /**
   One step of a run in which the list stays put, no dial writes the cell of `h`, every probe of `h` reports, and those
   reporting at or after `since` see `target`.
   */
  ghost predicate Undisturbed(s: State, step: Step, h: Handle, since: int, target: HealthState)
    requires Enabled(s, step)
  {
    match step
    case Publish(_) => false
    case Answer(dial, outcome) => s.dials[dial].entry.health == h ==> outcome == Unsent
    case Probed(i, seen) => s.phase.probed.entries[i].health == h && s.now >= since ==> seen == target
    case Lost(i) => i < |s.phase.probed.entries| ==> s.phase.probed.entries[i].health != h
    case _ => true
  }

  ghost predicate UndisturbedRun(pace: Pace, s: State, steps: seq<Step>, h: Handle, since: int, target: HealthState)
    requires Runs(pace, s, steps)
    decreases |steps|
  {
    steps == []
    || (Undisturbed(s, steps[0], h, since, target)
        && UndisturbedRun(pace, Next(pace, s, steps[0]), steps[1..], h, since, target))
  }

  function LongestWait(pace: Pace): nat {
    Longer(pace.interval, pace.confirmDelay)
  }

  /**
   How long after `since` a pass already out may stay out with its probe of the entry heard or not its own: one probe
   timeout, and nothing when the list has one entry and the pass is over that list.
   */
  predicate Slacks(list: List, slack: nat) {
    slack == PROBE_TIMEOUT || (slack == 0 && |list.entries| == 1)
  }

  /** The last instant at which the first probe heard at or after `since` may have gone out. */
  function FirstProbeBy(pace: Pace, slack: nat, since: int): int {
    since + slack + LongestWait(pace)
  }

  /** The last instant at which the probe confirming it may have gone out. */
  function SecondProbeBy(pace: Pace, slack: nat, since: int): int {
    FirstProbeBy(pace, slack, since) + PROBE_TIMEOUT + pace.confirmDelay
  }

  /** The last instant at which the verdict may not be settled. */
  function SettledBy(pace: Pace, slack: nat, since: int): int {
    SecondProbeBy(pace, slack, since) + PROBE_TIMEOUT
  }

  /** A pass that is out is over the list in force. */
  ghost predicate UpToDate(s: State)
    requires s.lists != []
  {
    s.phase.Probing? ==> s.phase.probed == LiveList(s)
  }

  /** A pass over a replaced list is still out. */
  ghost predicate Outdated(s: State, slack: nat, since: int)
    requires s.lists != []
  {
    !UpToDate(s) && s.phase.started <= since && slack == PROBE_TIMEOUT
  }

  /** No probe of entry `e` has been heard since, and the next one goes out in time. */
  ghost predicate Unheard(pace: Pace, s: State, slack: nat, e: nat, since: int) {
    match s.phase
    case Sleeping(until) => until <= FirstProbeBy(pace, slack, since)
    case Probing(started, _, awaiting, _) =>
      if e in awaiting then started <= FirstProbeBy(pace, slack, since)
      else started <= since && (slack == 0 ==> s.now <= since)
  }

  /** One probe of entry `e` has opened a sequence, and the one to close it goes out in time. */
  ghost predicate HalfWay(pace: Pace, s: State, slack: nat, e: nat, since: int, target: HealthState)
    requires s.lists != [] && e < |LiveList(s).entries|
  {
    var mine := Pending(target, LiveList(s).entries[e].health);
    match s.phase
    case Sleeping(until) => mine in s.pending && until <= SecondProbeBy(pace, slack, since)
    case Probing(started, _, awaiting, next) =>
      if e in awaiting then mine in s.pending && started <= SecondProbeBy(pace, slack, since)
      else mine in next && started <= FirstProbeBy(pace, slack, since)
  }

  /** The verdict is settled on `target`, and was in time. */
  ghost predicate SettledOn(pace: Pace, s: State, slack: nat, h: Handle, since: int, target: HealthState)
    requires h in s.cells
  {
    s.now >= since && s.cells[h].state == target && s.cells[h].changedAt <= SettledBy(pace, slack, since)
  }

  ghost predicate Progress(pace: Pace, s: State, slack: nat, e: nat, since: int, target: HealthState) {
    && s.lists != [] && e < |LiveList(s).entries| && Slacks(LiveList(s), slack)
    && LiveList(s).entries[e].health in s.cells
    && (|| SettledOn(pace, s, slack, LiveList(s).entries[e].health, since, target)
        || Outdated(s, slack, since)
        || (UpToDate(s) && Unheard(pace, s, slack, e, since))
        || (UpToDate(s) && s.now >= since && HalfWay(pace, s, slack, e, since, target)))
  }

  lemma HearingOutdated(
    pace: Pace, s: State, i: nat, seen: HealthState, slack: nat, e: nat, since: int, target: HealthState)
    requires Progress(pace, s, slack, e, since, target) && Enabled(s, Probed(i, seen))
    requires Undisturbed(s, Probed(i, seen), LiveList(s).entries[e].health, since, target)
    requires SettledOn(pace, s, slack, LiveList(s).entries[e].health, since, target) || Outdated(s, slack, since)
    ensures Progress(pace, Next(pace, s, Probed(i, seen)), slack, e, since, target)
  {
    var t := Heard(s, i, seen);
    assert LiveList(t) == LiveList(s) && t.now == s.now;
  }

  lemma HearingProgresses(
    pace: Pace, s: State, i: nat, seen: HealthState, slack: nat, e: nat, since: int, target: HealthState)
    requires Inv(pace, s) && Progress(pace, s, slack, e, since, target) && Enabled(s, Probed(i, seen)) && UpToDate(s)
    requires Undisturbed(s, Probed(i, seen), LiveList(s).entries[e].health, since, target)
    requires !SettledOn(pace, s, slack, LiveList(s).entries[e].health, since, target)
    ensures Progress(pace, Next(pace, s, Probed(i, seen)), slack, e, since, target)
  {
    var h := LiveList(s).entries[e].health;
    DistinctHandles(s, LiveList(s), i, e);
    BankedExactly(s.pending, h, target);
    var t := Heard(s, i, seen);
    assert LiveList(t) == LiveList(s) && t.now == s.now;
    if i == e && s.now >= since {
      assert seen == target && t.cells[h].changedAt <= s.now <= s.phase.started + PROBE_TIMEOUT;
      if t.cells[h].state != target {
        assert Pending(target, h) !in s.pending;
        assert Unheard(pace, s, slack, e, since);
        assert HalfWay(pace, t, slack, e, since, target);
      }
    }
  }

  lemma TickProgresses(pace: Pace, s: State, elapsed: nat, slack: nat, e: nat, since: int, target: HealthState)
    requires Inv(pace, s) && Progress(pace, s, slack, e, since, target) && Enabled(s, Tick(elapsed))
    ensures Progress(pace, Next(pace, s, Tick(elapsed)), slack, e, since, target)
  {
    if s.phase.Probing? && |LiveList(s).entries| == 1 && UpToDate(s) {
      var i :| i in s.phase.awaiting;
      assert i == 0 == e;
    }
  }

  lemma PassProgresses(pace: Pace, s: State, step: Step, slack: nat, e: nat, since: int, target: HealthState)
    requires Inv(pace, s) && Progress(pace, s, slack, e, since, target) && Enabled(s, step)
    requires step.BeginPass? || step.EndPass?
    ensures Progress(pace, Next(pace, s, step), slack, e, since, target)
  {
    assert LiveList(Next(pace, s, step)) == LiveList(s);
  }

  lemma DialProgresses(pace: Pace, s: State, step: Step, slack: nat, e: nat, since: int, target: HealthState)
    requires Progress(pace, s, slack, e, since, target) && Enabled(s, step)
    requires step.Snap? || step.Route? || step.Answer?
    requires Undisturbed(s, step, LiveList(s).entries[e].health, since, target)
    ensures Progress(pace, Next(pace, s, step), slack, e, since, target)
  {
    var t, h := Next(pace, s, step), LiveList(s).entries[e].health;
    assert t.phase == s.phase && t.pending == s.pending && t.lists == s.lists && t.now == s.now;
    assert h in t.cells && t.cells[h] == s.cells[h];
  }

  lemma LossProgresses(pace: Pace, s: State, i: nat, slack: nat, e: nat, since: int, target: HealthState)
    requires Inv(pace, s) && Progress(pace, s, slack, e, since, target) && Enabled(s, Lost(i))
    requires Undisturbed(s, Lost(i), LiveList(s).entries[e].health, since, target)
    ensures Progress(pace, Next(pace, s, Lost(i)), slack, e, since, target)
  {
    if UpToDate(s) {
      DistinctHandles(s, LiveList(s), i, e);
    }
  }

  lemma StepProgresses(pace: Pace, s: State, step: Step, slack: nat, e: nat, since: int, target: HealthState)
    requires Inv(pace, s) && Progress(pace, s, slack, e, since, target) && Enabled(s, step)
    requires Undisturbed(s, step, LiveList(s).entries[e].health, since, target)
    ensures Progress(pace, Next(pace, s, step), slack, e, since, target)
    ensures Next(pace, s, step).lists == s.lists
  {
    OthersKeepLists(pace, s, step);
    if step.Snap? || step.Route? || step.Answer? {
      DialProgresses(pace, s, step, slack, e, since, target);
    } else if step.BeginPass? || step.EndPass? {
      PassProgresses(pace, s, step, slack, e, since, target);
    } else if step.Tick? {
      TickProgresses(pace, s, step.elapsed, slack, e, since, target);
    } else if step.Lost? {
      LossProgresses(pace, s, step.index, slack, e, since, target);
    } else if SettledOn(pace, s, slack, LiveList(s).entries[e].health, since, target) || Outdated(s, slack, since) {
      HearingOutdated(pace, s, step.index, step.seen, slack, e, since, target);
    } else {
      HearingProgresses(pace, s, step.index, step.seen, slack, e, since, target);
    }
  }

  lemma {:induction false} RunProgresses(
    pace: Pace, s: State, steps: seq<Step>, slack: nat, e: nat, since: int, target: HealthState)
    requires Inv(pace, s) && Runs(pace, s, steps) && Progress(pace, s, slack, e, since, target)
    requires UndisturbedRun(pace, s, steps, LiveList(s).entries[e].health, since, target)
    ensures var t := After(pace, s, steps);
            Inv(pace, t) && Progress(pace, t, slack, e, since, target) && t.lists == s.lists
    decreases |steps|
  {
    if steps != [] {
      StepKeeps(pace, s, steps[0]);
      StepProgresses(pace, s, steps[0], slack, e, since, target);
      RunProgresses(pace, Next(pace, s, steps[0]), steps[1..], slack, e, since, target);
    }
  }

  lemma ProgressEnds(pace: Pace, t: State, slack: nat, e: nat, since: int, target: HealthState)
    requires ClockGood(pace, t) && Progress(pace, t, slack, e, since, target)
    requires t.now > SettledBy(pace, slack, since)
    ensures SettledOn(pace, t, slack, LiveList(t).entries[e].health, since, target)
  {
  }

  lemma ProgressBegins(pace: Pace, s: State, slack: nat, e: nat, since: int, target: HealthState)
    requires Inv(pace, s) && s.now <= since && e < |LiveList(s).entries| && Slacks(LiveList(s), slack)
    requires slack == 0 ==> UpToDate(s)
    ensures Progress(pace, s, slack, e, since, target)
  {
  }

  /**
   The time the patrol alone may need: two probe timeouts for a one-entry list no older pass is out over, else three.
   */
  ghost function Timeouts(s: State): nat
    requires s.lists != []
  {
    if |LiveList(s).entries| == 1 && UpToDate(s) then 2 else 3
  }

  ghost function DeadlineOf(pace: Pace, s: State, since: int): int
    requires s.lists != []
  {
    since + LongestWait(pace) + pace.confirmDelay + Timeouts(s) * PROBE_TIMEOUT
  }

  /**
   With the list fixed and no dial writing entry `e`, once every probe of it reporting at or after `since` sees
   `target`, its verdict is `target` from this long after `since` on, in every run: one longest wait, one confirm delay
   and three probe timeouts - two for a list of one entry, unless a pass over a replaced list is out at the start.
   */
  lemma PatrolSettlesInTime(pace: Pace, s: State, steps: seq<Step>, e: nat, since: int, target: HealthState)
    requires Reachable(pace, s) && s.now <= since && s.lists != [] && e < |LiveList(s).entries|
    requires Runs(pace, s, steps) && UndisturbedRun(pace, s, steps, LiveList(s).entries[e].health, since, target)
    ensures var t := After(pace, s, steps);
            var h := LiveList(s).entries[e].health;
            && t.lists == s.lists && h in t.cells
            && (t.now > DeadlineOf(pace, s, since) ==>
                  t.cells[h].state == target && t.cells[h].changedAt <= DeadlineOf(pace, s, since))
  {
    ReachableKeeps(pace, s);
    var slack: nat := if Timeouts(s) == 2 then 0 else PROBE_TIMEOUT;
    assert SettledBy(pace, slack, since) == DeadlineOf(pace, s, since);
    ProgressBegins(pace, s, slack, e, since, target);
    RunProgresses(pace, s, steps, slack, e, since, target);
    var t := After(pace, s, steps);
    if t.now > SettledBy(pace, slack, since) {
      ProgressEnds(pace, t, slack, e, since, target);
    }
  }

  lemma SettledIsChosen(pace: Pace, s: State, list: List, e: nat, settledBy: int)
    requires Judged(s, list) && e < |list.entries| && s.now >= settledBy + pace.hold
    requires var v := s.cells[list.entries[e].health]; v.state == Up && v.changedAt <= settledBy
    ensures Choice(pace, s, list).Some? && Choice(pace, s, list).value <= e
  {
    var verdicts := Verdicts(s, list);
    assert Selecting.UpHeld(verdicts[e], s.now, pace.hold);
    Selecting.SelectionIsTheChoice(verdicts, s.now, pace.hold, Choice(pace, s, list));
  }

  lemma LiveIsJudged(pace: Pace, s: State)
    requires Inv(pace, s)
    ensures s.lists != [] && Judged(s, LiveList(s))
  {
    assert Live(s) == SnapshotOf(s, |s.lists| - 1);
    KnownIsJudged(s, Live(s));
  }

  /**
   An entry genuinely back takes over: once its probes all see it up, new connections go through it or a higher-ranked
   one from one deadline and one return hold later on.
   */
  lemma BackWithinTheHold(pace: Pace, s: State, steps: seq<Step>, e: nat, since: int)
    requires Reachable(pace, s) && s.now <= since && s.lists != [] && e < |LiveList(s).entries|
    requires Runs(pace, s, steps) && UndisturbedRun(pace, s, steps, LiveList(s).entries[e].health, since, Up)
    requires After(pace, s, steps).now > DeadlineOf(pace, s, since)
    requires After(pace, s, steps).now >= DeadlineOf(pace, s, since) + pace.hold
    ensures var t := After(pace, s, steps);
            && t.lists == s.lists && Judged(t, LiveList(t))
            && Choice(pace, t, LiveList(t)).Some? && Choice(pace, t, LiveList(t)).value <= e
  {
    PatrolSettlesInTime(pace, s, steps, e, since, Up);
    var t := After(pace, s, steps);
    ReachableKeeps(pace, s);
    RunKeeps(pace, s, steps);
    LiveIsJudged(pace, t);
    SettledIsChosen(pace, t, LiveList(t), e, DeadlineOf(pace, s, since));
  }

  // ---------- the clock can reach any instant ----------

  /** How many steps must be taken before the clock can move on. */
  ghost function StepsToTick(s: State): nat {
    match s.phase
    case Sleeping(until) => if until == s.now then 1 else 0
    case Probing(started, _, awaiting, _) =>
      if awaiting != {} && s.now < started + PROBE_TIMEOUT then 0 else 2 + |awaiting|
  }

  /** A step that an undisturbed run can take from any state before `goal`: towards the next tick, or a tick. */
  lemma Onwards(pace: Pace, s: State, goal: int, target: HealthState) returns (step: Step)
    requires Inv(pace, s) && pace.interval > 0 && s.now < goal
    ensures Enabled(s, step) && !step.Publish? && !step.Lost? && !step.Answer? && (step.Probed? ==> step.seen == target)
    ensures var t := Next(pace, s, step);
            t.now <= goal && (t.now > s.now || (t.now == s.now && StepsToTick(t) < StepsToTick(s)))
  {
    match s.phase
    case Sleeping(until) =>
      step := if until == s.now then BeginPass else Tick((if until < goal then until else goal) - s.now);
      if until == s.now && LiveList(s).entries != [] {
        assert 0 in Next(pace, s, step).phase.awaiting;
      }
    case Probing(started, probed, awaiting, _) =>
      if awaiting == {} {
        LiveIsJudged(pace, s);
        step := EndPass;
      } else if s.now < started + PROBE_TIMEOUT {
        step := Tick((if started + PROBE_TIMEOUT < goal then started + PROBE_TIMEOUT else goal) - s.now);
      } else {
        var i :| i in awaiting;
        var k := SomeIndex(s.lists, probed);
        assert probed.entries[i].health in s.cells;
        step := Probed(i, target);
      }
  }

  lemma {:induction false} RunTo(pace: Pace, s: State, goal: int, h: Handle, since: int, target: HealthState)
    returns (steps: seq<Step>)
    requires Inv(pace, s) && pace.interval > 0 && s.now <= goal
    ensures Runs(pace, s, steps) && After(pace, s, steps).now == goal
    ensures UndisturbedRun(pace, s, steps, h, since, target)
    decreases goal - s.now, StepsToTick(s)
  {
    if s.now == goal {
      return [];
    }
    var step := Onwards(pace, s, goal, target);
    StepKeeps(pace, s, step);
    var rest := RunTo(pace, Next(pace, s, step), goal, h, since, target);
    steps := [step] + rest;
    assert steps[1..] == rest;
  }

  /**
   The deadlines speak of runs there are: while the interval is not zero, from every reachable state some undisturbed
   run takes the clock to any later instant.
   */
  lemma TimeCanPass(pace: Pace, s: State, goal: int, h: Handle, since: int, target: HealthState)
    returns (steps: seq<Step>)
    requires Reachable(pace, s) && pace.interval > 0 && s.now <= goal
    ensures Runs(pace, s, steps) && After(pace, s, steps).now == goal
    ensures UndisturbedRun(pace, s, steps, h, since, target)
  {
    ReachableKeeps(pace, s);
    steps := RunTo(pace, s, goal, h, since, target);
  }
}

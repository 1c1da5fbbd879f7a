/** What the failover protocol promises over every run, whatever the interleaving, the list and its length. */
module FailoverRuns {
  import opened Options
  import opened Health
  import opened Upstreams
  import opened Entries
  import opened Lineage
  import opened Switching
  import opened Patrol
  import opened Failover
  import Selecting

  ghost predicate Reachable(pace: Pace, s: State) {
    exists born: State, steps: seq<Step> :: Init(born) && Runs(pace, born, steps) && After(pace, born, steps) == s
  }

  lemma ReachableKeeps(pace: Pace, s: State)
    requires Reachable(pace, s)
    ensures Inv(pace, s)
  {
    var born: State, steps: seq<Step> :| Init(born) && Runs(pace, born, steps) && After(pace, born, steps) == s;
    InitKeeps(pace, born);
    RunKeeps(pace, born, steps);
  }

  lemma {:induction false} RunExtends(pace: Pace, s: State, steps: seq<Step>, step: Step)
    requires Runs(pace, s, steps) && Enabled(After(pace, s, steps), step)
    ensures Runs(pace, s, steps + [step])
    ensures After(pace, s, steps + [step]) == Next(pace, After(pace, s, steps), step)
    decreases |steps|
  {
    var longer := steps + [step];
    if steps == [] {
      assert longer[1..] == [];
      assert Runs(pace, Next(pace, s, step), []);
    } else {
      assert longer[1..] == steps[1..] + [step];
      RunExtends(pace, Next(pace, s, steps[0]), steps[1..], step);
    }
  }

  lemma ReachableExtends(pace: Pace, s: State, step: Step)
    requires Reachable(pace, s) && Enabled(s, step)
    ensures Reachable(pace, Next(pace, s, step))
  {
    var born: State, steps: seq<Step> :| Init(born) && Runs(pace, born, steps) && After(pace, born, steps) == s;
    RunExtends(pace, born, steps, step);
  }

  /** Time is never stuck: either the clock may move or the patrol may act. */
  lemma NeverStuck(pace: Pace, s: State)
    requires Reachable(pace, s)
    ensures Enabled(s, Tick(1)) || Enabled(s, BeginPass) || Enabled(s, EndPass) || exists i :: Enabled(s, Probed(i, Up))
  {
    ReachableKeeps(pace, s);
    if s.phase.Probing? && s.phase.awaiting != {} {
      var i :| i in s.phase.awaiting;
      assert Enabled(s, Probed(i, Up));
    }
  }

  // ---------- two-probe hysteresis ----------

  /**
   In every reachable state the probes heard so far turned verdicts by the two-probe rule, and no handle has two
   sequences pending.
   */
  lemma TwoProbeHysteresis(pace: Pace, s: State)
    requires Reachable(pace, s)
    ensures TwoProbes(s.folds)
    ensures OnePerHandle(s.pending) && (s.phase.Probing? ==> OnePerHandle(s.phase.next))
  {
    ReachableKeeps(pace, s);
  }

  /**
   One probe heard: it turns the verdict of the entry it was made against exactly when it contradicts that verdict and
   a probe of the same handle in the pass before saw the same and contradicted the verdict it met; the stamp is then
   the instant the pass began. No other cell moves.
   */
  lemma ProbeTurnsExactly(pace: Pace, s: State, i: nat, seen: HealthState, h: Handle)
    requires Reachable(pace, s) && Enabled(s, Probed(i, seen)) && h in s.cells
    ensures var t := Next(pace, s, Probed(i, seen));
            var probed := s.phase.probed.entries[i].health;
            && (t.cells[h] != s.cells[h] ==> h == probed && t.cells[h] == Verdict(seen, s.phase.started))
            && (t.cells[h].state != s.cells[h].state
                <==> h == probed && s.cells[h].state != seen && Opened(s.folds, s.pass - 1, h, seen))
  {
    ReachableKeeps(pace, s);
    var probed := s.phase.probed.entries[i].health;
    BankedExactly(s.pending, probed, seen);
    assert Pending(seen, probed) in s.pending <==> Opened(s.folds, s.pass - 1, probed, seen);
  }

  // ---------- cold start ----------

  /**
   Until a list is published the patrol sleeps in ticks, short ones while it has been looking for less than the
   window.
   */
  ghost predicate Cold(pace: Pace, birth: int, s: State) {
    |s.lists| == 1 && s.lists[0].entries == [] ==>
      && s.phase.Sleeping? && s.phase.until == birth + s.looking && s.now <= s.phase.until
      && (s.now < birth + NO_UPSTREAM_EAGER ==>
            s.phase.until - s.now <= Shorter(NO_UPSTREAM_TICK, pace.interval))
  }

  lemma StaysCold(pace: Pace, birth: int, s: State, step: Step)
    requires s.lists != [] && Cold(pace, birth, s) && Enabled(s, step)
    ensures Cold(pace, birth, Next(pace, s, step))
  {
    if !step.Publish? {
      OthersKeepLists(pace, s, step);
    }
  }

  lemma {:induction false} RunStaysCold(pace: Pace, birth: int, s: State, steps: seq<Step>)
    requires Inv(pace, s) && Cold(pace, birth, s) && Runs(pace, s, steps)
    ensures Cold(pace, birth, After(pace, s, steps))
    decreases |steps|
  {
    if steps != [] {
      StepKeeps(pace, s, steps[0]);
      StaysCold(pace, birth, s, steps[0]);
      RunStaysCold(pace, birth, Next(pace, s, steps[0]), steps[1..]);
    }
  }

  /**
   A first list published while the cold-start window is open finds the patrol due within one short tick, and the clock
   cannot pass that instant before the patrol has begun a pass over it.
   */
  lemma FirstListIsProbedAtOnce(pace: Pace, born: State, steps: seq<Step>, list: seq<Upstream>)
    requires Init(born) && Runs(pace, born, steps)
    requires var s := After(pace, born, steps);
             |s.lists| == 1 && Enabled(s, Publish(list)) && s.now < born.now + NO_UPSTREAM_EAGER
    ensures var s := After(pace, born, steps);
            var t := Next(pace, s, Publish(list));
            && t.phase.Sleeping? && t.now == s.now
            && t.phase.until <= s.now + Shorter(NO_UPSTREAM_TICK, pace.interval)
            && (forall elapsed: nat :: Enabled(t, Tick(elapsed)) ==> t.now + elapsed <= t.phase.until)
  {
    InitKeeps(pace, born);
    RunKeeps(pace, born, steps);
    RunStaysCold(pace, born.now, born, steps);
  }

  // ---------- where a late write lands ----------

  /**
   A dial that ends after any number of reloads moves the verdict of a listed address exactly when that is the address
   it dialled and every list published since its snapshot names it; all other listed verdicts stay.
   */
  lemma LateDialReaches(pace: Pace, s: State, dial: nat, outcome: Outcome, j: nat)
    requires Reachable(pace, s) && Enabled(s, Answer(dial, outcome)) && j < |LiveList(s).entries|
    ensures var t := Next(pace, s, Answer(dial, outcome));
            var from, entry, listed := s.dials[dial].from, s.dials[dial].entry, LiveList(s).entries[j];
            && t.dials == s.dials - {dial}
            && 0 < from.arc <= |s.lists|
            && listed.health in s.cells
            && t.cells[listed.health]
               == if entry.upstream.socket == listed.upstream.socket
                     && NamedThroughout(s.lists, from.arc - 1, |s.lists| - 1, listed.upstream.socket)
                     && Evidence(outcome).Some?
                  then Settled(s.cells[listed.health], Evidence(outcome).value, s.now)
                  else s.cells[listed.health]
  {
    ReachableKeeps(pace, s);
    var from, entry := s.dials[dial].from, s.dials[dial].entry;
    var a: nat := from.arc - 1;
    assert s.lists[a] == from.list;
    var i :| 0 <= i < |from.list.entries| && from.list.entries[i] == entry;
    assert SharedExactly(s.lists, a, i, |s.lists| - 1, j);
  }

  /**
   A probe of a pass over a list since replaced moves the verdict of a listed address exactly when that is the address
   it probed, every list published since the probed one names it, and the two-probe rule lets it; all others stay.
   */
  lemma LateProbeReaches(pace: Pace, s: State, i: nat, seen: HealthState, a: nat, j: nat)
    requires Reachable(pace, s) && Enabled(s, Probed(i, seen)) && j < |LiveList(s).entries|
    requires a < |s.lists| && s.lists[a] == s.phase.probed
    ensures var t := Next(pace, s, Probed(i, seen));
            var entry, listed := s.phase.probed.entries[i], LiveList(s).entries[j];
            && listed.health in s.cells
            && t.cells[listed.health]
               == if entry.upstream.socket == listed.upstream.socket
                     && NamedThroughout(s.lists, a, |s.lists| - 1, listed.upstream.socket)
                     && s.cells[listed.health].state != seen && Opened(s.folds, s.pass - 1, listed.health, seen)
                  then Verdict(seen, s.phase.started)
                  else s.cells[listed.health]
  {
    ReachableKeeps(pace, s);
    var probed := s.phase.probed.entries[i].health;
    assert SharedExactly(s.lists, a, i, |s.lists| - 1, j);
    BankedExactly(s.pending, probed, seen);
    assert Pending(seen, probed) in s.pending <==> Opened(s.folds, s.pass - 1, probed, seen);
  }

  // ---------- stamps ----------

  /** No later write can carry a stamp before this: the start of the pass under way, or the clock. */
  function StampFloor(s: State): int {
    if s.phase.Probing? then s.phase.started else s.now
  }

  lemma {:induction false} StampsFromFloor(pace: Pace, s: State, steps: seq<Step>)
    requires Inv(pace, s) && Runs(pace, s, steps)
    ensures var t := After(pace, s, steps);
            && StampFloor(t) >= StampFloor(s) && t.now >= s.now
            && (forall h :: h in s.cells ==>
                  h in t.cells && (t.cells[h] == s.cells[h] || t.cells[h].changedAt >= StampFloor(s)))
    decreases |steps|
  {
    if steps != [] {
      var next := Next(pace, s, steps[0]);
      StepKeeps(pace, s, steps[0]);
      ListsKept(pace, s, steps[0]);
      StampStep(pace, s, steps[0]);
      StampsFromFloor(pace, next, steps[1..]);
    }
  }

  lemma StampStep(pace: Pace, s: State, step: Step)
    requires ClockGood(pace, s) && Enabled(s, step)
    ensures var t := Next(pace, s, step);
            && StampFloor(t) >= StampFloor(s) && t.now >= s.now
            && (forall h :: h in s.cells && h in t.cells ==>
                  t.cells[h] == s.cells[h] || t.cells[h].changedAt >= StampFloor(s))
  {
  }

  lemma FramesStamped(pace: Pace, s: State, steps: seq<Step>, seen: Snapshot<Handle>, floor: int)
    requires Inv(pace, s) && Runs(pace, s, steps) && Known(s, seen) && floor <= StampFloor(s)
    ensures var t := After(pace, s, steps);
            && Inv(pace, t) && Judged(s, seen.list) && Judged(t, seen.list)
            && Selecting.StampedFrom(Verdicts(s, seen.list), Verdicts(t, seen.list), floor)
            && s.now <= t.now
  {
    var t := After(pace, s, steps);
    RunKeeps(pace, s, steps);
    StampsFromFloor(pace, s, steps);
    KnownGrows(s, t, seen);
    KnownIsJudged(s, seen);
    KnownIsJudged(t, seen);
  }

  // ---------- hysteresis of the selection over runs ----------

  /**
   Over any run in which the selected entry's verdict stands at the end, and unless a pass already under way began
   before that entry settled, the same list selects that entry or a higher-ranked one, which has held or ties with it.
   */
  lemma SettledEntryIsKept(pace: Pace, s: State, steps: seq<Step>, seen: Snapshot<Handle>, i: nat)
    requires Reachable(pace, s) && Runs(pace, s, steps) && Known(s, seen)
    requires Judged(s, seen.list) && Choice(pace, s, seen.list) == Some(i) && i < |seen.list.entries|
    requires s.cells[seen.list.entries[i].health].changedAt <= StampFloor(s)
    requires var t := After(pace, s, steps);
             seen.list.entries[i].health in t.cells
             && t.cells[seen.list.entries[i].health] == s.cells[seen.list.entries[i].health]
    ensures var t := After(pace, s, steps);
            && Judged(t, seen.list)
            && var choice := Choice(pace, t, seen.list);
               && choice.Some? && choice.value <= i
               && (choice.value < i ==>
                     var winner := t.cells[seen.list.entries[choice.value].health];
                     Selecting.UpHeld(winner, t.now, pace.hold)
                     || winner.changedAt == t.cells[seen.list.entries[i].health].changedAt)
  {
    ReachableKeeps(pace, s);
    var t := After(pace, s, steps);
    FramesStamped(pace, s, steps, seen, s.cells[seen.list.entries[i].health].changedAt);
    var before, after := Verdicts(s, seen.list), Verdicts(t, seen.list);
    Selecting.NotDisplaced(before, s.now, after, t.now, pace.hold, i);
  }

  /**
   Flap damping over any run: once the selected entry has settled before every stamp still to come, and while its
   verdict stands, the list selects it exactly as long as no higher-ranked entry has been up for the whole hold -
   however often higher-ranked entries turn over.
   */
  lemma FlappingPrimaryStaysOut(pace: Pace, s: State, steps: seq<Step>, seen: Snapshot<Handle>, i: nat)
    requires Reachable(pace, s) && Runs(pace, s, steps) && Known(s, seen)
    requires Judged(s, seen.list) && Choice(pace, s, seen.list) == Some(i) && i < |seen.list.entries|
    requires s.cells[seen.list.entries[i].health].changedAt < StampFloor(s)
    requires var t := After(pace, s, steps);
             seen.list.entries[i].health in t.cells
             && t.cells[seen.list.entries[i].health] == s.cells[seen.list.entries[i].health]
    ensures var t := After(pace, s, steps);
            && Judged(t, seen.list)
            && (Choice(pace, t, seen.list) == Some(i)
                <==> forall j :: 0 <= j < i ==>
                       var v := t.cells[seen.list.entries[j].health];
                       !(v.state == Up && v.changedAt + pace.hold <= t.now))
  {
    ReachableKeeps(pace, s);
    var t := After(pace, s, steps);
    FramesStamped(pace, s, steps, seen, s.cells[seen.list.entries[i].health].changedAt + 1);
    var before, after := Verdicts(s, seen.list), Verdicts(t, seen.list);
    Selecting.FlapDamped(before, s.now, after, t.now, pace.hold, i);
    assert forall j :: 0 <= j < i ==> after[j] == t.cells[seen.list.entries[j].health];
  }

  lemma Stepped(pace: Pace, s: State, step: Step) returns (t: State)
    requires Reachable(pace, s) && Enabled(s, step)
    ensures t == Next(pace, s, step) && Reachable(pace, t)
  {
    t := Next(pace, s, step);
    ReachableExtends(pace, s, step);
  }

  // ---------- the switch log ----------

  /** In every reachable state the switch log is one walk from none to the selection last observed. */
  lemma SwitchLogIsAWalk(pace: Pace, s: State)
    requires Reachable(pace, s)
    ensures Walks(None, s.switches, End(s.observed))
  {
    ReachableKeeps(pace, s);
  }

  /** Recording a known list never takes the observed one back; a replaced list changes nothing. */
  lemma RecordingNeverGoesBack(s: State, look: Look<Handle>)
    requires ListsGood(s) && Known(s, s.observed.snapshot) && Known(s, look.seen) && look.seen.arc > 0
    requires |s.lists| <= MAX_U64
    ensures var kept := Kept(s.observed, look);
            && kept.snapshot.arc >= s.observed.snapshot.arc
            && (look.seen.arc < s.observed.snapshot.arc ==> kept == s.observed && Moved(s.observed, look) == [])
            && (look.seen.arc >= s.observed.snapshot.arc ==> kept.snapshot == look.seen)
  {
  }

  /**
   One step never takes the observed list back, and a dial recording a replaced list changes nothing and logs nothing.
   */
  lemma ObservedNeverGoesBack(pace: Pace, s: State, step: Step)
    requires Reachable(pace, s) && Enabled(s, step) && |s.lists| <= MAX_U64
    ensures var t := Next(pace, s, step);
            && t.observed.snapshot.arc >= s.observed.snapshot.arc
            && (step.Route? && s.dials[step.dial].from.arc < s.observed.snapshot.arc ==>
                  t.observed == s.observed && t.switches == s.switches)
            && (step.EndPass? ==> t.observed.snapshot == Live(s))
            && s.switches <= t.switches
  {
    ReachableKeeps(pace, s);
    if step.Route? {
      RecordingNeverGoesBack(s, LookAt(pace, s, s.dials[step.dial].from));
    } else if step.EndPass? {
      assert Live(s) == SnapshotOf(s, |s.lists| - 1);
      RecordingNeverGoesBack(s, LookAt(pace, s, Live(s)));
    }
  }

  /** A line says `Reloaded` exactly when the publication moved between the two selections. */
  lemma ReloadedMeansReloaded(pace: Pace, s: State, seen: Snapshot<Handle>, look: Look<Handle>)
    requires Reachable(pace, s) && Known(s, seen) && look.seen == seen && |s.lists| <= MAX_U64
    requires Moved(s.observed, look) != []
    ensures Moved(s.observed, look)[0].cause == Reloaded
            <==> s.observed.snapshot.list.publication != seen.list.publication
  {
    ReachableKeeps(pace, s);
    ReloadedExactly(s.observed, look);
  }

  /** The line `t` would log, looking at the list and from the selection `s` recorded, is named by what happened. */
  ghost predicate NamedByEvents(pace: Pace, s: State, t: State)
    requires Judged(s, s.observed.snapshot.list) && Judged(t, s.observed.snapshot.list)
  {
    var entries, p := s.observed.snapshot.list.entries, s.observed.selected;
    var look := LookAt(pace, t, s.observed.snapshot);
    Moved(s.observed, look) != [] ==>
      var cause := Moved(s.observed, look)[0].cause;
      && (cause == Recovered <==> p.None?)
      && (p.Some? ==>
            && p.value < |entries|
            && var h := entries[p.value].health;
               && (t.cells[h].state == Down ==> cause == PreviousDown)
               && (t.cells[h] == s.cells[h] ==>
                     && cause == ReturnHeld && look.choice.Some? && look.choice.value < p.value
                     && var winner := t.cells[entries[look.choice.value].health];
                        Selecting.UpHeld(winner, t.now, pace.hold) || winner.changedAt == t.cells[h].changedAt))
  }

  lemma CauseBetween(pace: Pace, s: State, t: State)
    requires Judged(s, s.observed.snapshot.list) && Judged(t, s.observed.snapshot.list) && s.now <= t.now
    requires s.observed.selected == Choice(pace, s, s.observed.snapshot.list)
    requires var list, p := s.observed.snapshot.list, s.observed.selected;
             p.Some? && p.value < |list.entries| ==>
               Selecting.StampedFrom(Verdicts(s, list), Verdicts(t, list),
                                     s.cells[list.entries[p.value].health].changedAt)
    ensures NamedByEvents(pace, s, t)
  {
    var list := s.observed.snapshot.list;
    var before, after := Verdicts(s, list), Verdicts(t, list);
    var look := LookAt(pace, t, s.observed.snapshot);
    if Moved(s.observed, look) != [] {
      assert look.states == seq(|after|, i requires 0 <= i < |after| => after[i].state);
      CauseIsSound(s.observed, look, before, s.now, after, t.now, pace.hold);
    }
  }

  /**
   Two selections recorded from one list, with any run between them that leaves the observed cell alone: the line the
   second one logs is named by what happened in between, under the same condition on the stamps.
   */
  lemma CauseAcrossRun(pace: Pace, s: State, steps: seq<Step>)
    requires Reachable(pace, s) && Runs(pace, s, steps)
    requires Judged(s, s.observed.snapshot.list)
    requires s.observed.selected == Choice(pace, s, s.observed.snapshot.list)
    requires var p := s.observed.selected;
             p.Some? && p.value < |s.observed.snapshot.list.entries| ==>
               s.cells[s.observed.snapshot.list.entries[p.value].health].changedAt <= StampFloor(s)
    requires After(pace, s, steps).observed == s.observed
    ensures var t := After(pace, s, steps);
            Judged(t, s.observed.snapshot.list) && NamedByEvents(pace, s, t)
  {
    ReachableKeeps(pace, s);
    var seen, p := s.observed.snapshot, s.observed.selected;
    var floor := if p.Some? && p.value < |seen.list.entries| then s.cells[seen.list.entries[p.value].health].changedAt
                 else StampFloor(s);
    FramesStamped(pace, s, steps, seen, floor);
    CauseBetween(pace, s, After(pace, s, steps));
  }
}

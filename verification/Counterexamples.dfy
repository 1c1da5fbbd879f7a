/** Concrete reachable runs showing where a promise of the documentation is stronger than the code. */
module Counterexamples {
  import opened Options
  import opened Health
  import opened Upstreams
  import opened Entries
  import opened Lineage
  import opened Switching
  import opened Patrol
  import opened Failover
  import opened FailoverRuns
  import opened Deadline
  import opened Displacement
  import Selecting

  const PACE := Pace(PROBE_INTERVAL, 1000, 60000)

  function TwoUpstreams(): List {
    UpstreamEntries([Entry(Upstream("a", Addr(1, 1080)), 0), Entry(Upstream("b", Addr(2, 1080)), 1)], 1)
  }

  /** The two-entry list is in force and the patrol is where it is said to be. */
  ghost predicate Posed(
    s: State, now: int, first: Verdict, second: Verdict, phase: Phase, pending: seq<Pending<Handle>>)
  {
    && Reachable(PACE, s)
    && s.now == now && |s.lists| == 2 && s.lists[1] == TwoUpstreams()
    && s.cells == map[0 := first, 1 := second] && s.phase == phase && s.pending == pending
  }

  lemma JustStarted() returns (s: State)
    ensures Reachable(PACE, s)
    ensures var nothing := UpstreamEntries([], 0);
            s == State(0, map[], 0, [nothing], Sleeping(0), [], 0, 0, [], map[],
                       Observed(Snapshot(0, nothing), None), [])
  {
    var nothing := UpstreamEntries([], 0);
    s := State(0, map[], 0, [nothing], Sleeping(0), [], 0, 0, [], map[], Observed(Snapshot(0, nothing), None), []);
    assert Init(s) && Runs(PACE, s, []) && After(PACE, s, []) == s;
  }

  lemma FirstPassOut() returns (s: State)
    ensures Posed(s, 0, Verdict(Down, 0), Verdict(Down, 0), Probing(0, TwoUpstreams(), {0, 1}, []), [])
    ensures s.dials == map[]
  {
    var list := [Upstream("a", Addr(1, 1080)), Upstream("b", Addr(2, 1080))];
    s := JustStarted();
    s := Stepped(PACE, s, Publish(list));
    assert LiveList(s) == TwoUpstreams();
    s := Stepped(PACE, s, BeginPass);
  }

  /** The first pass hears entry 1 answer and entry 0 not, and leaves one sequence pending. */
  lemma FirstPassHeard() returns (s: State)
    ensures Posed(s, 0, Verdict(Down, 0), Verdict(Down, 0), Sleeping(1000), [Pending(Up, 1)]) && s.dials == map[]
  {
    s := FirstPassOut();
    s := Stepped(PACE, s, Probed(0, Down));
    s := Stepped(PACE, s, Probed(1, Up));
    assert s.phase.awaiting == {};
    s := Stepped(PACE, s, EndPass);
  }

  /** The second pass is out when the clock stands at 1500. */
  lemma SecondPassOut() returns (s: State)
    ensures Posed(s, 1500, Verdict(Down, 0), Verdict(Down, 0), Probing(1000, TwoUpstreams(), {0, 1}, []),
                  [Pending(Up, 1)])
            && s.dials == map[]
  {
    s := FirstPassHeard();
    s := Stepped(PACE, s, Tick(1000));
    s := Stepped(PACE, s, BeginPass);
    s := Stepped(PACE, s, Tick(500));
  }

  /** A `require` dial goes through the first entry, nothing being selected, and connects. */
  lemma DialSettlesFirst() returns (s: State)
    ensures Posed(s, 1500, Verdict(Up, 1500), Verdict(Down, 0), Probing(1000, TwoUpstreams(), {0, 1}, []),
                  [Pending(Up, 1)])
  {
    s := SecondPassOut();
    s := Stepped(PACE, s, Snap(0));
    var verdicts := Verdicts(s, TwoUpstreams());
    Selecting.SelectionIsTheChoice(verdicts, s.now, PACE.hold, None);
    s := Stepped(PACE, s, Route(0, Require));
    s := Stepped(PACE, s, Answer(0, Connected));
  }

  /**
   A selected entry still up is displaced downwards: a dial that settles entry 0 while a pass is out is displaced
   by entry 1, ranked lower, when a probe of that pass closes a sequence with the earlier stamp of the pass's start.
   */
  lemma PassUnderWayDisplacesDownwards() returns (pace: Pace, s: State, step: Step)
    ensures Reachable(pace, s) && Enabled(s, step) && Judged(s, LiveList(s))
    ensures Choice(pace, s, LiveList(s)) == Some(0)
    ensures Overtakes(pace, s, step, LiveList(s), 0)
    ensures var t := Next(pace, s, step);
            && LiveList(t) == LiveList(s) && Judged(t, LiveList(t)) && t.now == s.now
            && t.cells[LiveList(s).entries[0].health] == s.cells[LiveList(s).entries[0].health]
            && Choice(pace, t, LiveList(t)) == Some(1)
  {
    pace := PACE;
    s := DialSettlesFirst();
    var verdicts := Verdicts(s, TwoUpstreams());
    Selecting.SelectionIsTheChoice(verdicts, s.now, pace.hold, Some(0));
    step := Probed(1, Up);
    assert TwoUpstreams().entries[1].health == 1 && RankedBelow(TwoUpstreams(), 0, 1);
    var t := Next(pace, s, step);
    var after := Verdicts(t, TwoUpstreams());
    assert after[0] == Verdict(Up, 1500) && after[1] == Verdict(Up, 1000);
    Selecting.SelectionIsTheChoice(after, t.now, pace.hold, Some(1));
  }

  // ---------- an overtaken entry a higher-ranked one shields ----------

  function ThreeUpstreams(): List {
    UpstreamEntries(
      [Entry(Upstream("a", Addr(1, 1080)), 1), Entry(Upstream("b", Addr(2, 1080)), 0),
       Entry(Upstream("c", Addr(3, 1080)), 3)], 2)
  }

  /** The three-entry list is in force; dial 0, made when only `b` was listed, may still be out. */
  ghost predicate PosedThree(
    s: State, now: int, a: Verdict, b: Verdict, c: Verdict, phase: Phase, pending: seq<Pending<Handle>>, dialling: bool)
  {
    && Reachable(PACE, s)
    && s.now == now && |s.lists| == 3 && s.lists[2] == ThreeUpstreams()
    && s.cells == map[0 := b, 1 := a, 2 := Verdict(Down, 0), 3 := c]
    && s.phase == phase && s.pending == pending
    && (dialling ==> 0 in s.dials && s.dials[0].Dialling? && s.dials[0].entry.health == 0)
  }

  lemma ThreeChoice(
    s: State, now: int, a: Verdict, b: Verdict, c: Verdict, phase: Phase, pending: seq<Pending<Handle>>)
    requires PosedThree(s, now, a, b, c, phase, pending, false)
    ensures LiveList(s) == ThreeUpstreams() && Judged(s, LiveList(s))
    ensures Choice(PACE, s, LiveList(s)) == Selecting.Selected([a, b, c], now, PACE.hold)
  {
    assert Verdicts(s, ThreeUpstreams()) == [a, b, c];
  }

  lemma DialOutOverOneEntry() returns (s: State)
    ensures Reachable(PACE, s) && s.now == 0 && s.phase == Sleeping(0) && s.pending == [] && s.bound == 1
    ensures |s.lists| == 2
            && s.lists[1] == UpstreamEntries([Entry(Upstream("b", Addr(2, 1080)), 0)], 1)
    ensures s.cells == map[0 := Verdict(Down, 0)]
    ensures 0 in s.dials && s.dials[0].Dialling? && s.dials[0].entry.health == 0
  {
    s := JustStarted();
    s := Stepped(PACE, s, Publish([Upstream("b", Addr(2, 1080))]));
    assert LiveList(s) == UpstreamEntries([Entry(Upstream("b", Addr(2, 1080)), 0)], 1);
    s := Stepped(PACE, s, Snap(0));
    Selecting.SelectionIsTheChoice(Verdicts(s, LiveList(s)), s.now, PACE.hold, None);
    s := Stepped(PACE, s, Route(0, Require));
  }

  lemma ThreeListed() returns (s: State)
    ensures PosedThree(s, 0, Verdict(Down, 0), Verdict(Down, 0), Verdict(Down, 0), Sleeping(0), [], true)
  {
    s := DialOutOverOneEntry();
    var list := [Upstream("a", Addr(1, 1080)), Upstream("b", Addr(2, 1080)), Upstream("c", Addr(3, 1080))];
    var one := LiveList(s);
    assert HandleAt(one.entries, Addr(2, 1080)) == Some(0);
    s := Stepped(PACE, s, Publish(list));
    assert s.lists[2] == Adopted(one, list, Minted(1, 3));
    assert s.lists[2].entries == ThreeUpstreams().entries;
    assert s.cells == map[0 := Verdict(Down, 0), 1 := Verdict(Down, 0), 2 := Verdict(Down, 0), 3 := Verdict(Down, 0)];
  }

  lemma ThreeHeardOnce() returns (s: State)
    ensures PosedThree(s, 0, Verdict(Down, 0), Verdict(Down, 0), Verdict(Down, 0), Sleeping(1000),
                       [Pending(Up, 1), Pending(Up, 3)], true)
  {
    s := ThreeListed();
    s := Stepped(PACE, s, BeginPass);
    s := Stepped(PACE, s, Probed(0, Up));
    s := Stepped(PACE, s, Probed(1, Down));
    s := Stepped(PACE, s, Probed(2, Up));
    assert s.phase.awaiting == {};
    s := Stepped(PACE, s, EndPass);
  }

  lemma MiddleSettledByDial() returns (s: State)
    ensures PosedThree(s, 1500, Verdict(Down, 0), Verdict(Up, 1500), Verdict(Down, 0),
                       Probing(1000, ThreeUpstreams(), {0, 1, 2}, []), [Pending(Up, 1), Pending(Up, 3)], false)
  {
    s := ThreeHeardOnce();
    s := Stepped(PACE, s, Tick(1000));
    s := Stepped(PACE, s, BeginPass);
    assert s.phase.awaiting == {0, 1, 2};
    s := Stepped(PACE, s, Tick(500));
    s := Stepped(PACE, s, Answer(0, Connected));
  }

  lemma ShieldedChoices()
    ensures Selecting.Selected([Verdict(Down, 0), Verdict(Up, 1500), Verdict(Down, 0)], 1500, 60000) == Some(1)
    ensures Selecting.Selected([Verdict(Up, 1000), Verdict(Up, 1500), Verdict(Down, 0)], 1500, 60000) == Some(0)
    ensures Selecting.Selected([Verdict(Up, 1000), Verdict(Up, 1500), Verdict(Up, 1000)], 1500, 60000) == Some(0)
  {
    var a, b, c, down := Verdict(Up, 1000), Verdict(Up, 1500), Verdict(Up, 1000), Verdict(Down, 0);
    Selecting.SelectionIsTheChoice([down, b, down], 1500, 60000, Some(1));
    Selecting.SelectionIsTheChoice([a, b, down], 1500, 60000, Some(0));
    Selecting.SelectionIsTheChoice([a, b, c], 1500, 60000, Some(0));
  }

  /**
   Being overtaken need not show in the choice: `b`, selected, is overtaken by `c`, ranked below it, in the pass that
   has brought up `a`, ranked above it, with the very same stamp; the choice is `a` before and after.
   */
  lemma OvertakenYetShielded() returns (pace: Pace, s: State, first: Step, second: Step)
    ensures Reachable(pace, s) && s.lists != [] && Judged(s, LiveList(s)) && Choice(pace, s, LiveList(s)) == Some(1)
    ensures Enabled(s, first) && !Overtakes(pace, s, first, LiveList(s), 1)
    ensures var t := Next(pace, s, first);
            && LiveList(t) == LiveList(s) && Judged(t, LiveList(t)) && Choice(pace, t, LiveList(t)) == Some(0)
            && Enabled(t, second) && Overtakes(pace, t, second, LiveList(t), 1)
            && var u := Next(pace, t, second);
               LiveList(u) == LiveList(s) && Judged(u, LiveList(u)) && Choice(pace, u, LiveList(u)) == Some(0)
  {
    pace := PACE;
    s := MiddleSettledByDial();
    first, second := Probed(0, Up), Probed(2, Up);
    ShieldedChoices();
    var sequences := [Pending(Up, 1), Pending(Up, 3)];
    var t := Stepped(pace, s, first);
    var u := Stepped(pace, t, second);
    ThreeChoice(s, 1500, Verdict(Down, 0), Verdict(Up, 1500), Verdict(Down, 0), s.phase, sequences);
    ThreeChoice(t, 1500, Verdict(Up, 1000), Verdict(Up, 1500), Verdict(Down, 0), t.phase, sequences);
    ThreeChoice(u, 1500, Verdict(Up, 1000), Verdict(Up, 1500), Verdict(Up, 1000), u.phase, sequences);
    assert ThreeUpstreams().entries[2].health == 3 && RankedBelow(ThreeUpstreams(), 1, 3);
    FirstIsNotBelow();
  }

  lemma FirstIsNotBelow()
    ensures !RankedBelow(ThreeUpstreams(), 1, 1)
  {
  }

  // ---------- two probe timeouts are not enough for a longer list ----------

  /**
   `steps` lead from `s` to `t`; from instant 1 on all probes of entry 1 see it up, and nothing else is done to it.
   */
  ghost predicate Along(s: State, steps: seq<Step>, t: State) {
    Runs(PACE, s, steps) && UndisturbedRun(PACE, s, steps, 1, 1, Up) && After(PACE, s, steps) == t
  }

  lemma Further(s: State, steps: seq<Step>, t: State, step: Step) returns (longer: seq<Step>, u: State)
    requires Along(s, steps, t) && Enabled(t, step) && Undisturbed(t, step, 1, 1, Up)
    ensures Along(s, longer, u) && u == Next(PACE, t, step)
    decreases |steps|
  {
    u := Next(PACE, t, step);
    if steps == [] {
      longer := [step];
      assert longer[1..] == [] && Along(u, [], u);
    } else {
      var rest;
      rest, u := Further(Next(PACE, s, steps[0]), steps[1..], t, step);
      longer := [steps[0]] + rest;
      assert longer[1..] == rest;
    }
  }

  /** Both entries still down since the start, and the patrol where it is said to be. */
  ghost predicate BothDown(s: State, now: int, phase: Phase, pending: seq<Pending<Handle>>) {
    && s.now == now && |s.lists| == 2 && s.lists[1] == TwoUpstreams()
    && s.cells == map[0 := Verdict(Down, 0), 1 := Verdict(Down, 0)] && s.phase == phase && s.pending == pending
  }

  /** Entry 1 is heard just before it comes back, and the pass stays out for entry 0, which does not answer. */
  lemma MissedPass(s: State) returns (steps: seq<Step>, t: State)
    requires BothDown(s, 0, Probing(0, TwoUpstreams(), {0, 1}, []), [])
    ensures Along(s, steps, t) && BothDown(t, 7000, Sleeping(7000), [])
  {
    assert Along(s, [], s);
    steps, t := Further(s, [], s, Probed(1, Down));
    assert 0 in t.phase.awaiting;
    steps, t := Further(s, steps, t, Tick(2000));
    steps, t := Further(s, steps, t, Probed(0, Down));
    assert t.phase.awaiting == {};
    steps, t := Further(s, steps, t, EndPass);
    steps, t := Further(s, steps, t, Tick(5000));
  }

  /** The next pass is out for a whole timeout before anything is heard. */
  lemma SilentPass(s: State, before: seq<Step>, m: State) returns (steps: seq<Step>, t: State)
    requires Along(s, before, m) && BothDown(m, 7000, Sleeping(7000), [])
    ensures Along(s, steps, t) && BothDown(t, 9000, Probing(7000, TwoUpstreams(), {0, 1}, []), [])
  {
    steps, t := Further(s, before, m, BeginPass);
    assert t.phase.awaiting == {0, 1};
    steps, t := Further(s, steps, t, Tick(2000));
  }

  /** Only then is entry 1 heard, up, and a sequence opened. */
  lemma SlowFirstProbe(s: State, before: seq<Step>, m: State) returns (steps: seq<Step>, t: State)
    requires Along(s, before, m) && BothDown(m, 9000, Probing(7000, TwoUpstreams(), {0, 1}, []), [])
    ensures Along(s, steps, t) && BothDown(t, 10000, Sleeping(10000), [Pending(Up, 1)])
  {
    steps, t := Further(s, before, m, Probed(0, Down));
    steps, t := Further(s, steps, t, Probed(1, Up));
    assert t.phase.awaiting == {};
    steps, t := Further(s, steps, t, EndPass);
    steps, t := Further(s, steps, t, Tick(1000));
  }

  /**
   For a longer list two probe timeouts are not enough, and three are needed to the millisecond: every probe of entry 1
   heard from instant 1 on sees it up, and one millisecond before the deadline it is still down.
   */
  lemma ThreeTimeoutsAreNeeded() returns (pace: Pace, s: State, steps: seq<Step>)
    ensures Reachable(pace, s) && s.now <= 1 && s.lists != [] && |LiveList(s).entries| == 2
    ensures Runs(pace, s, steps) && UndisturbedRun(pace, s, steps, LiveList(s).entries[1].health, 1, Up)
    ensures var t, h := After(pace, s, steps), LiveList(s).entries[1].health;
            && t.now > 1 + LongestWait(pace) + pace.confirmDelay + 2 * PROBE_TIMEOUT
            && t.now == DeadlineOf(pace, s, 1) - 1
            && h in t.cells && t.cells[h].state == Down
  {
    pace := PACE;
    s := FirstPassOut();
    var t;
    steps, t := MissedPass(s);
    steps, t := SilentPass(s, steps, t);
    steps, t := SlowFirstProbe(s, steps, t);
    steps, t := Further(s, steps, t, BeginPass);
    assert 0 in t.phase.awaiting;
    steps, t := Further(s, steps, t, Tick(2000));
  }
}

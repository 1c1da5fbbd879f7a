/** Which upstream, if any, a connection handed to the hop goes through. */
module Routing {
  import opened Options
  import opened Health
  import opened Upstreams
  import opened Entries
  import opened Lineage
  import opened Switching
  import opened Patrol
  import opened Failover
  import opened FailoverRuns
  import Selecting

  /**
   After routing, the connection is being dialled through this entry of the list it took; nothing else has changed.
   */
  ghost predicate GoesThrough(s: State, t: State, dial: nat, k: nat)
    requires dial in s.dials
  {
    var list := s.dials[dial].from.list;
    k < |list.entries| && t.dials == s.dials[dial := Dialling(s.dials[dial].from, list.entries[k])]
  }

  /** After routing, the connection goes direct, or is refused, without any upstream. */
  ghost predicate GoesThroughNone(s: State, t: State, dial: nat) {
    t.dials == s.dials - {dial}
  }

  /** Every entry of the list is down. */
  ghost predicate AllDown(s: State, list: List) {
    forall k :: 0 <= k < |list.entries| ==>
      list.entries[k].health in s.cells && s.cells[list.entries[k].health].state == Down
  }

  lemma ChoiceIsUp(pace: Pace, s: State, list: List)
    requires Judged(s, list)
    ensures Choice(pace, s, list).None? <==> AllDown(s, list)
    ensures var choice := Choice(pace, s, list);
            choice.Some? ==>
              choice.value < |list.entries| && s.cells[list.entries[choice.value].health].state == Up
  {
    var verdicts := Verdicts(s, list);
    Selecting.SelectionIsTheChoice(verdicts, s.now, pace.hold, Choice(pace, s, list));
    assert forall k :: 0 <= k < |list.entries| ==> verdicts[k] == s.cells[list.entries[k].health];
  }

  /**
   Where a connection goes, in every state. With an entry selected, a `require` and a `prefer` connection both go
   through it, and it is up. With every entry down, `prefer` goes direct, and `require` goes through the first entry,
   or is refused when there is none. A `never` connection goes direct. Routing moves no verdict.
   */
  lemma RoutedExactly(pace: Pace, s: State, dial: nat, ruleClass: Class)
    requires Enabled(s, Route(dial, ruleClass))
    ensures var t, list := Next(pace, s, Route(dial, ruleClass)), s.dials[dial].from.list;
            var choice := Choice(pace, s, list);
            && t.cells == s.cells && t.lists == s.lists && t.now == s.now
            && (ruleClass == Never ==> GoesThroughNone(s, t, dial))
            && (ruleClass != Never && choice.Some? ==>
                  GoesThrough(s, t, dial, choice.value)
                  && s.cells[list.entries[choice.value].health].state == Up)
            && (choice.None? <==> AllDown(s, list))
            && (ruleClass == Prefer && choice.None? ==> GoesThroughNone(s, t, dial))
            && (ruleClass == Require && choice.None? && list.entries != [] ==> GoesThrough(s, t, dial, 0))
            && (ruleClass == Require && choice.None? && list.entries == [] ==> GoesThroughNone(s, t, dial))
  {
    ChoiceIsUp(pace, s, s.dials[dial].from.list);
  }

  /**
   A connection takes the list in force: made and routed with no other task in between, a `require` or `prefer` one goes
   through the entry that list selects.
   */
  lemma NewConnectionsTakeTheLiveList(pace: Pace, s: State, dial: nat, ruleClass: Class)
    requires Reachable(pace, s) && dial !in s.dials && ruleClass != Never
    requires s.lists != [] && Judged(s, LiveList(s)) && Choice(pace, s, LiveList(s)).Some?
    ensures Enabled(s, Snap(dial)) && Enabled(Next(pace, s, Snap(dial)), Route(dial, ruleClass))
    ensures var t := Next(pace, Next(pace, s, Snap(dial)), Route(dial, ruleClass));
            var choice := Choice(pace, s, LiveList(s));
            && dial in t.dials && t.dials[dial].Dialling? && choice.value < |LiveList(s).entries|
            && t.dials[dial].entry == LiveList(s).entries[choice.value]
  {
    var snapped := Next(pace, s, Snap(dial));
    assert snapped.dials[dial].from.list == LiveList(s) && snapped.cells == s.cells && snapped.now == s.now;
    assert Verdicts(snapped, LiveList(s)) == Verdicts(s, LiveList(s));
    RoutedExactly(pace, snapped, dial, ruleClass);
  }

  /** What a connection or a pass records as selected: exactly the choice it made, unless its list has been replaced. */
  lemma RecordsTheChoice(pace: Pace, s: State, step: Step)
    requires Reachable(pace, s) && Enabled(s, step) && |s.lists| <= MAX_U64
    ensures var t := Next(pace, s, step);
            && (step.EndPass? ==> t.observed == Observed(Live(s), Choice(pace, s, LiveList(s))))
            && (step.Route? && s.dials[step.dial].from.arc >= s.observed.snapshot.arc ==>
                  var from := s.dials[step.dial].from; t.observed == Observed(from, Choice(pace, s, from.list)))
            && (!step.EndPass? && !step.Route? ==> t.observed == s.observed && t.switches == s.switches)
  {
    ReachableKeeps(pace, s);
    if step.Route? {
      RecordingNeverGoesBack(s, LookAt(pace, s, s.dials[step.dial].from));
    } else if step.EndPass? {
      assert Live(s) == SnapshotOf(s, |s.lists| - 1);
      RecordingNeverGoesBack(s, LookAt(pace, s, Live(s)));
    }
  }

  // ---------- looking for a list ----------

  /** Past the cold-start window a daemon with no upstream looks again only after a whole interval. */
  lemma QuietPastTheWindow(pace: Pace, s: State)
    requires Reachable(pace, s) && Enabled(s, BeginPass) && LiveList(s).entries == []
    ensures var t := Next(pace, s, BeginPass);
            && t.phase.Sleeping? && t.pending == []
            && (s.looking >= 35000 ==> t.phase.until == s.now + pace.interval)
            && (s.looking < 35000 ==>
                  t.phase.until == s.now + if pace.interval < 250 then pace.interval else 250)
            && t.looking == s.looking + (t.phase.until - s.now)
  {
  }
}

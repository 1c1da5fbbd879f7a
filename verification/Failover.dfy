/**
 The failover protocol as a transition system. Every step is one atomic action of one task: a dial takes a snapshot,
 selects and records, and ends; the patrol begins a pass, hears one probe, and ends the pass; a load publishes a list;
 the clock moves. Verdict cells are named by handles that are never reused.
 */
module Failover {
  import opened Options
  import opened Health
  import opened Upstreams
  import opened Entries
  import opened Lineage
  import opened Switching
  import opened Patrol
  import Selecting

  datatype Pace = Pace(interval: nat, confirmDelay: nat, hold: nat)

  /** `Never` goes direct even if it is handed to the hop. */
  datatype Class = Never | Require | Prefer

  datatype Phase =
    | Sleeping(until: int)
    | Probing(started: int, probed: List, awaiting: set<nat>, next: seq<Pending<Handle>>)

  /** A dial holds the snapshot it took, then also the entry it dials. */
  datatype Dial =
    | Snapped(from: Snapshot<Handle>)
    | Dialling(from: Snapshot<Handle>, entry: Entry<Handle>)

  /** One probe heard: in which pass, of which handle, what it saw, the verdict in force, and whether it turned it. */
  datatype Fold = Fold(pass: nat, handle: Handle, seen: HealthState, before: HealthState, turned: bool)

  datatype State = State(
    now: int,
    cells: map<Handle, Verdict>,
    bound: nat,            // handles below this one have been minted
    lists: seq<List>,      // every list published so far, the one in force last
    phase: Phase,
    pending: seq<Pending<Handle>>,
    looking: nat,
    pass: nat,             // how often the patrol has gone round
    folds: seq<Fold>,      // every probe heard, in order
    dials: map<nat, Dial>,
    observed: Observed<Handle>,
    switches: seq<Switch>) // the switch log

  datatype Step =
    | Tick(elapsed: nat)
    | Snap(dial: nat)
    | Route(dial: nat, ruleClass: Class)
    | Answer(dial: nat, outcome: Outcome)
    | BeginPass
    | Probed(index: nat, seen: HealthState)
    | Lost(index: nat) // a probe task that never reported
    | EndPass
    | Publish(list: seq<Upstream>)

  predicate Init(s: State) {
    && s.cells == map[] && s.bound == 0 && s.lists == [UpstreamEntries([], 0)]
    && s.phase == Sleeping(s.now) && s.pending == [] && s.looking == 0 && s.pass == 0 && s.folds == []
    && s.dials == map[] && s.observed == Observed(Snapshot(0, UpstreamEntries([], 0)), None) && s.switches == []
  }

  function LiveList(s: State): List
    requires s.lists != []
  {
    s.lists[|s.lists| - 1]
  }

  /** List `k` as a task holds it; number 0 is the list the observed cell starts with. */
  function SnapshotOf(s: State, k: nat): Snapshot<Handle>
    requires k < |s.lists|
  {
    Snapshot(k + 1, s.lists[k])
  }

  function Live(s: State): Snapshot<Handle>
    requires s.lists != []
  {
    SnapshotOf(s, |s.lists| - 1)
  }

  predicate Judged(s: State, list: List) {
    forall i :: 0 <= i < |list.entries| ==> list.entries[i].health in s.cells
  }

  function Verdicts(s: State, list: List): (r: seq<Verdict>)
    requires Judged(s, list)
  {
    seq(|list.entries|, i requires 0 <= i < |list.entries| => s.cells[list.entries[i].health])
  }

  function Choice(pace: Pace, s: State, list: List): Option<nat>
    requires Judged(s, list)
  {
    Selecting.Selected(Verdicts(s, list), s.now, pace.hold)
  }

  function StatesIn(s: State, list: List): seq<HealthState>
    requires Judged(s, list)
  {
    seq(|list.entries|, i requires 0 <= i < |list.entries| => s.cells[list.entries[i].health].state)
  }

  /** Selects from `seen` and records the selection, in one step. */
  function LookAt(pace: Pace, s: State, seen: Snapshot<Handle>): Look<Handle>
    requires Judged(s, seen.list)
  {
    Look(seen, Choice(pace, s, seen.list), StatesIn(s, seen.list))
  }

  function Recorded(s: State, look: Look<Handle>): State {
    s.(observed := Kept(s.observed, look), switches := s.switches + Moved(s.observed, look))
  }

  predicate Enabled(s: State, step: Step) {
    && s.lists != []
    && match step
       case Tick(elapsed) =>
         (match s.phase
          case Sleeping(until) => s.now + elapsed <= until
          case Probing(started, _, awaiting, _) => awaiting != {} && s.now + elapsed <= started + PROBE_TIMEOUT)
       case Snap(dial) => dial !in s.dials
       case Route(dial, _) => dial in s.dials && s.dials[dial].Snapped? && Judged(s, s.dials[dial].from.list)
       case Answer(dial, _) => dial in s.dials && s.dials[dial].Dialling? && s.dials[dial].entry.health in s.cells
       case BeginPass => s.phase.Sleeping? && s.phase.until == s.now
       case Probed(i, _) =>
         s.phase.Probing? && i in s.phase.awaiting && i < |s.phase.probed.entries|
         && s.phase.probed.entries[i].health in s.cells
       case Lost(i) => s.phase.Probing? && i in s.phase.awaiting
       case EndPass => s.phase.Probing? && s.phase.awaiting == {} && Judged(s, LiveList(s))
       case Publish(list) => list != [] && Distinct(list)
  }

  function Next(pace: Pace, s: State, step: Step): State
    requires Enabled(s, step)
  {
    match step
    case Tick(elapsed) => s.(now := s.now + elapsed)
    case Snap(dial) => s.(dials := s.dials[dial := Snapped(Live(s))])
    case Route(dial, ruleClass) => Routed(pace, s, dial, ruleClass)
    case Answer(dial, outcome) => AnsweredDial(s, dial, outcome)
    case BeginPass => Began(pace, s)
    case Probed(i, seen) => Heard(s, i, seen)
    case Lost(i) => s.(phase := s.phase.(awaiting := s.phase.awaiting - {i}))
    case EndPass =>
      var wait := Wait(s.phase.next, pace.interval, pace.confirmDelay);
      Recorded(s, LookAt(pace, s, Live(s))).(pending := s.phase.next, phase := Sleeping(s.now + wait))
    case Publish(list) =>
      s.(lists := s.lists + [Adopted(LiveList(s), list, Minted(s.bound, |list|))],
         cells := s.cells + Fresh(s.bound, |list|, s.now),
         bound := s.bound + |list|)
  }

  function Routed(pace: Pace, s: State, dial: nat, ruleClass: Class): State
    requires Enabled(s, Route(dial, ruleClass))
  {
    var seen := s.dials[dial].from;
    var look := LookAt(pace, s, seen);
    var entry := match ruleClass
                 case Never => None
                 case Require => Required(seen.list, look.choice)
                 case Prefer => At(seen.list, look.choice);
    Recorded(s, look).(dials := if entry.Some? then s.dials[dial := Dialling(seen, entry.value)] else s.dials - {dial})
  }

  function AnsweredDial(s: State, dial: nat, outcome: Outcome): State
    requires Enabled(s, Answer(dial, outcome))
  {
    var h := s.dials[dial].entry.health;
    s.(dials := s.dials - {dial},
       cells := match Evidence(outcome)
                case None => s.cells
                case Some(state) => s.cells[h := Settled(s.cells[h], state, s.now)])
  }

  /** A cell starts down when it is minted. */
  function Fresh(bound: nat, count: nat, now: int): (r: map<Handle, Verdict>)
    ensures forall h: nat :: h in r <==> bound <= h < bound + count
    ensures forall h :: h in r ==> r[h] == Verdict(Down, now)
  {
    if count == 0 then map[] else Fresh(bound, count - 1, now)[bound + count - 1 := Verdict(Down, now)]
  }

  function Indices(n: nat): (r: set<nat>)
    ensures forall i: nat :: i in r <==> i < n
  {
    if n == 0 then {} else Indices(n - 1) + {n - 1}
  }

  function Began(pace: Pace, s: State): State
    requires Enabled(s, BeginPass)
  {
    var list := LiveList(s);
    if list.entries == [] then
      var tick := EmptyTick(s.looking, pace.interval);
      s.(pass := s.pass + 1, pending := [], looking := s.looking + tick, phase := Sleeping(s.now + tick))
    else
      s.(pass := s.pass + 1, looking := 0, phase := Probing(s.now, list, Indices(|list.entries|), []))
  }

  function Heard(s: State, i: nat, seen: HealthState): State
    requires Enabled(s, Probed(i, seen))
  {
    var h := s.phase.probed.entries[i].health;
    var before := s.cells[h];
    var (verdict, left) := Advanced(Banked(s.pending, h), seen, before, s.phase.started);
    s.(cells := s.cells[h := verdict],
       folds := s.folds + [Fold(s.pass, h, seen, before.state, verdict.state != before.state)],
       phase := s.phase.(awaiting := s.phase.awaiting - {i}, next := s.phase.next + Left(left, h)))
  }

  // ---------- runs ----------

  ghost predicate Runs(pace: Pace, s: State, steps: seq<Step>)
    decreases |steps|
  {
    steps == [] || (Enabled(s, steps[0]) && Runs(pace, Next(pace, s, steps[0]), steps[1..]))
  }

  ghost function After(pace: Pace, s: State, steps: seq<Step>): State
    requires Runs(pace, s, steps)
    decreases |steps|
  {
    if steps == [] then s else After(pace, Next(pace, s, steps[0]), steps[1..])
  }

  // ---------- what every step keeps ----------

  ghost predicate ListsGood(s: State) {
    && s.lists != [] && s.lists[0] == UpstreamEntries([], 0)
    && Coherent(s.lists) && Below(s.lists, s.bound)
    && (forall k :: 0 <= k < |s.lists| ==> s.lists[k].publication == if k <= MAX_U64 then k else MAX_U64)
    && (forall h: nat :: h in s.cells <==> h < s.bound)
  }

  /** No stamp is later than the clock. */
  ghost predicate StampsGood(s: State) {
    forall h :: h in s.cells ==> s.cells[h].changedAt <= s.now
  }

  ghost predicate ClockGood(pace: Pace, s: State) {
    match s.phase
    case Sleeping(until) => s.now <= until <= s.now + Longer(pace.interval, pace.confirmDelay)
    case Probing(started, probed, awaiting, _) =>
      && started <= s.now <= started + PROBE_TIMEOUT
      && probed in s.lists
      && (forall i :: i in awaiting ==> i < |probed.entries|)
  }

  /** At most one sequence per handle. */
  ghost predicate OnePerHandle(pending: seq<Pending<Handle>>) {
    forall i, j :: 0 <= i < j < |pending| ==> pending[i].health != pending[j].health
  }

  /** The probe contradicted the verdict it met and did not turn it. */
  predicate Contradicted(fold: Fold) {
    fold.before != fold.seen && !fold.turned
  }

  /** In pass `pass` a probe of `h` saw `target`, contradicting the verdict in force without turning it. */
  ghost predicate Opened(folds: seq<Fold>, pass: int, h: Handle, target: HealthState) {
    exists k :: 0 <= k < |folds| && folds[k].pass == pass && folds[k].handle == h && folds[k].seen == target
                && Contradicted(folds[k])
  }

  /** The sequences pending are exactly those the probes of one pass opened. */
  ghost predicate PendingIs(pending: seq<Pending<Handle>>, folds: seq<Fold>, pass: int) {
    forall h: nat, target :: Pending(target, h) in pending <==> Opened(folds, pass, h, target)
  }

  ghost predicate SequencesGood(s: State) {
    && OnePerHandle(s.pending)
    && (forall k :: 0 <= k < |s.folds| ==> s.folds[k].pass <= s.pass)
    && match s.phase
       case Sleeping(_) => PendingIs(s.pending, s.folds, s.pass)
       case Probing(_, probed, awaiting, next) =>
         && OnePerHandle(next)
         && PendingIs(s.pending, s.folds, s.pass - 1)
         && PendingIs(next, s.folds, s.pass)
         && (forall i, p :: i in awaiting && i < |probed.entries| && p in next ==> p.health != probed.entries[i].health)
  }

  /**
   A probe turned a verdict exactly when it contradicted the verdict in force and a probe of the same handle in the
   pass before saw the same and contradicted the verdict it met.
   */
  ghost predicate TwoProbes(folds: seq<Fold>) {
    forall k :: 0 <= k < |folds| ==>
      (folds[k].turned
       <==> folds[k].before != folds[k].seen
            && Opened(folds, folds[k].pass - 1, folds[k].handle, folds[k].seen))
  }

  /** `seen` is the cell's first list or one of those published. */
  ghost predicate Known(s: State, seen: Snapshot<Handle>) {
    seen == Snapshot(0, UpstreamEntries([], 0)) || exists k :: 0 <= k < |s.lists| && seen == SnapshotOf(s, k)
  }

  ghost predicate TasksGood(s: State) {
    && (forall d :: d in s.dials ==> s.dials[d].from.arc > 0 && Known(s, s.dials[d].from))
    && (forall d :: d in s.dials && s.dials[d].Dialling? ==> s.dials[d].entry in s.dials[d].from.list.entries)
    && Known(s, s.observed.snapshot)
    && Walks(None, s.switches, End(s.observed))
  }

  ghost predicate Inv(pace: Pace, s: State) {
    ListsGood(s) && StampsGood(s) && ClockGood(pace, s) && SequencesGood(s) && TwoProbes(s.folds) && TasksGood(s)
  }

  // ---------- the proof that every step keeps it ----------

  lemma KnownIsJudged(s: State, seen: Snapshot<Handle>)
    requires ListsGood(s) && Known(s, seen)
    ensures Judged(s, seen.list)
  {
  }

  lemma KnownGrows(s: State, t: State, seen: Snapshot<Handle>)
    requires Known(s, seen) && s.lists <= t.lists
    ensures Known(t, seen)
  {
    if k :| 0 <= k < |s.lists| && seen == SnapshotOf(s, k) {
      assert seen == SnapshotOf(t, k);
    }
  }

  lemma PublishKeepsLists(pace: Pace, s: State, list: seq<Upstream>)
    requires ListsGood(s) && Enabled(s, Publish(list))
    ensures var t := Next(pace, s, Publish(list)); ListsGood(t) && s.lists <= t.lists
  {
    PublishKeepsLineage(s.lists, s.bound, list);
  }

  /** Every other step leaves the lists alone and mints no handle. */
  lemma OthersKeepLists(pace: Pace, s: State, step: Step)
    requires Enabled(s, step) && !step.Publish?
    ensures var t := Next(pace, s, step);
            t.lists == s.lists && t.bound == s.bound && t.cells.Keys == s.cells.Keys
  {
  }

  lemma ListsKept(pace: Pace, s: State, step: Step)
    requires ListsGood(s) && Enabled(s, step)
    ensures var t := Next(pace, s, step); ListsGood(t) && s.lists <= t.lists && s.cells.Keys <= t.cells.Keys
  {
    if step.Publish? {
      PublishKeepsLists(pace, s, step.list);
    } else {
      OthersKeepLists(pace, s, step);
    }
  }

  lemma StampsKept(pace: Pace, s: State, step: Step)
    requires StampsGood(s) && ClockGood(pace, s) && Enabled(s, step)
    ensures StampsGood(Next(pace, s, step))
  {
  }

  lemma ClockKept(pace: Pace, s: State, step: Step)
    requires ClockGood(pace, s) && Enabled(s, step)
    ensures ClockGood(pace, Next(pace, s, step))
  {
    var t := Next(pace, s, step);
    if step.Publish? && s.phase.Probing? {
      var k :| 0 <= k < |s.lists| && s.lists[k] == s.phase.probed;
      assert t.lists[k] == s.phase.probed;
    }
  }

  lemma ChosenIsListed(list: List, choice: Option<nat>)
    ensures At(list, choice).Some? ==> At(list, choice).value in list.entries
    ensures Required(list, choice).Some? ==> Required(list, choice).value in list.entries
  {
  }

  lemma DialKept(pace: Pace, s: State, step: Step, d: nat)
    requires TasksGood(s) && Enabled(s, step) && d in Next(pace, s, step).dials
    ensures var dial := Next(pace, s, step).dials[d];
            && dial.from.arc > 0 && Known(s, dial.from)
            && (dial.Dialling? ==> dial.entry in dial.from.list.entries)
  {
    if step.Route? && step.dial == d {
      var list := s.dials[d].from.list;
      ChosenIsListed(list, Choice(pace, s, list));
    } else if step.Snap? && step.dial == d {
      assert Live(s) == SnapshotOf(s, |s.lists| - 1);
    } else {
      assert d in s.dials && Next(pace, s, step).dials[d] == s.dials[d];
    }
  }

  lemma ObservedKept(pace: Pace, s: State, step: Step)
    requires TasksGood(s) && Enabled(s, step)
    ensures var t := Next(pace, s, step);
            && Known(s, t.observed.snapshot)
            && Walks(None, t.switches, End(t.observed))
  {
    match step
    case Route(dial, _) => WalkGrows(None, s.switches, s.observed, LookAt(pace, s, s.dials[dial].from));
    case EndPass => WalkGrows(None, s.switches, s.observed, LookAt(pace, s, Live(s)));
    case _ =>
  }

  lemma TasksKept(pace: Pace, s: State, step: Step)
    requires ListsGood(s) && TasksGood(s) && Enabled(s, step)
    ensures TasksGood(Next(pace, s, step))
  {
    var t := Next(pace, s, step);
    ListsKept(pace, s, step);
    ObservedKept(pace, s, step);
    KnownGrows(s, t, t.observed.snapshot);
    forall d | d in t.dials
      ensures && t.dials[d].from.arc > 0 && Known(t, t.dials[d].from)
              && (t.dials[d].Dialling? ==> t.dials[d].entry in t.dials[d].from.list.entries)
    {
      DialKept(pace, s, step, d);
      KnownGrows(s, t, t.dials[d].from);
    }
  }

  lemma OpenedGrows(folds: seq<Fold>, fold: Fold, pass: int, h: Handle, target: HealthState)
    ensures Opened(folds + [fold], pass, h, target)
            <==> Opened(folds, pass, h, target)
                 || (fold.pass == pass && fold.handle == h && fold.seen == target && Contradicted(fold))
  {
    var grown := folds + [fold];
    if k :| 0 <= k < |folds| && folds[k].pass == pass && folds[k].handle == h && folds[k].seen == target
            && Contradicted(folds[k]) {
      assert grown[k] == folds[k];
    }
    assert grown[|folds|] == fold;
  }

  lemma HeardKeepsSequences(pace: Pace, s: State, i: nat, seen: HealthState)
    requires Inv(pace, s) && Enabled(s, Probed(i, seen))
    ensures var t := Heard(s, i, seen); SequencesGood(t) && TwoProbes(t.folds)
  {
    var t := Heard(s, i, seen);
    var h := s.phase.probed.entries[i].health;
    var fold := t.folds[|s.folds|];
    forall pass: int, g: nat, target: HealthState
      ensures Opened(t.folds, pass, g, target)
              <==> Opened(s.folds, pass, g, target)
                   || (fold.pass == pass && fold.handle == g && fold.seen == target && Contradicted(fold))
    {
      OpenedGrows(s.folds, fold, pass, g, target);
    }
    BankedExactly(s.pending, h, seen);
    HeardTwoProbes(pace, s, i, seen);
    var left := Advanced(Banked(s.pending, h), seen, s.cells[h], s.phase.started).1;
    assert left.Some? <==> Contradicted(fold);
    assert PendingIs(t.phase.next, t.folds, t.pass);
    HeardAwaits(s, i, seen);
  }

  lemma DistinctHandles(s: State, list: List, i: nat, j: nat)
    requires ListsGood(s) && list in s.lists && i < |list.entries| && j < |list.entries|
    ensures list.entries[i].health == list.entries[j].health <==> i == j
  {
    var a := SomeIndex(s.lists, list);
    assert SharedExactly(s.lists, a, i, a, j);
    if i < j {
      assert s.lists[a].entries[i].upstream.socket != s.lists[a].entries[j].upstream.socket;
    } else if j < i {
      assert s.lists[a].entries[j].upstream.socket != s.lists[a].entries[i].upstream.socket;
    } else {
      assert NamedThroughout(s.lists, a, a, list.entries[i].upstream.socket) by {
        assert Names(s.lists[a], list.entries[i].upstream.socket);
      }
    }
  }

  lemma HeardAwaits(s: State, i: nat, seen: HealthState)
    requires ListsGood(s) && Enabled(s, Probed(i, seen)) && s.phase.probed in s.lists
    requires forall j, p :: j in s.phase.awaiting && j < |s.phase.probed.entries| && p in s.phase.next ==>
               p.health != s.phase.probed.entries[j].health
    ensures var t := Heard(s, i, seen);
            forall j, p :: j in t.phase.awaiting && j < |t.phase.probed.entries| && p in t.phase.next ==>
              p.health != t.phase.probed.entries[j].health
  {
    var t := Heard(s, i, seen);
    forall j, p | j in t.phase.awaiting && j < |t.phase.probed.entries| && p in t.phase.next
      ensures p.health != t.phase.probed.entries[j].health
    {
      DistinctHandles(s, s.phase.probed, i, j);
    }
  }

  ghost function SomeIndex(lists: seq<List>, list: List): (k: nat)
    requires list in lists
    ensures k < |lists| && lists[k] == list
  {
    var k :| 0 <= k < |lists| && lists[k] == list;
    k
  }

  lemma BankedExactly(pending: seq<Pending<Handle>>, h: Handle, target: HealthState)
    requires OnePerHandle(pending)
    ensures Banked(pending, h) == Some(target) <==> Pending(target, h) in pending
  {
  }

  lemma HeardTwoProbes(pace: Pace, s: State, i: nat, seen: HealthState)
    requires Inv(pace, s) && Enabled(s, Probed(i, seen))
    ensures TwoProbes(Heard(s, i, seen).folds)
  {
    var t := Heard(s, i, seen);
    var h := s.phase.probed.entries[i].health;
    var fold := t.folds[|s.folds|];
    BankedExactly(s.pending, h, seen);
    forall k | 0 <= k < |t.folds|
      ensures t.folds[k].turned
              <==> t.folds[k].before != t.folds[k].seen
                   && Opened(t.folds, t.folds[k].pass - 1, t.folds[k].handle, t.folds[k].seen)
    {
      var f := t.folds[k];
      OpenedGrows(s.folds, fold, f.pass - 1, f.handle, f.seen);
      if k < |s.folds| {
        assert f == s.folds[k];
      } else {
        assert Pending(seen, h) in s.pending <==> Opened(s.folds, s.pass - 1, h, seen);
      }
    }
  }

  lemma PassKeepsSequences(pace: Pace, s: State, step: Step)
    requires SequencesGood(s) && Enabled(s, step) && (step.BeginPass? || step.EndPass?)
    ensures SequencesGood(Next(pace, s, step)) && Next(pace, s, step).folds == s.folds
  {
    ghost var coming := s.pass + 1;
    assert forall h: nat, target :: !Opened(s.folds, coming, h, target);
  }

  lemma OthersKeepSequences(pace: Pace, s: State, step: Step)
    requires SequencesGood(s) && Enabled(s, step) && !step.BeginPass? && !step.EndPass? && !step.Probed?
    ensures SequencesGood(Next(pace, s, step)) && Next(pace, s, step).folds == s.folds
  {
    var t := Next(pace, s, step);
    assert t.pending == s.pending && t.pass == s.pass;
    assert step.Lost? || t.phase == s.phase;
  }

  lemma SequencesKept(pace: Pace, s: State, step: Step)
    requires Inv(pace, s) && Enabled(s, step)
    ensures var t := Next(pace, s, step); SequencesGood(t) && TwoProbes(t.folds)
  {
    if step.Probed? {
      HeardKeepsSequences(pace, s, step.index, step.seen);
    } else if step.BeginPass? || step.EndPass? {
      PassKeepsSequences(pace, s, step);
    } else {
      OthersKeepSequences(pace, s, step);
    }
  }

  lemma StepKeeps(pace: Pace, s: State, step: Step)
    requires Inv(pace, s) && Enabled(s, step)
    ensures Inv(pace, Next(pace, s, step))
  {
    ListsKept(pace, s, step);
    StampsKept(pace, s, step);
    ClockKept(pace, s, step);
    SequencesKept(pace, s, step);
    TasksKept(pace, s, step);
  }

  /** Every state of every run from a daemon just started keeps all of it. */
  lemma {:induction false} RunKeeps(pace: Pace, s: State, steps: seq<Step>)
    requires Inv(pace, s) && Runs(pace, s, steps)
    ensures Inv(pace, After(pace, s, steps)) && s.lists <= After(pace, s, steps).lists
    decreases |steps|
  {
    if steps != [] {
      StepKeeps(pace, s, steps[0]);
      ListsKept(pace, s, steps[0]);
      RunKeeps(pace, Next(pace, s, steps[0]), steps[1..]);
    }
  }

  lemma InitKeeps(pace: Pace, s: State)
    requires Init(s)
    ensures Inv(pace, s)
  {
  }
}

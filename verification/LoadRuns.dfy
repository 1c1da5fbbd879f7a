/** What the load protocol promises over every run of commands, scripts and outcomes. */
module LoadRuns {
  import opened Options
  import opened Upstreams
  import opened Forwards
  import opened Listeners
  import opened Matching
  import opened Staging
  import opened Loads
  import Rules

  /** A daemon just started: nothing loaded, no forward open, the recorded addresses those it holds. */
  ghost predicate Started<Net>(w: World<Net>) {
    && w.daemon.rules == [] && w.daemon.upstreams.None? && w.daemon.forwards == [] && w.daemon.load.None?
    && (w.daemon.held.Some? ==>
          w.daemon.listen == Listening(w.daemon.held.value) && w.daemon.held.value.forwards == [])
    && w.running == [] && w.queue == [] && w.asked == multiset{} && w.answered == []
  }

  ghost predicate Reachable<Ip(!new), Net(!new)>(env: Env<Ip, Net>, w: World<Net>) {
    exists born: World<Net>, steps: seq<Step> :: Started(born) && Runs(env, born, steps) && After(env, born, steps) == w
  }

  lemma {:induction false} RunKeeps<Ip, Net>(env: Env<Ip, Net>, w: World<Net>, steps: seq<Step>)
    requires Inv(env, w) && Runs(env, w, steps)
    ensures Inv(env, After(env, w, steps))
    decreases |steps|
  {
    if steps != [] {
      StepKeeps(env, w, steps[0]);
      RunKeeps(env, Next(env, w, steps[0]), steps[1..]);
    }
  }

  lemma ReachableKeeps<Ip(!new), Net(!new)>(env: Env<Ip, Net>, w: World<Net>)
    requires Reachable(env, w)
    ensures Inv(env, w)
  {
    var born: World<Net>, steps: seq<Step> :|
      Started(born) && Runs(env, born, steps) && After(env, born, steps) == w;
    assert Inv(env, born);
    RunKeeps(env, born, steps);
  }

  // ---------- runs, outcomes and answers ----------

  /**
   The outcome about to be taken is always the current run's, though the message does not say so; scripts running and
   outcomes waiting are one together while a load is in flight, and none otherwise.
   */
  lemma OutcomesAreTheCurrentRuns<Ip(!new), Net(!new)>(env: Env<Ip, Net>, w: World<Net>)
    requires Reachable(env, w)
    ensures |w.running| + |w.queue| == if w.daemon.load.Some? then 1 else 0
    ensures w.queue != [] ==> w.daemon.load.Some? && w.queue[0].0 == w.daemon.load.value.id == w.daemon.issued
  {
    ReachableKeeps(env, w);
  }

  /** Every reload request has been answered exactly once, except the one the run in flight will answer. */
  lemma EveryReloadIsAnsweredOnce<Ip(!new), Net(!new)>(env: Env<Ip, Net>, w: World<Net>)
    requires Reachable(env, w)
    ensures w.daemon.load.None? ==> w.asked == Requests(w.answered)
    ensures w.daemon.load.Some? ==> w.asked == Requests(w.answered) + multiset{w.daemon.load.value.request}
  {
    ReachableKeeps(env, w);
  }

  /** The recorded addresses always equal the held ones. */
  lemma RecordedAddressesAreHeld<Ip(!new), Net(!new)>(env: Env<Ip, Net>, w: World<Net>)
    requires Reachable(env, w) && w.daemon.held.Some?
    ensures w.daemon.listen == Listening(w.daemon.held.value)
    ensures w.daemon.forwards == Reported(w.daemon.held.value.forwards)
  {
    ReachableKeeps(env, w);
  }

  // ---------- atomicity ----------

  /** The edit this step has accepted under run `id`, if any. */
  ghost function AcceptedBy<Ip, Net>(env: Env<Ip, Net>, w: World<Net>, step: Step, id: nat): seq<Edit> {
    if step.Mutate? && step.load == Some(id) && Edited(env, w.daemon, step.edit, step.load, step.answers).1 == Done
    then [step.edit] else []
  }

  /** This step is an edit under run `id` that was turned away. */
  ghost predicate RejectedBy<Ip, Net>(env: Env<Ip, Net>, w: World<Net>, step: Step, id: nat) {
    step.Mutate? && step.load == Some(id) && Edited(env, w.daemon, step.edit, step.load, step.answers).1 != Done
  }

  /** The edits answered `Done` under run `id` along a run of steps. */
  ghost function AcceptedUnder<Ip, Net>(env: Env<Ip, Net>, w: World<Net>, steps: seq<Step>, id: nat): seq<Edit>
    requires Runs(env, w, steps)
    decreases |steps|
  {
    if steps == [] then []
    else AcceptedBy(env, w, steps[0], id) + AcceptedUnder(env, Next(env, w, steps[0]), steps[1..], id)
  }

  /** Whether some edit carrying run `id` was turned away along a run of steps. */
  ghost predicate RejectedUnder<Ip, Net>(env: Env<Ip, Net>, w: World<Net>, steps: seq<Step>, id: nat)
    requires Runs(env, w, steps)
    decreases |steps|
  {
    steps != []
    && (RejectedBy(env, w, steps[0], id) || RejectedUnder(env, Next(env, w, steps[0]), steps[1..], id))
  }

  /** No outcome is taken along the way. */
  predicate StillLoading(steps: seq<Step>) {
    forall i :: 0 <= i < |steps| ==> !steps[i].Finish?
  }

  /** Two daemons serve traffic alike. */
  ghost predicate SameLive<Net>(a: Daemon<Net>, b: Daemon<Net>) {
    && a.rules == b.rules && a.upstreams == b.upstreams && a.forwards == b.forwards
    && a.listen == b.listen && a.held == b.held
  }

  /** From `w` to `t` the same run stayed in flight, took in `edits`, and changed nothing that serves traffic. */
  ghost predicate TookIn<Net>(w: World<Net>, t: World<Net>, edits: seq<Edit>, rejected: bool) {
    && SameLive(t.daemon, w.daemon)
    && w.daemon.load.Some? && t.daemon.load.Some?
    && t.daemon.load.value.id == w.daemon.load.value.id
    && t.daemon.load.value.request == w.daemon.load.value.request
    && t.accepted == w.accepted + edits
    && t.rejected == (w.rejected || rejected)
  }

  lemma TookInBoth<Net>(w: World<Net>, u: World<Net>, t: World<Net>, a: seq<Edit>, b: seq<Edit>, p: bool, q: bool)
    requires TookIn(w, u, a, p) && TookIn(u, t, b, q)
    ensures TookIn(w, t, a + b, p || q)
  {
    assert (w.accepted + a) + b == w.accepted + (a + b);
  }

  lemma {:induction false} LoadingChangesNothing<Ip, Net>(env: Env<Ip, Net>, w: World<Net>, steps: seq<Step>)
    requires Inv(env, w) && w.daemon.load.Some? && Runs(env, w, steps) && StillLoading(steps)
    ensures var id := w.daemon.load.value.id;
            TookIn(w, After(env, w, steps), AcceptedUnder(env, w, steps, id), RejectedUnder(env, w, steps, id))
    decreases |steps|
  {
    if steps == [] {
      assert w.accepted + [] == w.accepted;
    } else {
      var next, id := Next(env, w, steps[0]), w.daemon.load.value.id;
      assert !steps[0].Finish? && StillLoading(steps[1..]);
      StepKeeps(env, w, steps[0]);
      LoadingStep(env, w, steps[0]);
      LoadingChangesNothing(env, next, steps[1..]);
      TookInBoth(w, next, After(env, next, steps[1..]), AcceptedBy(env, w, steps[0], id),
                 AcceptedUnder(env, next, steps[1..], id), RejectedBy(env, w, steps[0], id),
                 RejectedUnder(env, next, steps[1..], id));
    }
  }

  lemma LoadingStep<Ip, Net>(env: Env<Ip, Net>, w: World<Net>, step: Step)
    requires Inv(env, w) && w.daemon.load.Some? && Enabled(w, step) && !step.Finish?
    ensures var id := w.daemon.load.value.id;
            TookIn(w, Next(env, w, step), AcceptedBy(env, w, step, id), RejectedBy(env, w, step, id))
  {
    assert w.accepted + [] == w.accepted;
  }

  /** The front ends named last by the run, if any, can all be bound. */
  predicate FrontEndsGranted<Net>(d: Daemon<Net>, listen: Option<Listen>, answers: Answers) {
    listen.Some? && d.held.Some? ==>
      && (listen.value.http == d.held.value.http.addr || answers.http.Some?)
      && (listen.value.socks == d.held.value.socks.addr || answers.socks.Some?)
  }

  /** No forward of the run is on an address that can be neither kept nor opened. */
  ghost predicate ForwardsGranted<Net>(d: Daemon<Net>, wanted: seq<Forward>, answers: Answers) {
    d.held.Some? ==> !Refused(d.held.value, wanted, answers.forwards)
  }

  lemma ForwardsGrantedExactly<Net>(d: Daemon<Net>, moved: Daemon<Net>, wanted: seq<Forward>, answers: Answers)
    requires Recorded(d) && Recorded(moved) && OnePerAddress(wanted) && SystemAllows(d, wanted, answers)
    requires moved.held.Some? <==> d.held.Some?
    requires d.held.Some? ==> moved.held.value.forwards == d.held.value.forwards
    ensures ForwardsRebound(moved, wanted, answers).Some? <==> ForwardsGranted(d, wanted, answers)
  {
    SystemIgnoresFrontEnds(d, moved, wanted, answers);
    if d.held.Some? {
      ForwardsMoveAllOrNothing(moved.held.value, wanted, answers.forwards);
      forall i: nat ensures ToOpen(moved.held.value, wanted, i) == ToOpen(d.held.value, wanted, i) {
      }
    }
  }

  /** Where a front end asked to listen at `asked` ends up. */
  function Landed(asked: Addr, holding: Addr, bound: Option<Addr>): Addr {
    if asked == holding || bound.None? then holding else bound.value
  }

  function LandedBoth(asked: Listen, holding: Listen, answers: Answers): Listen {
    Listen(Landed(asked.http, holding.http, answers.http), Landed(asked.socks, holding.socks, answers.socks))
  }

  /** What the front ends are after moving as the edits last asked. */
  function ListenAfter<Net>(edits: seq<Edit>, before: Daemon<Net>, answers: Answers): Listen {
    match LastListen(edits)
    case None => before.listen
    case Some(asked) => if before.held.None? then asked else LandedBoth(asked, before.listen, answers)
  }

  /**
   The daemon serves exactly what the edits amount to: their rules, their upstream list if they name one and the one
   published before otherwise, their forwards with port 0 resolved, and their front ends.
   */
  ghost predicate Applied<Ip, Net>(
    env: Env<Ip, Net>, edits: seq<Edit>, before: Daemon<Net>, after: Daemon<Net>, answers: Answers)
  {
    && RulesDeclared(env, edits, after.rules)
    && (if LastUpstreams(edits).None? then after.upstreams == before.upstreams
        else UpstreamDeclared(env, edits, after.upstreams))
    && (before.held.None? ==> after.forwards == DeclaredForwards(edits))
    && (before.held.Some? ==>
          forall f :: f in after.forwards <==> Wanted(before.held.value, DeclaredForwards(edits), answers.forwards, f))
    && after.listen == ListenAfter(edits, before, answers)
  }

  /**
   A run commits exactly when its script succeeded, none of its edits was rejected, and every bind it needs is
   granted.
   */
  ghost predicate Commits<Net>(
    before: Daemon<Net>, outcome: ScriptOutcome, edits: seq<Edit>, rejected: bool, answers: Answers)
  {
    && outcome == Succeeded && !rejected
    && FrontEndsGranted(before, LastListen(edits), answers)
    && ForwardsGranted(before, DeclaredForwards(edits), answers)
  }

  /** A run that gets as far as its forwards and is refused one has already moved the front ends. */
  ghost predicate StopsAtForwards<Net>(
    before: Daemon<Net>, outcome: ScriptOutcome, edits: seq<Edit>, rejected: bool, answers: Answers)
  {
    && outcome == Succeeded && !rejected
    && FrontEndsGranted(before, LastListen(edits), answers)
    && !ForwardsGranted(before, DeclaredForwards(edits), answers)
  }

  lemma FrontEndsMoveAsGranted<Net>(d: Daemon<Net>, asked: Listen, answers: Answers)
    requires Recorded(d)
    ensures var moved := FrontEndsRebound(d, asked, answers);
            && (moved.Some? <==> FrontEndsGranted(d, Some(asked), answers))
            && (moved.Some? ==>
                  && Recorded(moved.value)
                  && moved.value == d.(held := moved.value.held, listen := moved.value.listen)
                  && moved.value.listen == (if d.held.None? then asked else LandedBoth(asked, d.listen, answers))
                  && (moved.value.held.Some? <==> d.held.Some?)
                  && (d.held.Some? ==> moved.value.held.value.forwards == d.held.value.forwards))
  {
    FrontEndsKeepRecorded(d, asked, answers);
  }

  lemma WantedIgnoresFrontEnds(held: Held, moved: Held, wanted: seq<Forward>, binds: Binds, f: Forward)
    requires moved.forwards == held.forwards
    ensures Wanted(moved, wanted, binds, f) <==> Wanted(held, wanted, binds, f)
  {
    forall i: nat | i < |wanted| ensures Resolved(moved, wanted, binds, i) == Resolved(held, wanted, binds, i) {
    }
  }

  /** Committing applies everything, or stops with rules, upstreams and forwards as they were. */
  lemma CommitApplies<Ip, Net>(env: Env<Ip, Net>, d: Daemon<Net>, edits: seq<Edit>, staged: Run<Net>, answers: Answers)
    requires Recorded(d) && Amounts(env, edits, staged) && SystemAllows(d, staged.forwards, answers)
    ensures var (after, refusal) := Committed(d, staged, answers);
            && (refusal.None? <==> FrontEndsGranted(d, LastListen(edits), answers)
                                   && ForwardsGranted(d, DeclaredForwards(edits), answers))
            && (refusal.None? ==> Applied(env, edits, d, after, answers))
            && (refusal.Some? ==>
                  && after.rules == d.rules && after.upstreams == d.upstreams && after.forwards == d.forwards
                  && after.listen == (if FrontEndsGranted(d, LastListen(edits), answers)
                                      then ListenAfter(edits, d, answers) else d.listen))
  {
    var moved := d;
    if staged.listen.Some? {
      FrontEndsMoveAsGranted(d, staged.listen.value, answers);
      var r := FrontEndsRebound(d, staged.listen.value, answers);
      if r.None? {
        return;
      }
      moved := r.value;
    }
    SystemIgnoresFrontEnds(d, moved, staged.forwards, answers);
    ForwardsGrantedExactly(d, moved, staged.forwards, answers);
    ForwardsKeepRecorded(moved, staged.forwards, answers);
    if d.held.Some? && ForwardsRebound(moved, staged.forwards, answers).Some? {
      ForwardsMoveAllOrNothing(moved.held.value, staged.forwards, answers.forwards);
      forall f {
        WantedIgnoresFrontEnds(d.held.value, moved.held.value, staged.forwards, answers.forwards, f);
      }
    }
  }

  /** What the run in flight does to the live state when its outcome is taken. */
  ghost predicate AllOrNothing<Ip, Net>(
    env: Env<Ip, Net>, before: Daemon<Net>, after: Daemon<Net>, outcome: ScriptOutcome,
    edits: seq<Edit>, rejected: bool, answers: Answers)
  {
    && after.load.None? && after.lastLoad.Some?
    && (after.lastLoad.value.outcome == LoadOk <==> Commits(before, outcome, edits, rejected, answers))
    && (Commits(before, outcome, edits, rejected, answers) ==> Applied(env, edits, before, after, answers))
    && (!Commits(before, outcome, edits, rejected, answers) ==>
          && after.rules == before.rules && after.upstreams == before.upstreams && after.forwards == before.forwards
          && after.listen == (if StopsAtForwards(before, outcome, edits, rejected, answers)
                              then ListenAfter(edits, before, answers) else before.listen))
  }

  lemma SettleIsAllOrNothing<Ip, Net>(
    env: Env<Ip, Net>, d: Daemon<Net>, staged: Run<Net>, outcome: ScriptOutcome, edits: seq<Edit>, answers: Answers)
    requires Recorded(d) && d.load.None? && Amounts(env, edits, staged) && SystemAllows(d, staged.forwards, answers)
    ensures var (after, last) := Settled(d, staged, outcome, answers);
            AllOrNothing(env, d, after.(lastLoad := Some(last)), outcome, edits, staged.failed.Some?, answers)
  {
    CommitApplies(env, d, edits, staged, answers);
  }

  lemma FinishIsAllOrNothing<Ip, Net>(env: Env<Ip, Net>, w: World<Net>, answers: Answers)
    requires Inv(env, w) && Enabled(w, Finish(answers))
    ensures var t := Next(env, w, Finish(answers));
            && AllOrNothing(env, w.daemon, t.daemon, w.queue[0].1, w.accepted, w.rejected, answers)
            && w.daemon.load.Some?
            && t.answered
               == w.answered + [(w.daemon.load.value.request,
                                 if t.daemon.lastLoad.value.outcome == LoadOk then Status else Internal)]
  {
    var d, staged, outcome := w.daemon.(load := None), w.daemon.load.value.staged, w.queue[0].1;
    SettleIsAllOrNothing(env, d, staged, outcome, w.accepted, answers);
    var t := Next(env, w, Finish(answers));
    SameLiveSameVerdict(env, w.daemon, d, t.daemon, outcome, w.accepted, w.rejected, answers);
  }

  /**
   A load is atomic. From the reload that starts a run to the step that takes its outcome, whatever else happens in
   between, what traffic sees stays as it was; and that one step either applies exactly the edits accepted under the
   run's id - when the script succeeded, none was rejected and every bind was granted - or leaves rules, upstreams and
   forwards as they were before the reload.
   */
  lemma LoadIsAtomic<Ip(!new), Net(!new)>(
    env: Env<Ip, Net>, w: World<Net>, reload: Step, steps: seq<Step>, answers: Answers)
    requires Reachable(env, w) && reload.Reload? && w.daemon.load.None? && Next(env, w, reload).daemon.load.Some?
    requires StillLoading(steps) && Runs(env, Next(env, w, reload), steps)
    requires Enabled(After(env, Next(env, w, reload), steps), Finish(answers))
    ensures var begun := Next(env, w, reload);
            var last := After(env, begun, steps);
            var done := Next(env, last, Finish(answers));
            var id := begun.daemon.load.value.id;
            && id == w.daemon.issued + 1
            && SameLive(last.daemon, w.daemon)
            && last.queue[0].0 == id
            && AllOrNothing(env, w.daemon, done.daemon, last.queue[0].1, AcceptedUnder(env, begun, steps, id),
                            RejectedUnder(env, begun, steps, id), answers)
  {
    ReachableKeeps(env, w);
    var begun := Next(env, w, reload);
    StepKeeps(env, w, reload);
    ReloadBegins(env, w, reload);
    LoadingChangesNothing(env, begun, steps);
    RunKeeps(env, begun, steps);
    var last := After(env, begun, steps);
    var edits, rejected := AcceptedUnder(env, begun, steps, begun.daemon.load.value.id), last.rejected;
    assert last.accepted == edits;
    FinishIsAllOrNothing(env, last, answers);
    SameLiveSameVerdict(env, w.daemon, last.daemon, Next(env, last, Finish(answers)).daemon, last.queue[0].1,
                        edits, rejected, answers);
  }

  lemma ReloadBegins<Ip, Net>(env: Env<Ip, Net>, w: World<Net>, reload: Step)
    requires reload.Reload? && w.daemon.load.None? && Next(env, w, reload).daemon.load.Some?
    ensures var begun := Next(env, w, reload);
            && SameLive(begun.daemon, w.daemon)
            && begun.daemon.load.value.id == w.daemon.issued + 1
            && begun.accepted == [] && !begun.rejected
  {
  }

  lemma SameLiveSameVerdict<Ip, Net>(
    env: Env<Ip, Net>, a: Daemon<Net>, b: Daemon<Net>, after: Daemon<Net>, outcome: ScriptOutcome,
    edits: seq<Edit>, rejected: bool, answers: Answers)
    requires SameLive(a, b) && AllOrNothing(env, b, after, outcome, edits, rejected, answers)
    ensures AllOrNothing(env, a, after, outcome, edits, rejected, answers)
  {
  }

  /** No command is ever told that the run it belongs to has vanished. */
  lemma NothingVanishes<Ip, Net>(env: Env<Ip, Net>, d: Daemon<Net>, edit: Edit, load: Option<nat>, answers: Answers)
    ensures TargetFor(d, load) == ToStaging ==> d.load.Some?
    ensures Edited(env, d, edit, load, answers).1 != Vanished
  {
  }

  /** A run in flight has staged these front ends and these forwards, and nothing has been rejected. */
  ghost predicate Posed<Ip(!new), Net(!new)>(
    env: Env<Ip, Net>, w: World<Net>, held: Held, listen: Option<Listen>, forwards: seq<Forward>)
  {
    && Reachable(env, w) && w.daemon.held == Some(held) && w.daemon.listen == Listening(held)
    && w.daemon.load.Some? && w.daemon.load.value.id == 1
    && w.daemon.load.value.staged.listen == listen && w.daemon.load.value.staged.forwards == forwards
    && w.daemon.load.value.staged.failed.None?
  }

  lemma BegunOn<Ip(!new), Net(!new)>(env: Env<Ip, Net>, held: Held) returns (w: World<Net>)
    requires held.forwards == []
    ensures Posed(env, w, held, None, []) && w.queue == [] && |w.running| == 1
  {
    w := World(
      Daemon([], None, [], Listening(held), Some(held), None, None, 0, None), [], [], multiset{}, [], [], false);
    assert Started(w) && Runs(env, w, []) && After(env, w, []) == w;
    w := Stepped(env, w, Reload(None, "init", path => true, 7));
  }

  lemma StagedOne<Ip(!new), Net(!new)>(
    env: Env<Ip, Net>, w: World<Net>, held: Held, asked: Listen, forward: Forward, answers: Answers)
    returns (t: World<Net>)
    requires Posed(env, w, held, None, []) && w.queue == [] && |w.running| == 1
    requires SystemAllows(w.daemon, w.daemon.forwards + [forward], answers)
    ensures Posed(env, t, held, Some(asked), [forward]) && t.queue == [] && |t.running| == 1
  {
    t := Stepped(env, w, Mutate(SetListen(asked), Some(1), answers));
    assert [] + [forward] == [forward];
    t := Stepped(env, t, Mutate(AddForward(forward), Some(1), answers));
  }

  /**
   The one leak: a load that fails on a forward has moved the front ends already. A run moving http to port 8080 and
   declaring a forward the system refuses ends as failed, on the forward, with http on port 8080.
   */
  lemma FailedLoadMovesFrontEnds<Ip(!new), Net(!new)>(env: Env<Ip, Net>, host: string)
    returns (w: World<Net>, answers: Answers)
    ensures Reachable(env, w) && Enabled(w, Finish(answers))
    ensures var t := Next(env, w, Finish(answers));
            && t.daemon.lastLoad == Some(LastLoad(LoadFailed, Some(OnAddForward)))
            && w.daemon.listen.http == Addr(1, 7890) && t.daemon.listen.http == Addr(1, 8080)
  {
    var held := Held(Accepting(Addr(1, 7890), 0), Accepting(Addr(1, 7891), 1), [], 2);
    var asked := Listen(Addr(1, 8080), Addr(1, 7891));
    var forward := Forward(Addr(1, 80), Target(host, 443));
    answers := Answers(Some(Addr(1, 8080)), None, i => None);
    w := BegunOn(env, held);
    w := StagedOne(env, w, held, asked, forward, answers);
    w := Stepped(env, w, ScriptEnds(0, Succeeded));
    assert Posed(env, w, held, Some(asked), [forward]) && w.queue[0].1 == Succeeded;
    assert Fresh([], [forward], answers.forwards, 4).None? by {
      assert [forward][..0] == [];
    }
  }

  lemma Stepped<Ip(!new), Net(!new)>(env: Env<Ip, Net>, w: World<Net>, step: Step) returns (t: World<Net>)
    requires Reachable(env, w) && Enabled(w, step)
    ensures t == Next(env, w, step) && Reachable(env, t)
  {
    var born: World<Net>, steps: seq<Step> :|
      Started(born) && Runs(env, born, steps) && After(env, born, steps) == w;
    t := Next(env, w, step);
    RunExtends(env, born, steps, step);
  }

  lemma {:induction false} RunExtends<Ip, Net>(env: Env<Ip, Net>, w: World<Net>, steps: seq<Step>, step: Step)
    requires Runs(env, w, steps) && Enabled(After(env, w, steps), step)
    ensures Runs(env, w, steps + [step])
    ensures After(env, w, steps + [step]) == Next(env, After(env, w, steps), step)
    decreases |steps|
  {
    var longer := steps + [step];
    if steps == [] {
      assert longer[1..] == [];
      assert Runs(env, Next(env, w, step), []);
    } else {
      assert longer[1..] == steps[1..] + [step];
      RunExtends(env, Next(env, w, steps[0]), steps[1..], step);
    }
  }
}

/** What every configuration command does, live or under a run, and what the live configuration amounts to. */
module CommandRuns {
  import opened Options
  import opened Upstreams
  import opened Forwards
  import opened Listeners
  import opened Matching
  import opened Staging
  import opened Loads
  import opened LoadRuns
  import opened Text
  import Rules

  // ---------- which commands apply, and where ----------

  /** The command carries a run that is not in flight, or none while one is. */
  predicate OutOfPlace<Net>(d: Daemon<Net>, carried: Option<nat>) {
    match d.load
    case None => carried.Some?
    case Some(run) => carried != Some(run.id)
  }

  /**
   A command out of place - carrying the id of a run that is over or was never started, or carrying none while a run
   is in flight - is told so and changes nothing at all.
   */
  lemma OutOfPlaceIsRefused<Ip, Net>(
    env: Env<Ip, Net>, w: World<Net>, edit: Edit, carried: Option<nat>, answers: Answers)
    requires Enabled(w, Mutate(edit, carried, answers)) && OutOfPlace(w.daemon, carried)
    ensures Edited(env, w.daemon, edit, carried, answers) == (w.daemon, LoadInProgress)
    ensures Next(env, w, Mutate(edit, carried, answers)) == w
  {
  }

  /**
   A command under the run in flight leaves all that serves traffic alone, and is taken into the run or rejects it.
   */
  lemma OwnRunTakesIn<Ip, Net>(env: Env<Ip, Net>, w: World<Net>, edit: Edit, answers: Answers)
    requires Inv(env, w) && w.daemon.load.Some?
    requires Enabled(w, Mutate(edit, Some(w.daemon.load.value.id), answers))
    ensures var id := w.daemon.load.value.id;
            var (d, reply) := Edited(env, w.daemon, edit, Some(id), answers);
            var t := Next(env, w, Mutate(edit, Some(id), answers));
            && SameLive(d, w.daemon) && d.load.Some? && d.load.value.id == id
            && (reply == Done || reply == InvalidArgs)
            && t.accepted == (if reply == Done then w.accepted + [edit] else w.accepted)
            && Amounts(env, t.accepted, d.load.value.staged)
            && (reply != Done ==> t.rejected && d.load.value.staged.failed.Some?)
  {
    StepKeeps(env, w, Mutate(edit, Some(w.daemon.load.value.id), answers));
  }

  /** Run `id` has been started and is no longer in flight. */
  ghost predicate Over<Net>(d: Daemon<Net>, id: nat) {
    id <= d.issued && (d.load.Some? ==> d.load.value.id != id)
  }

  lemma EditKeepsTheRun<Ip, Net>(
    env: Env<Ip, Net>, d: Daemon<Net>, edit: Edit, carried: Option<nat>, answers: Answers)
    ensures var after := Edited(env, d, edit, carried, answers).0;
            && after.issued == d.issued && (after.load.Some? <==> d.load.Some?)
            && (d.load.Some? ==> after.load.value.id == d.load.value.id)
  {
  }

  lemma FinishEndsTheRun<Ip, Net>(env: Env<Ip, Net>, w: World<Net>, answers: Answers)
    requires Inv(env, w) && Enabled(w, Finish(answers))
    ensures var after := Next(env, w, Finish(answers)).daemon;
            after.load.None? && after.issued == w.daemon.issued && w.daemon.load.Some?
  {
    SettleKeeps(w.daemon.(load := None), w.daemon.load.value.staged, w.queue[0].1, answers);
  }

  lemma OverStays<Ip, Net>(env: Env<Ip, Net>, w: World<Net>, step: Step, id: nat)
    requires Inv(env, w) && Enabled(w, step) && Over(w.daemon, id)
    ensures Over(Next(env, w, step).daemon, id)
  {
    if step.Finish? {
      FinishEndsTheRun(env, w, step.answers);
    } else if step.Mutate? {
      EditKeepsTheRun(env, w.daemon, step.edit, step.load, step.answers);
    }
  }

  lemma {:induction false} OverForGood<Ip, Net>(env: Env<Ip, Net>, w: World<Net>, steps: seq<Step>, id: nat)
    requires Inv(env, w) && Runs(env, w, steps) && Over(w.daemon, id)
    ensures Over(After(env, w, steps).daemon, id)
    decreases |steps|
  {
    if steps != [] {
      StepKeeps(env, w, steps[0]);
      OverStays(env, w, steps[0], id);
      OverForGood(env, Next(env, w, steps[0]), steps[1..], id);
    }
  }

  /** Once the outcome of run `id` has been taken, no command carrying that id ever changes the daemon again. */
  lemma EndedRunsAreRefused<Ip(!new), Net(!new)>(
    env: Env<Ip, Net>, w: World<Net>, finish: Answers, steps: seq<Step>, edit: Edit, answers: Answers)
    requires Reachable(env, w) && Enabled(w, Finish(finish)) && w.daemon.load.Some?
    requires Runs(env, Next(env, w, Finish(finish)), steps)
    requires Enabled(After(env, Next(env, w, Finish(finish)), steps),
                     Mutate(edit, Some(w.daemon.load.value.id), answers))
    ensures var t, id := After(env, Next(env, w, Finish(finish)), steps), w.daemon.load.value.id;
            && Next(env, t, Mutate(edit, Some(id), answers)) == t
            && Edited(env, t.daemon, edit, Some(id), answers).1 == LoadInProgress
  {
    ReachableKeeps(env, w);
    var id, ended := w.daemon.load.value.id, Next(env, w, Finish(finish));
    StepKeeps(env, w, Finish(finish));
    FinishEndsTheRun(env, w, finish);
    OverForGood(env, ended, steps, id);
    OutOfPlaceIsRefused(env, After(env, ended, steps), edit, Some(id), answers);
  }

  // ---------- what a live command does ----------

  /** Rule `one` is appended, read as its kind, at the next position; nothing else changes. */
  ghost predicate AddsRule<Ip, Net>(env: Env<Ip, Net>, d: Daemon<Net>, after: Daemon<Net>, one: Edit) {
    && |after.rules| == |d.rules| + 1 && after.rules[..|d.rules|] == d.rules
    && RuleDeclared(env, one, after.rules[|d.rules|], |d.rules|)
    && after == d.(rules := after.rules)
  }

  /** The list the texts read as, no socket twice, is published; nothing else changes. */
  ghost predicate PublishesList<Ip, Net>(env: Env<Ip, Net>, d: Daemon<Net>, after: Daemon<Net>, texts: seq<string>) {
    exists list: seq<Upstream> ::
      Reads(env.reader, texts, list) && Distinct(list) && after == d.(upstreams := Some(list))
  }

  ghost predicate Acceptable(reader: Reader, texts: seq<string>) {
    exists list: seq<Upstream> :: Reads(reader, texts, list) && Distinct(list)
  }

  /** The front ends end up where they were asked to be, port 0 resolved; nothing else changes. */
  ghost predicate MovesFrontEnds<Net>(d: Daemon<Net>, after: Daemon<Net>, asked: Listen, answers: Answers) {
    && after == d.(held := after.held, listen := after.listen)
    && after.listen == (if d.held.None? then asked else LandedBoth(asked, d.listen, answers))
    && (d.held.None? ==> after.held.None?)
    && (d.held.Some? ==>
          && after.held.Some? && after.listen == Listening(after.held.value)
          && after.held.value.forwards == d.held.value.forwards)
  }

  /** The forwards end up as the wanted ones, port 0 resolved; nothing else changes. */
  ghost predicate MovesForwards<Net>(d: Daemon<Net>, after: Daemon<Net>, wanted: seq<Forward>, answers: Answers) {
    && after == d.(held := after.held, forwards := after.forwards)
    && (d.held.None? ==> after.held.None? && after.forwards == wanted)
    && (d.held.Some? ==>
          && after.held.Some?
          && after.held.value.http == d.held.value.http && after.held.value.socks == d.held.value.socks
          && after.forwards == Reported(after.held.value.forwards)
          && (forall f :: f in after.forwards <==> Wanted(d.held.value, wanted, answers.forwards, f)))
  }

  /**
   What each command does when it applies at once, what it is answered, and that anything but `Done` changes nothing.
   */
  ghost predicate LiveEffect<Ip, Net>(
    env: Env<Ip, Net>, d: Daemon<Net>, edit: Edit, answers: Answers, after: Daemon<Net>, reply: Reply)
  {
    && (reply != Done ==> after == d)
    && match edit
       case AddRule(_, kind, text) =>
         && reply == (if TextReads(env.library, kind, text) then Done else InvalidArgs)
         && (reply == Done ==> AddsRule(env, d, after, edit))
       case ClearRules => reply == Done && after == d.(rules := [])
       case SetUpstreams(first, fallbacks) =>
         && reply == (if Acceptable(env.reader, [first] + fallbacks) then Done else InvalidArgs)
         && (reply == Done ==> PublishesList(env, d, after, [first] + fallbacks))
       case SetListen(asked) =>
         && reply == (if FrontEndsGranted(d, Some(asked), answers) then Done else Internal)
         && (reply == Done ==> MovesFrontEnds(d, after, asked, answers))
       case AddForward(forward) =>
         && reply == (if Declares(d.forwards, forward.listen) then InvalidArgs
                      else if ForwardsGranted(d, d.forwards + [forward], answers) then Done else Internal)
         && (reply == Done ==> MovesForwards(d, after, d.forwards + [forward], answers))
  }

  lemma LiveListEffect<Ip, Net>(env: Env<Ip, Net>, d: Daemon<Net>, edit: Edit, answers: Answers)
    requires edit.SetUpstreams?
    ensures var (after, reply) := LiveEdited(env, d, edit, answers); LiveEffect(env, d, edit, answers, after, reply)
  {
    var texts := [edit.first] + edit.fallbacks;
    var parsed := Parsed(env.reader, texts);
    if parsed.Ok? {
      ParsedExactly(env.reader, texts, parsed.value);
    } else {
      Rejected(env.reader, texts);
    }
  }

  lemma LiveForwardEffect<Ip, Net>(env: Env<Ip, Net>, d: Daemon<Net>, edit: Edit, answers: Answers)
    requires Recorded(d) && edit.AddForward? && SystemAllows(d, d.forwards + [edit.forward], answers)
    ensures var (after, reply) := LiveEdited(env, d, edit, answers); LiveEffect(env, d, edit, answers, after, reply)
  {
    var wanted := d.forwards + [edit.forward];
    if !Declares(d.forwards, edit.forward.listen) {
      assert OnePerAddress(wanted);
      ForwardsGrantedExactly(d, d, wanted, answers);
      ForwardsKeepRecorded(d, wanted, answers);
      if d.held.Some? {
        ForwardsMoveAllOrNothing(d.held.value, wanted, answers.forwards);
      }
    }
  }

  lemma LiveRuleEffect<Ip, Net>(env: Env<Ip, Net>, d: Daemon<Net>, edit: Edit, answers: Answers)
    requires edit.AddRule?
    ensures var (after, reply) := LiveEdited(env, d, edit, answers); LiveEffect(env, d, edit, answers, after, reply)
  {
    AcceptedExactly(env.library, edit.kind, edit.text);
    var pushed := Rules.Pushed(env.library, d.rules, edit.ruleClass, edit.kind, edit.text);
    if pushed.Some? {
      assert RuleDeclared(env, edit, pushed.value[|d.rules|], |d.rules|);
    }
  }

  lemma LiveEditApplies<Ip, Net>(env: Env<Ip, Net>, d: Daemon<Net>, edit: Edit, answers: Answers)
    requires Recorded(d) && d.load.None?
    requires edit.AddForward? ==> SystemAllows(d, d.forwards + [edit.forward], answers)
    ensures var (after, reply) := Edited(env, d, edit, None, answers);
            LiveEffect(env, d, edit, answers, after, reply)
  {
    match edit
    case AddRule(_, _, _) => LiveRuleEffect(env, d, edit, answers);
    case ClearRules =>
    case SetUpstreams(_, _) => LiveListEffect(env, d, edit, answers);
    case SetListen(asked) => FrontEndsMoveAsGranted(d, asked, answers);
    case AddForward(_) => LiveForwardEffect(env, d, edit, answers);
  }

  /** With no run in flight and none carried, every command has exactly its own effect, at once. */
  lemma LiveEditsApply<Ip(!new), Net(!new)>(env: Env<Ip, Net>, w: World<Net>, edit: Edit, answers: Answers)
    requires Reachable(env, w) && w.daemon.load.None? && Enabled(w, Mutate(edit, None, answers))
    ensures var (after, reply) := Edited(env, w.daemon, edit, None, answers);
            && LiveEffect(env, w.daemon, edit, answers, after, reply)
            && Next(env, w, Mutate(edit, None, answers)).daemon == after
  {
    ReachableKeeps(env, w);
    LiveEditApplies(env, w.daemon, edit, answers);
  }

  // ---------- what the live configuration amounts to ----------

  /** What one step adds to the history of what has taken effect on rules and upstreams. */
  ghost function Happened<Ip, Net>(env: Env<Ip, Net>, w: World<Net>, step: Step): seq<Edit>
    requires Enabled(w, step)
  {
    match step
    case Mutate(edit, carried, answers) =>
      if w.daemon.load.None? && carried.None? && Edited(env, w.daemon, edit, carried, answers).1 == Done then [edit]
      else []
    case TurnOff => if w.daemon.load.None? then [ClearRules] else []
    case Finish(answers) =>
      // a load that commits replaces the rules by its own, and the list only if it names one
      if w.daemon.load.Some? && Commits(w.daemon, w.queue[0].1, w.accepted, w.rejected, answers)
      then [ClearRules] + w.accepted else []
    case Reload(_, _, _, _) => []
    case ScriptEnds(_, _) => []
  }

  ghost function History<Ip, Net>(env: Env<Ip, Net>, w: World<Net>, steps: seq<Step>): seq<Edit>
    requires Runs(env, w, steps)
    decreases |steps|
  {
    if steps == [] then [] else Happened(env, w, steps[0]) + History(env, Next(env, w, steps[0]), steps[1..])
  }

  /** The live rules and the published list are what the history amounts to. */
  ghost predicate LiveIs<Ip, Net>(env: Env<Ip, Net>, d: Daemon<Net>, history: seq<Edit>) {
    RulesDeclared(env, history, d.rules) && UpstreamDeclared(env, history, d.upstreams)
  }

  lemma {:induction false} SinceClearAppends(a: seq<Edit>, b: seq<Edit>)
    ensures SinceClear(a + [ClearRules] + b) == SinceClear(b)
  {
    var all := a + [ClearRules] + b;
    if b == [] {
      assert all[|all| - 1] == ClearRules;
    } else {
      var n := |b| - 1;
      SinceClearAppends(a, b[..n]);
      assert all[..|all| - 1] == a + [ClearRules] + b[..n] && all[|all| - 1] == b[n];
    }
  }

  lemma {:induction false} LastUpstreamsAppends(a: seq<Edit>, b: seq<Edit>)
    ensures LastUpstreams(a + b) == if LastUpstreams(b).Some? then LastUpstreams(b) else LastUpstreams(a)
  {
    if b == [] {
      assert a + b == a;
    } else {
      var n := |b| - 1;
      LastUpstreamsAppends(a, b[..n]);
      assert (a + b)[..|a + b| - 1] == a + b[..n] && (a + b)[|a + b| - 1] == b[n];
    }
  }

  lemma CommitReplacesRules<Ip, Net>(
    env: Env<Ip, Net>, history: seq<Edit>, edits: seq<Edit>, both: seq<Edit>, rules: seq<Rules.Rule<Net>>)
    requires RulesDeclared(env, edits, rules) && both == history + [ClearRules] + edits
    ensures RulesDeclared(env, both, rules)
  {
    SinceClearAppends(history, edits);
  }

  lemma CommitReplacesList<Ip, Net>(
    env: Env<Ip, Net>, history: seq<Edit>, edits: seq<Edit>, both: seq<Edit>, before: Option<seq<Upstream>>,
    after: Option<seq<Upstream>>)
    requires UpstreamDeclared(env, history, before) && both == history + [ClearRules] + edits
    requires if LastUpstreams(edits).None? then after == before else UpstreamDeclared(env, edits, after)
    ensures UpstreamDeclared(env, both, after)
  {
    LastUpstreamsAppends(history + [ClearRules], edits);
    LastsUnfold(history, ClearRules);
  }

  lemma OneMoreDeclared<Ip, Net>(
    env: Env<Ip, Net>, added: seq<Edit>, rules: seq<Rules.Rule<Net>>, edit: Edit, rule: Rules.Rule<Net>)
    requires EachDeclared(env, added, rules) && RuleDeclared(env, edit, rule, |rules|)
    ensures EachDeclared(env, added + [edit], rules + [rule])
  {
  }

  lemma RuleFollows<Ip, Net>(
    env: Env<Ip, Net>, d: Daemon<Net>, after: Daemon<Net>, history: seq<Edit>, edit: Edit)
    requires RulesDeclared(env, history, d.rules) && edit.AddRule? && AddsRule(env, d, after, edit)
    ensures RulesDeclared(env, history + [edit], after.rules)
  {
    var n := |d.rules|;
    assert after.rules == after.rules[..n] + [after.rules[n]];
    OneMoreDeclared(env, OnlyRules(SinceClear(history)), d.rules, edit, after.rules[n]);
    RulesUnfold(history, edit);
  }

  lemma RulesStand<Ip, Net>(env: Env<Ip, Net>, history: seq<Edit>, edit: Edit, rules: seq<Rules.Rule<Net>>)
    requires RulesDeclared(env, history, rules) && !edit.AddRule? && !edit.ClearRules?
    ensures RulesDeclared(env, history + [edit], rules)
  {
    RulesUnfold(history, edit);
    assert OnlyRules(SinceClear(history)) + [] == OnlyRules(SinceClear(history));
  }

  lemma UpstreamStands<Ip, Net>(env: Env<Ip, Net>, history: seq<Edit>, edit: Edit, list: Option<seq<Upstream>>)
    requires UpstreamDeclared(env, history, list) && !edit.SetUpstreams?
    ensures UpstreamDeclared(env, history + [edit], list)
  {
    LastsUnfold(history, edit);
  }

  lemma ClearFollows<Ip, Net>(env: Env<Ip, Net>, history: seq<Edit>)
    ensures RulesDeclared<Ip, Net>(env, history + [ClearRules], [])
  {
    RulesUnfold(history, ClearRules);
  }

  lemma ListFollows<Ip, Net>(
    env: Env<Ip, Net>, d: Daemon<Net>, after: Daemon<Net>, history: seq<Edit>, edit: Edit)
    requires edit.SetUpstreams? && PublishesList(env, d, after, [edit.first] + edit.fallbacks)
    ensures UpstreamDeclared(env, history + [edit], after.upstreams) && after.rules == d.rules
  {
    LastsUnfold(history, edit);
  }

  lemma EditFollows<Ip, Net>(
    env: Env<Ip, Net>, d: Daemon<Net>, after: Daemon<Net>, history: seq<Edit>, edit: Edit, answers: Answers)
    requires LiveIs(env, d, history) && LiveEffect(env, d, edit, answers, after, Done)
    ensures LiveIs(env, after, history + [edit])
  {
    if edit.AddRule? {
      RuleFollows(env, d, after, history, edit);
      UpstreamStands(env, history, edit, d.upstreams);
    } else if edit.ClearRules? {
      ClearFollows(env, history);
      UpstreamStands(env, history, edit, d.upstreams);
    } else if edit.SetUpstreams? {
      ListFollows(env, d, after, history, edit);
      RulesStand(env, history, edit, d.rules);
    } else {
      RulesStand(env, history, edit, d.rules);
      UpstreamStands(env, history, edit, d.upstreams);
    }
  }

  lemma MutateFollows<Ip, Net>(
    env: Env<Ip, Net>, d: Daemon<Net>, edit: Edit, carried: Option<nat>, answers: Answers, history: seq<Edit>)
    requires Recorded(d) && LiveIs(env, d, history)
    requires edit.AddForward? ==> SystemAllows(d, d.forwards + [edit.forward], answers)
    ensures var (after, reply) := Edited(env, d, edit, carried, answers);
            LiveIs(env, after,
                   history + if d.load.None? && carried.None? && reply == Done then [edit] else [])
  {
    var (after, reply) := Edited(env, d, edit, carried, answers);
    if d.load.None? && carried.None? && reply == Done {
      LiveEditApplies(env, d, edit, answers);
      EditFollows(env, d, after, history, edit, answers);
    } else {
      EditWithoutHistory(env, d, edit, carried, answers);
      assert history + [] == history;
    }
  }

  lemma FinishFollows<Ip, Net>(env: Env<Ip, Net>, w: World<Net>, answers: Answers, history: seq<Edit>)
    requires Inv(env, w) && Enabled(w, Finish(answers)) && LiveIs(env, w.daemon, history)
    ensures LiveIs(env, Next(env, w, Finish(answers)).daemon, history + Happened(env, w, Finish(answers)))
  {
    var after := Next(env, w, Finish(answers)).daemon;
    FinishIsAllOrNothing(env, w, answers);
    if Commits(w.daemon, w.queue[0].1, w.accepted, w.rejected, answers) {
      Regroup(history, [ClearRules], w.accepted);
      var both := history + [ClearRules] + w.accepted;
      CommitReplacesRules(env, history, w.accepted, both, after.rules);
      CommitReplacesList(env, history, w.accepted, both, w.daemon.upstreams, after.upstreams);
    } else {
      assert history + [] == history;
    }
  }

  lemma StepFollows<Ip, Net>(env: Env<Ip, Net>, w: World<Net>, step: Step, history: seq<Edit>)
    requires Inv(env, w) && Enabled(w, step) && LiveIs(env, w.daemon, history)
    ensures LiveIs(env, Next(env, w, step).daemon, history + Happened(env, w, step))
  {
    if step.Mutate? {
      MutateFollows(env, w.daemon, step.edit, step.load, step.answers, history);
    } else if step.Finish? {
      FinishFollows(env, w, step.answers, history);
    } else if step.TurnOff? && w.daemon.load.None? {
      ClearFollows(env, history);
      UpstreamStands(env, history, ClearRules, w.daemon.upstreams);
    } else {
      assert history + [] == history;
    }
  }

  lemma EditWithoutHistory<Ip, Net>(
    env: Env<Ip, Net>, d: Daemon<Net>, edit: Edit, carried: Option<nat>, answers: Answers)
    requires d.load.None? && carried.None? ==> Edited(env, d, edit, carried, answers).1 != Done
    ensures var after := Edited(env, d, edit, carried, answers).0;
            after.rules == d.rules && after.upstreams == d.upstreams
  {
    if d.load.None? && carried.None? {
      RefusedChangesNothing(env, d, edit, answers);
    }
  }

  lemma RefusedChangesNothing<Ip, Net>(env: Env<Ip, Net>, d: Daemon<Net>, edit: Edit, answers: Answers)
    requires d.load.None? && Edited(env, d, edit, None, answers).1 != Done
    ensures Edited(env, d, edit, None, answers).0 == d
  {
  }

  lemma {:induction false} HistoryFollows<Ip, Net>(
    env: Env<Ip, Net>, w: World<Net>, steps: seq<Step>, history: seq<Edit>)
    requires Inv(env, w) && Runs(env, w, steps) && LiveIs(env, w.daemon, history)
    ensures LiveIs(env, After(env, w, steps).daemon, history + History(env, w, steps))
    decreases |steps|
  {
    if steps == [] {
      assert history + [] == history;
    } else {
      var next, first := Next(env, w, steps[0]), Happened(env, w, steps[0]);
      StepKeeps(env, w, steps[0]);
      StepFollows(env, w, steps[0], history);
      HistoryFollows(env, next, steps[1..], history + first);
      Regroup(history, first, History(env, next, steps[1..]));
    }
  }

  /**
   In every run of a daemon just started, the live rules are exactly the rules added since the last clear, each read
   as its kind and numbered by position, and the published list is what the last list named reads as - over the
   history of what took effect: live commands answered `Done`, a turn-off as a clear, and a load that commits as a
   clear followed by the commands accepted under its run.
   */
  lemma LiveIsTheHistory<Ip, Net>(env: Env<Ip, Net>, born: World<Net>, steps: seq<Step>)
    requires Started(born) && Runs(env, born, steps)
    ensures LiveIs(env, After(env, born, steps).daemon, History(env, born, steps))
  {
    HistoryFollows(env, born, steps, []);
    assert [] + History(env, born, steps) == History(env, born, steps);
  }

  // ---------- reloads and their outcomes ----------

  /** The script a reload runs: the one it names, else the one the last started run ran, else the default. */
  ghost predicate ChosenScript<Net>(d: Daemon<Net>, path: Option<string>, initFile: string, chosen: string) {
    if path.Some? then chosen == path.value
    else if d.initPath.Some? then chosen == d.initPath.value else chosen == initFile
  }

  /**
   A reload is refused while a run is in flight or when its script is not there, and changes nothing; otherwise it
   starts a run under an id never issued before, with nothing staged, remembers the script, and is answered later.
   */
  lemma ReloadExactly<Ip, Net>(
    env: Env<Ip, Net>, w: World<Net>, path: Option<string>, initFile: string, files: string -> bool, request: nat,
    chosen: string)
    requires ChosenScript(w.daemon, path, initFile, chosen)
    ensures var t := Next(env, w, Reload(path, initFile, files, request));
            && (w.daemon.load.Some? ==>
                  t.daemon == w.daemon && t.answered == w.answered + [(request, LoadInProgress)])
            && (w.daemon.load.None? && !files(chosen) ==>
                  t.daemon == w.daemon && t.answered == w.answered + [(request, NotFound)])
            && (w.daemon.load.None? && files(chosen) ==>
                  && SameLive(t.daemon, w.daemon) && t.answered == w.answered
                  && t.daemon.issued == w.daemon.issued + 1 && t.daemon.initPath == Some(chosen)
                  && t.daemon.load == Some(InFlight(w.daemon.issued + 1, Run([], None, None, [], None), request))
                  && t.running == w.running + [w.daemon.issued + 1])
  {
  }

  /** Turning off clears the rules, and is refused while a run is in flight. */
  lemma TurnOffExactly<Ip, Net>(env: Env<Ip, Net>, w: World<Net>)
    ensures var (d, reply) := TurnedOff(w.daemon);
            && Next(env, w, TurnOff) == w.(daemon := d)
            && (w.daemon.load.Some? ==> d == w.daemon && reply == LoadInProgress)
            && (w.daemon.load.None? ==> d == w.daemon.(rules := []) && reply == Done)
  {
  }

  /** What is recorded of a run, for every way its script can end. */
  ghost predicate Tells<Net>(
    d: Daemon<Net>, script: ScriptOutcome, edits: seq<Edit>, failed: Option<FailedCommand>, answers: Answers,
    last: LastLoad)
  {
    match script
    case TimedOut => last == LastLoad(LoadTimedOut, None)
    case NotRun => last == LastLoad(LoadFailed, None)
    case Exited => last == LastLoad(LoadFailed, failed)
    case Succeeded =>
      if failed.Some? then last == LastLoad(LoadFailed, failed)
      else if !FrontEndsGranted(d, LastListen(edits), answers) then last == LastLoad(LoadFailed, Some(OnSetListen))
      else if !ForwardsGranted(d, DeclaredForwards(edits), answers) then
        last == LastLoad(LoadFailed, Some(OnAddForward))
      else last == LastLoad(LoadOk, None)
  }

  lemma SettledTells<Ip, Net>(
    env: Env<Ip, Net>, d: Daemon<Net>, edits: seq<Edit>, staged: Run<Net>, script: ScriptOutcome, answers: Answers)
    requires Recorded(d) && Amounts(env, edits, staged) && SystemAllows(d, staged.forwards, answers)
    ensures Tells(d, script, edits, staged.failed, answers, Settled(d, staged, script, answers).1)
  {
    CommitApplies(env, d, edits, staged, answers);
    RefusalNamesTheBind(env, d, edits, staged, answers);
  }

  lemma FinishedTells<Ip, Net>(
    env: Env<Ip, Net>, d: Daemon<Net>, edits: seq<Edit>, script: ScriptOutcome, answers: Answers)
    requires d.load.Some? && Recorded(d) && Amounts(env, edits, d.load.value.staged)
    requires SystemAllows(d, d.load.value.staged.forwards, answers)
    ensures var (after, answer) := Finished(d, script, answers);
            && after.load.None? && after.lastLoad.Some?
            && Tells(d, script, edits, d.load.value.staged.failed, answers, after.lastLoad.value)
            && answer
               == Some((d.load.value.request, if after.lastLoad.value.outcome == LoadOk then Status else Internal))
  {
    SettledTells(env, d.(load := None), edits, d.load.value.staged, script, answers);
    SettledEnds(d.(load := None), d.load.value.staged, script, answers);
  }

  lemma SettledEnds<Net>(d: Daemon<Net>, staged: Run<Net>, script: ScriptOutcome, answers: Answers)
    ensures Settled(d, staged, script, answers).0.load == d.load
  {
  }

  /**
   What is recorded and answered of a run. A load is recorded as failed on the first command it had rejected, or on the
   command whose bind was refused; as timed out when its script was killed for it; and only one that committed is
   answered with the status.
   */
  lemma OutcomeExactly<Ip, Net>(env: Env<Ip, Net>, w: World<Net>, answers: Answers)
    requires Inv(env, w) && Enabled(w, Finish(answers)) && w.daemon.load.Some?
    ensures var t, run := Next(env, w, Finish(answers)), w.daemon.load.value;
            && t.daemon.load.None? && t.daemon.lastLoad.Some?
            && Tells(w.daemon, w.queue[0].1, w.accepted, run.staged.failed, answers, t.daemon.lastLoad.value)
            && (run.staged.failed.Some? <==> w.rejected)
            && t.answered
               == w.answered + [(run.request, if t.daemon.lastLoad.value.outcome == LoadOk then Status else Internal)]
  {
    FinishedTells(env, w.daemon, w.accepted, w.queue[0].1, answers);
  }

  lemma RefusalNamesTheBind<Ip, Net>(
    env: Env<Ip, Net>, d: Daemon<Net>, edits: seq<Edit>, staged: Run<Net>, answers: Answers)
    requires Recorded(d) && Amounts(env, edits, staged)
    ensures Committed(d, staged, answers).1 == Some(OnSetListen) <==> !FrontEndsGranted(d, LastListen(edits), answers)
    ensures Committed(d, staged, answers).1 in {None, Some(OnSetListen), Some(OnAddForward)}
  {
    if staged.listen.Some? {
      FrontEndsMoveAsGranted(d, staged.listen.value, answers);
    }
  }

  /** The first edit turned away under run `id` along a run of steps. */
  ghost function FirstRejected<Ip, Net>(env: Env<Ip, Net>, w: World<Net>, steps: seq<Step>, id: nat): Option<Edit>
    requires Runs(env, w, steps)
    decreases |steps|
  {
    if steps == [] then None
    else if RejectedBy(env, w, steps[0], id) then Some(steps[0].edit)
    else FirstRejected(env, Next(env, w, steps[0]), steps[1..], id)
  }

  lemma FailureMoves<Ip, Net>(env: Env<Ip, Net>, w: World<Net>, step: Step)
    requires Inv(env, w) && w.daemon.load.Some? && Enabled(w, step) && !step.Finish?
    ensures var id, t := w.daemon.load.value.id, Next(env, w, step).daemon;
            && t.load.Some? && t.load.value.id == id
            && t.load.value.staged.failed
               == if w.daemon.load.value.staged.failed.None? && RejectedBy(env, w, step, id)
                  then CommandOf(step.edit) else w.daemon.load.value.staged.failed
  {
    if step.Mutate? && step.load == Some(w.daemon.load.value.id) {
      FailureStep(env, w.daemon.load.value.staged, step.edit);
    }
  }

  /**
   While a run is in flight it has failed on the command of the first edit turned away under it, whatever came later.
   */
  lemma {:induction false} FailsOnTheFirstRejected<Ip, Net>(env: Env<Ip, Net>, w: World<Net>, steps: seq<Step>)
    requires Inv(env, w) && w.daemon.load.Some? && Runs(env, w, steps) && StillLoading(steps)
    ensures var id, t := w.daemon.load.value.id, After(env, w, steps).daemon;
            && t.load.Some? && t.load.value.id == id
            && t.load.value.staged.failed
               == if w.daemon.load.value.staged.failed.Some? then w.daemon.load.value.staged.failed
                  else match FirstRejected(env, w, steps, id)
                       case None => None
                       case Some(edit) => CommandOf(edit)
    decreases |steps|
  {
    if steps != [] {
      assert !steps[0].Finish? && StillLoading(steps[1..]);
      StepKeeps(env, w, steps[0]);
      FailureMoves(env, w, steps[0]);
      FailsOnTheFirstRejected(env, Next(env, w, steps[0]), steps[1..]);
      if w.daemon.load.value.staged.failed.None? && RejectedBy(env, w, steps[0], w.daemon.load.value.id) {
        assert CommandOf(steps[0].edit).Some?;
      }
    }
  }
}

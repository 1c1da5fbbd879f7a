/**
 The load protocol as a transition system: commands arrive, at most one init run is in flight, its script ends at some
 point, and its outcome comes back without saying whose it is. The system's answers to binds are inputs.
 */
module Loads {
  import opened Options
  import opened Upstreams
  import opened Forwards
  import opened Listeners
  import opened Staging
  import Rules

  datatype ScriptOutcome = Succeeded | Exited | TimedOut | NotRun

  datatype LoadOutcome = LoadOk | LoadFailed | LoadTimedOut

  datatype LastLoad = LastLoad(outcome: LoadOutcome, command: Option<FailedCommand>)

  datatype Reply = Done | Status | LoadInProgress | InvalidArgs | Internal | NotFound | Vanished

  datatype InFlight<Net> = InFlight(id: nat, staged: Run<Net>, request: nat)

  datatype Daemon<Net> = Daemon(
    rules: seq<Rules.Rule<Net>>,
    upstreams: Option<seq<Upstream>>, // the list published last, absent until one is
    forwards: seq<Forward>,
    listen: Listen,
    held: Option<Held>,               // absent while nothing is bound
    initPath: Option<string>,
    lastLoad: Option<LastLoad>,
    issued: nat,
    load: Option<InFlight<Net>>)

  /** The system's answers to the binds one command may attempt. */
  datatype Answers = Answers(http: Option<Addr>, socks: Option<Addr>, forwards: Binds)

  datatype Destination = ToStaging | ToLive | ToNothing

  // ---------- one command ----------

  function FrontEndsRebound<Net>(d: Daemon<Net>, listen: Listen, answers: Answers): Option<Daemon<Net>> {
    match d.held
    case None => Some(d.(listen := listen))
    case Some(held) =>
      match Moved(held, listen, answers.http, answers.socks)
      case None => None
      case Some(moved) => Some(d.(held := Some(moved), listen := Listening(moved)))
  }

  function ForwardsRebound<Net>(d: Daemon<Net>, wanted: seq<Forward>, answers: Answers): Option<Daemon<Net>> {
    match d.held
    case None => Some(d.(forwards := wanted))
    case Some(held) =>
      match ForwardsMoved(held, wanted, answers.forwards)
      case None => None
      case Some(moved) => Some(d.(held := Some(moved), forwards := Reported(moved.forwards)))
  }

  /** Where a command carrying `load` applies. */
  function TargetFor<Net>(d: Daemon<Net>, load: Option<nat>): Destination {
    if d.load.None? then (if load.None? then ToLive else ToNothing)
    else if load == Some(d.load.value.id) then ToStaging
    else ToNothing
  }

  function LiveEdited<Ip, Net>(env: Env<Ip, Net>, d: Daemon<Net>, edit: Edit, answers: Answers): (Daemon<Net>, Reply) {
    match edit
    case AddRule(ruleClass, kind, text) =>
      (match Rules.Pushed(env.library, d.rules, ruleClass, kind, text)
       case Some(rules) => (d.(rules := rules), Done)
       case None => (d, InvalidArgs))
    case ClearRules => (d.(rules := []), Done)
    case SetUpstreams(first, fallbacks) =>
      (match Parsed(env.reader, [first] + fallbacks)
       case Ok(list) => (d.(upstreams := Some(list)), Done)
       case Err(_) => (d, InvalidArgs))
    case SetListen(listen) =>
      (match FrontEndsRebound(d, listen, answers)
       case Some(moved) => (moved, Done)
       case None => (d, Internal))
    case AddForward(forward) =>
      match Pushed(d.forwards, forward)
      case Err(_) => (d, InvalidArgs)
      case Ok(wanted) =>
        match ForwardsRebound(d, wanted, answers)
        case Some(moved) => (moved, Done)
        case None => (d, Internal)
  }

  function Edited<Ip, Net>(env: Env<Ip, Net>, d: Daemon<Net>, edit: Edit, load: Option<nat>, answers: Answers)
    : (Daemon<Net>, Reply)
  {
    match TargetFor(d, load)
    case ToNothing => (d, LoadInProgress)
    case ToLive => LiveEdited(env, d, edit, answers)
    case ToStaging =>
      match d.load
      case None => (d, Vanished)
      case Some(flight) =>
        var (run, accepted) := Staged(env, flight.staged, edit);
        (d.(load := Some(flight.(staged := run))), if accepted then Done else InvalidArgs)
  }

  function TurnedOff<Net>(d: Daemon<Net>): (Daemon<Net>, Reply) {
    if d.load.Some? then (d, LoadInProgress) else (d.(rules := []), Done)
  }

  function ChosenPath<Net>(d: Daemon<Net>, path: Option<string>, initFile: string): string {
    match path
    case Some(given) => given
    case None => (match d.initPath case Some(remembered) => remembered case None => initFile)
  }

  /** A reload either starts a run, answered later, or is answered at once. */
  function Reloaded<Net>(d: Daemon<Net>, path: Option<string>, initFile: string, files: string -> bool, request: nat)
    : (Daemon<Net>, Option<Reply>)
  {
    var chosen := ChosenPath(d, path, initFile);
    if d.load.Some? then (d, Some(LoadInProgress))
    else if !files(chosen) then (d, Some(NotFound))
    else
      (d.(issued := d.issued + 1, initPath := Some(chosen), load := Some(InFlight(d.issued + 1, Nothing(), request))),
       None)
  }

  /** Front ends first, then forwards, then rules and upstreams; a refusal stops there. */
  function Committed<Net>(d: Daemon<Net>, staged: Run<Net>, answers: Answers): (Daemon<Net>, Option<FailedCommand>) {
    match (if staged.listen.None? then Some(d) else FrontEndsRebound(d, staged.listen.value, answers))
    case None => (d, Some(OnSetListen))
    case Some(moved) =>
      match ForwardsRebound(moved, staged.forwards, answers)
      case None => (moved, Some(OnAddForward))
      case Some(forwarded) =>
        (forwarded.(rules := staged.rules,
                    upstreams := if staged.upstream.Some? then staged.upstream else forwarded.upstreams),
         None)
  }

  function Settled<Net>(d: Daemon<Net>, staged: Run<Net>, outcome: ScriptOutcome, answers: Answers)
    : (Daemon<Net>, LastLoad)
  {
    match outcome
    case Succeeded =>
      if staged.failed.Some? then (d, LastLoad(LoadFailed, staged.failed))
      else
        var (after, refusal) := Committed(d, staged, answers);
        (after, if refusal.Some? then LastLoad(LoadFailed, refusal) else LastLoad(LoadOk, None))
    case Exited => (d, LastLoad(LoadFailed, staged.failed))
    case TimedOut => (d, LastLoad(LoadTimedOut, None))
    case NotRun => (d, LastLoad(LoadFailed, None))
  }

  /** The outcome of whatever run is in flight: the run is taken out, settled and answered. */
  function Finished<Net>(d: Daemon<Net>, outcome: ScriptOutcome, answers: Answers)
    : (Daemon<Net>, Option<(nat, Reply)>)
  {
    match d.load
    case None => (d, None)
    case Some(run) =>
      var (after, last) := Settled(d.(load := None), run.staged, outcome, answers);
      (after.(lastLoad := Some(last)), Some((run.request, if last.outcome == LoadOk then Status else Internal)))
  }

  // ---------- the daemon among its tasks ----------

  datatype World<Net> = World(
    daemon: Daemon<Net>,
    running: seq<nat>,                   // ids of the scripts whose task has not reported yet
    queue: seq<(nat, ScriptOutcome)>,    // reports not yet received; the id is not part of the message
    asked: multiset<nat>,                // every reload request ever made
    answered: seq<(nat, Reply)>,         // every answer ever given to one
    accepted: seq<Edit>,                 // edits accepted under the run in flight
    rejected: bool)                      // whether any was rejected under it

  datatype Step =
    | Mutate(edit: Edit, load: Option<nat>, answers: Answers)
    | Reload(path: Option<string>, initFile: string, files: string -> bool, request: nat)
    | TurnOff
    | ScriptEnds(index: nat, outcome: ScriptOutcome)
    | Finish(answers: Answers)

  /** The system behaves: it grants no address a live listener of ours holds. */
  ghost predicate SystemAllows<Net>(d: Daemon<Net>, wanted: seq<Forward>, answers: Answers) {
    d.held.Some? ==> SystemBinds(d.held.value, wanted, answers.forwards)
  }

  ghost predicate Enabled<Net>(w: World<Net>, step: Step) {
    match step
    case Mutate(edit, _, answers) =>
      edit.AddForward? ==> SystemAllows(w.daemon, w.daemon.forwards + [edit.forward], answers)
    case Reload(_, _, _, _) => true
    case TurnOff => true
    case ScriptEnds(i, _) => i < |w.running| && w.queue == []
    case Finish(answers) =>
      w.queue != [] && (w.daemon.load.Some? ==> SystemAllows(w.daemon, w.daemon.load.value.staged.forwards, answers))
  }

  ghost function Next<Ip, Net>(env: Env<Ip, Net>, w: World<Net>, step: Step): World<Net>
    requires Enabled(w, step)
  {
    match step
    case Mutate(edit, load, answers) =>
      var (d, reply) := Edited(env, w.daemon, edit, load, answers);
      var staged := TargetFor(w.daemon, load) == ToStaging;
      w.(daemon := d,
         accepted := if staged && reply == Done then w.accepted + [edit] else w.accepted,
         rejected := w.rejected || (staged && reply != Done))
    case Reload(path, initFile, files, request) =>
      Asked(w, request, Reloaded(w.daemon, path, initFile, files, request))
    case TurnOff => w.(daemon := TurnedOff(w.daemon).0)
    case ScriptEnds(i, outcome) =>
      w.(running := w.running[..i] + w.running[i + 1..], queue := w.queue + [(w.running[i], outcome)])
    case Finish(answers) =>
      var (d, answer) := Finished(w.daemon, w.queue[0].1, answers);
      w.(daemon := d, queue := w.queue[1..],
         answered := w.answered + if answer.Some? then [answer.value] else [])
  }

  /** A reload request is either answered at once or starts the script of a new run. */
  ghost function Asked<Net>(w: World<Net>, request: nat, result: (Daemon<Net>, Option<Reply>)): World<Net> {
    var (d, reply) := result;
    var asked := w.asked + multiset{request};
    if reply.Some? then w.(daemon := d, asked := asked, answered := w.answered + [(request, reply.value)])
    else w.(daemon := d, asked := asked, running := w.running + [d.issued], accepted := [], rejected := false)
  }

  ghost predicate Runs<Ip, Net>(env: Env<Ip, Net>, w: World<Net>, steps: seq<Step>)
    decreases |steps|
  {
    steps == [] || (Enabled(w, steps[0]) && Runs(env, Next(env, w, steps[0]), steps[1..]))
  }

  ghost function After<Ip, Net>(env: Env<Ip, Net>, w: World<Net>, steps: seq<Step>): World<Net>
    requires Runs(env, w, steps)
    decreases |steps|
  {
    if steps == [] then w else After(env, Next(env, w, steps[0]), steps[1..])
  }

  // ---------- what every step keeps ----------

  function Requests(answered: seq<(nat, Reply)>): multiset<nat> {
    if answered == [] then multiset{} else Requests(answered[..|answered| - 1]) + multiset{answered[|answered| - 1].0}
  }

  /** The recorded addresses are the held ones. */
  ghost predicate Recorded<Net>(d: Daemon<Net>) {
    && OnePerAddress(d.forwards)
    && (d.held.Some? ==>
          && Good(d.held.value)
          && d.listen == Listening(d.held.value)
          && d.forwards == Reported(d.held.value.forwards))
  }

  /** One task runs or one report waits exactly while a load is in flight, and it is that load's. */
  ghost predicate Matched<Net>(w: World<Net>) {
    match w.daemon.load
    case None => w.running == [] && w.queue == []
    case Some(run) =>
      && run.id == w.daemon.issued
      && ((w.running == [run.id] && w.queue == []) || (w.running == [] && |w.queue| == 1 && w.queue[0].0 == run.id))
  }

  /** Every reload request is answered once, or is the one the run in flight will answer. */
  ghost predicate AnsweredOnce<Net>(w: World<Net>) {
    w.asked == Requests(w.answered) + if w.daemon.load.Some? then multiset{w.daemon.load.value.request} else multiset{}
  }

  /** What is published is well formed. */
  ghost predicate Published<Net>(d: Daemon<Net>) {
    Rules.Numbered(d.rules) && (d.upstreams.Some? ==> Distinct(d.upstreams.value))
  }

  ghost predicate Inv<Ip, Net>(env: Env<Ip, Net>, w: World<Net>) {
    && Recorded(w.daemon) && Matched(w) && AnsweredOnce(w)
    && Published(w.daemon)
    && (w.daemon.load.Some? ==>
          && Amounts(env, w.accepted, w.daemon.load.value.staged)
          && (w.daemon.load.value.staged.failed.Some? <==> w.rejected))
  }

  lemma FrontEndsKeepRecorded<Net>(d: Daemon<Net>, listen: Listen, answers: Answers)
    requires Recorded(d)
    ensures var r := FrontEndsRebound(d, listen, answers);
            r.Some? ==>
              && Recorded(r.value)
              && r.value == d.(held := r.value.held, listen := r.value.listen)
              && (r.value.held.Some? <==> d.held.Some?)
              && (d.held.Some? ==> r.value.held.value.forwards == d.held.value.forwards)
  {
  }

  lemma ForwardsKeepRecorded<Net>(d: Daemon<Net>, wanted: seq<Forward>, answers: Answers)
    requires Recorded(d) && OnePerAddress(wanted) && SystemAllows(d, wanted, answers)
    ensures var r := ForwardsRebound(d, wanted, answers);
            r.Some? ==> Recorded(r.value) && r.value == d.(held := r.value.held, forwards := r.value.forwards)
  {
    if d.held.Some? {
      ForwardsMoveAllOrNothing(d.held.value, wanted, answers.forwards);
    }
  }

  lemma SystemIgnoresFrontEnds<Net>(d: Daemon<Net>, e: Daemon<Net>, wanted: seq<Forward>, answers: Answers)
    requires SystemAllows(d, wanted, answers) && (e.held.Some? <==> d.held.Some?)
    requires d.held.Some? ==> e.held.value.forwards == d.held.value.forwards
    ensures SystemAllows(e, wanted, answers)
  {
    if d.held.Some? {
      forall i: nat ensures ToOpen(e.held.value, wanted, i) == ToOpen(d.held.value, wanted, i) {
      }
    }
  }

  lemma CommitKeepsRecorded<Net>(d: Daemon<Net>, staged: Run<Net>, answers: Answers)
    requires Recorded(d) && OnePerAddress(staged.forwards) && SystemAllows(d, staged.forwards, answers)
    ensures Recorded(Committed(d, staged, answers).0)
  {
    var moved := if staged.listen.None? then Some(d) else FrontEndsRebound(d, staged.listen.value, answers);
    if staged.listen.Some? {
      FrontEndsKeepRecorded(d, staged.listen.value, answers);
    }
    if moved.Some? {
      SystemIgnoresFrontEnds(d, moved.value, staged.forwards, answers);
      ForwardsKeepRecorded(moved.value, staged.forwards, answers);
    }
  }

  lemma LiveEditKeeps<Ip, Net>(env: Env<Ip, Net>, w: World<Net>, edit: Edit, answers: Answers)
    requires Inv(env, w) && Enabled(w, Mutate(edit, None, answers)) && w.daemon.load.None?
    ensures Inv(env, Next(env, w, Mutate(edit, None, answers)))
  {
    var d := w.daemon;
    match edit
    case AddRule(_, _, _) =>
    case ClearRules =>
    case SetUpstreams(first, fallbacks) =>
      var parsed := Parsed(env.reader, [first] + fallbacks);
      if parsed.Ok? {
        ParsedExactly(env.reader, [first] + fallbacks, parsed.value);
      }
    case SetListen(listen) => FrontEndsKeepRecorded(d, listen, answers);
    case AddForward(forward) =>
      if Pushed(d.forwards, forward).Ok? {
        ForwardsKeepRecorded(d, d.forwards + [forward], answers);
      }
  }

  lemma RequestsGrow(answered: seq<(nat, Reply)>, answer: (nat, Reply))
    ensures Requests(answered + [answer]) == Requests(answered) + multiset{answer.0}
  {
    assert (answered + [answer])[..|answered|] == answered;
  }

  lemma CommitKeepsPublished<Net>(d: Daemon<Net>, staged: Run<Net>, answers: Answers)
    requires Published(d) && Rules.Numbered(staged.rules)
    requires staged.upstream.Some? ==> Distinct(staged.upstream.value)
    ensures var after := Committed(d, staged, answers).0;
            Published(after) && after.load == d.load && after.issued == d.issued
  {
  }

  lemma SettleKeeps<Net>(d: Daemon<Net>, staged: Run<Net>, outcome: ScriptOutcome, answers: Answers)
    requires Recorded(d) && Published(d) && OnePerAddress(staged.forwards) && SystemAllows(d, staged.forwards, answers)
    requires Rules.Numbered(staged.rules) && (staged.upstream.Some? ==> Distinct(staged.upstream.value))
    ensures var after := Settled(d, staged, outcome, answers).0;
            Recorded(after) && Published(after) && after.load == d.load && after.issued == d.issued
  {
    CommitKeepsRecorded(d, staged, answers);
    CommitKeepsPublished(d, staged, answers);
  }

  lemma FinishKeeps<Ip, Net>(env: Env<Ip, Net>, w: World<Net>, answers: Answers)
    requires Inv(env, w) && Enabled(w, Finish(answers))
    ensures Inv(env, Next(env, w, Finish(answers)))
  {
    SettleKeeps(w.daemon.(load := None), w.daemon.load.value.staged, w.queue[0].1, answers);
    var answer := Finished(w.daemon, w.queue[0].1, answers).1;
    RequestsGrow(w.answered, answer.value);
  }

  lemma AskedOnce<Net>(w: World<Net>, request: nat, d: Daemon<Net>, reply: Option<Reply>)
    requires AnsweredOnce(w)
    requires reply.Some? ==> d == w.daemon
    requires reply.None? ==> w.daemon.load.None? && d.load.Some? && d.load.value.request == request
    ensures AnsweredOnce(Asked(w, request, (d, reply)))
  {
    if reply.Some? {
      RequestsGrow(w.answered, (request, reply.value));
    }
  }

  lemma ReloadKeeps<Ip, Net>(env: Env<Ip, Net>, w: World<Net>, step: Step)
    requires Inv(env, w) && step.Reload?
    ensures Inv(env, Next(env, w, step))
  {
    var (d, reply) := Reloaded(w.daemon, step.path, step.initFile, step.files, step.request);
    AskedOnce(w, step.request, d, reply);
    if reply.Some? {
      assert d == w.daemon;
    } else {
      NothingAmounts(env);
      assert d.load.value.staged == Nothing();
      assert w.running + [d.issued] == [d.issued];
    }
  }

  lemma StepKeeps<Ip, Net>(env: Env<Ip, Net>, w: World<Net>, step: Step)
    requires Inv(env, w) && Enabled(w, step)
    ensures Inv(env, Next(env, w, step))
  {
    match step
    case Mutate(edit, load, answers) =>
      match TargetFor(w.daemon, load) {
        case ToNothing =>
        case ToLive => LiveEditKeeps(env, w, edit, answers);
        case ToStaging => StagedAmounts(env, w.accepted, w.daemon.load.value.staged, edit);
      }
    case Reload(_, _, _, _) => ReloadKeeps(env, w, step);
    case TurnOff =>
    case ScriptEnds(i, outcome) => assert i == 0;
    case Finish(answers) => FinishKeeps(env, w, answers);
  }
}

/** The daemon's state task in its own form: fields its commands reassign, front ends and a draft run it owns. */
module DaemonState {
  import opened Options
  import opened Upstreams
  import opened Forwards
  import opened Listeners
  import opened Staging
  import opened Loads
  import Rules

  datatype Flight<Ip, Net> = Flight(id: nat, staged: Draft<Ip, Net>, request: nat)

  class State<Ip, Net> {
    const env: Env<Ip, Net>
    const frontends: Bound? // null while nothing is bound
    var rules: seq<Rules.Rule<Net>>
    var upstreams: Option<seq<Upstream>>
    var forwards: seq<Forward>
    var listen: Listen
    var initPath: Option<string>
    var lastLoad: Option<LastLoad>
    var issued: nat
    var load: Option<Flight<Ip, Net>>

    constructor (env: Env<Ip, Net>, frontends: Bound?, listen: Listen)
      ensures this.env == env && this.frontends == frontends && Valid()
      ensures Value() == Daemon([], None, [], listen, if frontends == null then None else Some(frontends.Value()),
                                None, None, 0, None)
    {
      this.env, this.frontends := env, frontends;
      rules, upstreams, forwards, this.listen := [], None, [], listen;
      initPath, lastLoad, issued, load := None, None, 0, None;
    }

    function Owned(): set<object>
      reads this
    {
      {this} + (if frontends == null then {} else {frontends}) + (if load.Some? then {load.value.staged} else {})
    }

    ghost predicate Valid()
      reads this
    {
      load.Some? ==> load.value.staged.env == env
    }

    function Value(): Daemon<Net>
      reads this, Owned()
    {
      Daemon(rules, upstreams, forwards, listen, if frontends == null then None else Some(frontends.Value()),
             initPath, lastLoad, issued,
             if load.None? then None
             else Some(InFlight(load.value.id, load.value.staged.Value(), load.value.request)))
    }

    method Route(carried: Option<nat>) returns (target: Destination)
      ensures target == TargetFor(Value(), carried)
    {
      if load.None? {
        return if carried.None? then ToLive else ToNothing;
      }
      return if carried.Some? && carried.value == load.value.id then ToStaging else ToNothing;
    }

    method Rebind(moved: Listen, answers: Answers) returns (granted: bool)
      requires Valid()
      modifies this`listen, Owned() - {this}
      ensures Valid()
      ensures var r := FrontEndsRebound(old(Value()), moved, answers);
              granted == r.Some? && Value() == (if granted then r.value else old(Value()))
    {
      if frontends == null {
        listen := moved;
        return true;
      }
      var held := frontends.Rebind(moved, answers.http, answers.socks);
      if held.None? {
        return false;
      }
      listen := held.value;
      return true;
    }

    method RebindForwards(wanted: seq<Forward>, answers: Answers) returns (granted: bool)
      requires Valid() && Recorded(Value()) && OnePerAddress(wanted) && SystemAllows(Value(), wanted, answers)
      modifies this`forwards, Owned() - {this}
      ensures Valid()
      ensures var r := ForwardsRebound(old(Value()), wanted, answers);
              granted == r.Some? && Value() == (if granted then r.value else old(Value()))
    {
      if frontends == null {
        forwards := wanted;
        return true;
      }
      ghost var before := frontends.Value();
      ForwardsMoveAllOrNothing(before, wanted, answers.forwards);
      var held := frontends.RebindForwards(wanted, answers.forwards);
      if held.None? {
        return false;
      }
      forwards := held.value;
      return true;
    }

    /** One configuration command: routed, then applied to the draft in flight or at once. */
    method Edit(edit: Edit, carried: Option<nat>, answers: Answers) returns (reply: Reply)
      requires Valid() && Recorded(Value())
      requires edit.AddForward? ==> SystemAllows(Value(), forwards + [edit.forward], answers)
      modifies Owned()
      ensures Valid() && Owned() == old(Owned())
      ensures (Value(), reply) == Edited(env, old(Value()), edit, carried, answers)
    {
      var target := Route(carried);
      match target {
        case ToNothing => return LoadInProgress;
        case ToStaging => reply := EditDraft(edit);
        case ToLive => reply := EditLive(edit, answers);
      }
    }

    method EditDraft(edit: Edit) returns (reply: Reply)
      requires Valid()
      modifies if load.Some? then {load.value.staged} else {}
      ensures Valid()
      ensures load.None? ==> reply == Vanished
      ensures load.Some? ==>
                var (run, accepted) := Staged(env, old(load.value.staged.Value()), edit);
                load.value.staged.Value() == run && reply == (if accepted then Done else InvalidArgs)
    {
      if load.None? {
        return Vanished;
      }
      var draft := load.value.staged;
      var accepted := true;
      match edit {
        case AddRule(ruleClass, kind, text) => accepted := draft.PushRule(ruleClass, kind, text);
        case ClearRules => draft.Clear();
        case SetUpstreams(first, fallbacks) => accepted := draft.SetUpstream(first, fallbacks);
        case SetListen(moved) => draft.Listen(moved);
        case AddForward(forward) => accepted := draft.PushForward(forward);
      }
      return if accepted then Done else InvalidArgs;
    }

    method EditLive(edit: Edit, answers: Answers) returns (reply: Reply)
      requires Valid() && Recorded(Value()) && load.None?
      requires edit.AddForward? ==> SystemAllows(Value(), forwards + [edit.forward], answers)
      modifies this`rules, this`upstreams, this`listen, this`forwards, Owned() - {this}
      ensures Valid()
      ensures (Value(), reply) == LiveEdited(env, old(Value()), edit, answers)
    {
      match edit {
        case AddRule(ruleClass, kind, text) =>
          var pushed := Rules.Pushed(env.library, rules, ruleClass, kind, text);
          if pushed.None? {
            return InvalidArgs;
          }
          rules := pushed.value;
          return Done;
        case ClearRules =>
          rules := [];
          return Done;
        case SetUpstreams(first, fallbacks) =>
          var parsed := Parse(env.reader, first, fallbacks);
          if parsed.Err? {
            return InvalidArgs;
          }
          upstreams := Some(parsed.value);
          return Done;
        case SetListen(moved) =>
          var granted := Rebind(moved, answers);
          return if granted then Done else Internal;
        case AddForward(forward) =>
          var pushed := Push(forwards, forward);
          if pushed.Err? {
            return InvalidArgs;
          }
          var granted := RebindForwards(pushed.value, answers);
          return if granted then Done else Internal;
      }
    }

    method TurnOff() returns (reply: Reply)
      requires Valid()
      modifies this`rules
      ensures Valid() && (Value(), reply) == TurnedOff(old(Value()))
    {
      if load.Some? {
        return LoadInProgress;
      }
      rules := [];
      return Done;
    }

    /** Starts a run, or answers at once; `started` tells whether a script is now to be run under `issued`. */
    method Reload(path: Option<string>, initFile: string, files: string -> bool, request: nat)
      returns (reply: Option<Reply>)
      requires Valid()
      modifies this
      ensures Valid() && fresh(Owned() - old(Owned()))
      ensures (Value(), reply) == Reloaded(old(Value()), path, initFile, files, request)
    {
      if load.Some? {
        return Some(LoadInProgress);
      }
      var chosen := initFile;
      if path.Some? {
        chosen := path.value;
      } else if initPath.Some? {
        chosen := initPath.value;
      }
      if !files(chosen) {
        return Some(NotFound);
      }
      issued := issued + 1;
      initPath := Some(chosen);
      var draft := new Draft(env);
      load := Some(Flight(issued, draft, request));
      return None;
    }

    method Finish(outcome: ScriptOutcome, answers: Answers) returns (answer: Option<(nat, Reply)>)
      requires Valid() && Recorded(Value())
      requires load.Some? ==>
                 OnePerAddress(load.value.staged.forwards) && SystemAllows(Value(), load.value.staged.forwards, answers)
      modifies Owned()
      ensures Valid()
      ensures (Value(), answer) == Finished(old(Value()), outcome, answers)
    {
      if load.None? {
        return None;
      }
      var run := load.value;
      load := None;
      var last := Settle(run.staged, outcome, answers);
      lastLoad := Some(last);
      return Some((run.request, if last.outcome == LoadOk then Status else Internal));
    }

    method Settle(staged: Draft<Ip, Net>, outcome: ScriptOutcome, answers: Answers) returns (last: LastLoad)
      requires Valid() && Recorded(Value()) && load.None?
      requires OnePerAddress(staged.forwards) && SystemAllows(Value(), staged.forwards, answers)
      modifies this`rules, this`upstreams, this`listen, this`forwards, Owned() - {this}
      ensures Valid() && (Value(), last) == Settled(old(Value()), old(staged.Value()), outcome, answers)
    {
      match outcome {
        case Succeeded =>
          if staged.failed.Some? {
            return LastLoad(LoadFailed, staged.failed);
          }
          var refusal := Commit(staged, answers);
          return if refusal.Some? then LastLoad(LoadFailed, refusal) else LastLoad(LoadOk, None);
        case Exited => return LastLoad(LoadFailed, staged.failed);
        case TimedOut => return LastLoad(LoadTimedOut, None);
        case NotRun => return LastLoad(LoadFailed, None);
      }
    }

    method Commit(staged: Draft<Ip, Net>, answers: Answers) returns (refusal: Option<FailedCommand>)
      requires Valid() && Recorded(Value()) && load.None?
      requires OnePerAddress(staged.forwards) && SystemAllows(Value(), staged.forwards, answers)
      modifies this`rules, this`upstreams, this`listen, this`forwards, Owned() - {this}
      ensures Valid() && (Value(), refusal) == Committed(old(Value()), old(staged.Value()), answers)
    {
      if staged.listen.Some? {
        FrontEndsKeepRecorded(Value(), staged.listen.value, answers);
        ghost var before := Value();
        var granted := Rebind(staged.listen.value, answers);
        if !granted {
          return Some(OnSetListen);
        }
        SystemIgnoresFrontEnds(before, Value(), staged.forwards, answers);
      }
      var granted := RebindForwards(staged.forwards, answers);
      if !granted {
        return Some(OnAddForward);
      }
      rules := staged.rules;
      if staged.upstream.Some? {
        upstreams := staged.upstream;
      }
      return None;
    }
  }
}

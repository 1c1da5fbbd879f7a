/** What one init run has declared so far, and what the commands it had accepted amount to. */
module Staging {
  import opened Options
  import opened Upstreams
  import opened Forwards
  import opened Listeners
  import opened Matching
  import Rules

  /** The libraries the daemon reads values with. */
  datatype Env<!Ip, !Net> = Env(library: Library<Ip, Net>, reader: Reader)

  /** A command that changes configuration, without the run it belongs to. */
  datatype Edit =
    | AddRule(ruleClass: Rules.RuleClass, kind: Kind, text: string)
    | ClearRules
    | SetUpstreams(first: string, fallbacks: seq<string>)
    | SetListen(listen: Listen)
    | AddForward(forward: Forward)

  datatype FailedCommand = OnAddRule | OnSetUpstream | OnSetUpstreams | OnSetListen | OnAddForward

  datatype Run<Net> = Run(
    rules: seq<Rules.Rule<Net>>,
    upstream: Option<seq<Upstream>>,
    listen: Option<Listen>,
    forwards: seq<Forward>,
    failed: Option<FailedCommand>)

  function Nothing<Net>(): Run<Net> {
    Run([], None, None, [], None)
  }

  /** Only the first failure is kept. */
  function Failed<Net>(run: Run<Net>, command: FailedCommand): Run<Net> {
    if run.failed.Some? then run else run.(failed := Some(command))
  }

  /** The run after one edit, and whether the edit was accepted. */
  function Staged<Ip, Net>(env: Env<Ip, Net>, run: Run<Net>, edit: Edit): (Run<Net>, bool) {
    match edit
    case AddRule(ruleClass, kind, text) =>
      (match Rules.Pushed(env.library, run.rules, ruleClass, kind, text)
       case Some(rules) => (run.(rules := rules), true)
       case None => (Failed(run, OnAddRule), false))
    case ClearRules => (run.(rules := []), true)
    case SetUpstreams(first, fallbacks) =>
      (match Parsed(env.reader, [first] + fallbacks)
       case Ok(list) => (run.(upstream := Some(list)), true)
       case Err(_) => (Failed(run, if fallbacks == [] then OnSetUpstream else OnSetUpstreams), false))
    case SetListen(listen) => (run.(listen := Some(listen)), true)
    case AddForward(forward) =>
      (match Pushed(run.forwards, forward)
       case Ok(forwards) => (run.(forwards := forwards), true)
       case Err(_) => (Failed(run, OnAddForward), false))
  }

  class Draft<Ip, Net> {
    const env: Env<Ip, Net>
    var rules: seq<Rules.Rule<Net>>
    var upstream: Option<seq<Upstream>>
    var listen: Option<Listen>
    var forwards: seq<Forward>
    var failed: Option<FailedCommand>

    constructor (env: Env<Ip, Net>)
      ensures this.env == env && Value() == Nothing()
    {
      this.env := env;
      rules, upstream, listen, forwards, failed := [], None, None, [], None;
    }

    function Value(): Run<Net>
      reads this
    {
      Run(rules, upstream, listen, forwards, failed)
    }

    method Fail(command: FailedCommand)
      modifies this`failed
      ensures Value() == Failed(old(Value()), command)
    {
      if failed.None? {
        failed := Some(command);
      }
    }

    method PushRule(ruleClass: Rules.RuleClass, kind: Kind, text: string) returns (accepted: bool)
      modifies this
      ensures (Value(), accepted) == Staged(env, old(Value()), AddRule(ruleClass, kind, text))
    {
      var pushed := Rules.Pushed(env.library, rules, ruleClass, kind, text);
      if pushed.Some? {
        rules := pushed.value;
        return true;
      }
      Fail(OnAddRule);
      return false;
    }

    method Clear()
      modifies this
      ensures (Value(), true) == Staged(env, old(Value()), ClearRules)
    {
      rules := [];
    }

    method SetUpstream(first: string, fallbacks: seq<string>) returns (accepted: bool)
      modifies this
      ensures (Value(), accepted) == Staged(env, old(Value()), SetUpstreams(first, fallbacks))
    {
      var sent := if fallbacks == [] then OnSetUpstream else OnSetUpstreams;
      var parsed := Parse(env.reader, first, fallbacks);
      if parsed.Err? {
        Fail(sent);
        return false;
      }
      upstream := Some(parsed.value);
      return true;
    }

    method Listen(moved: Listen)
      modifies this
      ensures (Value(), true) == Staged(env, old(Value()), SetListen(moved))
    {
      listen := Some(moved);
    }

    method PushForward(forward: Forward) returns (accepted: bool)
      modifies this
      ensures (Value(), accepted) == Staged(env, old(Value()), AddForward(forward))
    {
      var pushed := Push(forwards, forward);
      if pushed.Ok? {
        forwards := pushed.value;
        return true;
      }
      Fail(OnAddForward);
      return false;
    }
  }

  // ---------- what a list of accepted edits amounts to ----------

  /** The edits after the last clear. */
  function SinceClear(edits: seq<Edit>): seq<Edit> {
    if edits == [] then []
    else if edits[|edits| - 1].ClearRules? then []
    else SinceClear(edits[..|edits| - 1]) + [edits[|edits| - 1]]
  }

  function OnlyRules(edits: seq<Edit>): seq<Edit> {
    if edits == [] then []
    else OnlyRules(edits[..|edits| - 1]) + if edits[|edits| - 1].AddRule? then [edits[|edits| - 1]] else []
  }

  /** The forwards declared, in order; a clear of the rules does not touch them. */
  function DeclaredForwards(edits: seq<Edit>): seq<Forward> {
    if edits == [] then []
    else
      var last := edits[|edits| - 1];
      DeclaredForwards(edits[..|edits| - 1]) + if last.AddForward? then [last.forward] else []
  }

  /** The last upstream list named, if any. */
  function LastUpstreams(edits: seq<Edit>): Option<Edit> {
    if edits == [] then None
    else if edits[|edits| - 1].SetUpstreams? then Some(edits[|edits| - 1])
    else LastUpstreams(edits[..|edits| - 1])
  }

  function LastListen(edits: seq<Edit>): Option<Listen> {
    if edits == [] then None
    else if edits[|edits| - 1].SetListen? then Some(edits[|edits| - 1].listen)
    else LastListen(edits[..|edits| - 1])
  }

  /** `rule` is what `edit` adds at position `i`. */
  ghost predicate RuleDeclared<Ip, Net>(env: Env<Ip, Net>, edit: Edit, rule: Rules.Rule<Net>, i: nat) {
    && edit.AddRule?
    && rule == Rules.Rule(i, edit.ruleClass, rule.matcher, edit.text)
    && ParseMatcher(env.library, edit.kind, edit.text) == Some(rule.matcher)
  }

  ghost predicate EachDeclared<Ip, Net>(env: Env<Ip, Net>, added: seq<Edit>, rules: seq<Rules.Rule<Net>>) {
    && |rules| == |added|
    && forall i: nat :: i < |rules| ==> RuleDeclared(env, added[i], rules[i], i)
  }

  /** `rules` are the rules added since the last clear, each read as its kind and numbered by position. */
  ghost predicate RulesDeclared<Ip, Net>(env: Env<Ip, Net>, edits: seq<Edit>, rules: seq<Rules.Rule<Net>>) {
    EachDeclared(env, OnlyRules(SinceClear(edits)), rules)
  }

  /** `upstream` is the list the last `SetUpstreams` reads as, absent when there is none. */
  ghost predicate UpstreamDeclared<Ip, Net>(env: Env<Ip, Net>, edits: seq<Edit>, upstream: Option<seq<Upstream>>) {
    match LastUpstreams(edits)
    case None => upstream.None?
    case Some(edit) =>
      edit.SetUpstreams? && upstream.Some? && Distinct(upstream.value)
      && Reads(env.reader, [edit.first] + edit.fallbacks, upstream.value)
  }

  /** Everything a run holds is what its accepted edits amount to. */
  ghost predicate Amounts<Ip, Net>(env: Env<Ip, Net>, edits: seq<Edit>, run: Run<Net>) {
    && RulesDeclared(env, edits, run.rules)
    && UpstreamDeclared(env, edits, run.upstream)
    && run.listen == LastListen(edits)
    && run.forwards == DeclaredForwards(edits)
    && OnePerAddress(run.forwards)
  }

  lemma NothingAmounts<Ip, Net>(env: Env<Ip, Net>)
    ensures Amounts(env, [], Nothing<Net>())
  {
  }

  lemma RulesUnfold(edits: seq<Edit>, edit: Edit)
    ensures OnlyRules(SinceClear(edits + [edit]))
            == if edit.ClearRules? then [] else OnlyRules(SinceClear(edits)) + if edit.AddRule? then [edit] else []
  {
    var grown := edits + [edit];
    assert grown[..|grown| - 1] == edits;
    if !edit.ClearRules? {
      var since := SinceClear(edits) + [edit];
      assert SinceClear(grown) == since && since[..|since| - 1] == SinceClear(edits);
    }
  }

  lemma LastsUnfold(edits: seq<Edit>, edit: Edit)
    ensures LastUpstreams(edits + [edit]) == if edit.SetUpstreams? then Some(edit) else LastUpstreams(edits)
    ensures LastListen(edits + [edit]) == if edit.SetListen? then Some(edit.listen) else LastListen(edits)
  {
    assert (edits + [edit])[..|edits|] == edits;
  }

  lemma ForwardsUnfold(edits: seq<Edit>, edit: Edit)
    ensures DeclaredForwards(edits + [edit])
            == DeclaredForwards(edits) + if edit.AddForward? then [edit.forward] else []
  {
    assert (edits + [edit])[..|edits|] == edits;
  }

  lemma OneMoreRule<Ip, Net>(env: Env<Ip, Net>, added: seq<Edit>, rules: seq<Rules.Rule<Net>>, edit: Edit)
    requires EachDeclared(env, added, rules) && edit.AddRule?
    ensures var pushed := Rules.Pushed(env.library, rules, edit.ruleClass, edit.kind, edit.text);
            pushed.Some? ==> EachDeclared(env, added + [edit], pushed.value)
  {
    var pushed := Rules.Pushed(env.library, rules, edit.ruleClass, edit.kind, edit.text);
    if pushed.Some? {
      assert RuleDeclared(env, edit, pushed.value[|rules|], |rules|);
    }
  }

  lemma RulesFollow<Ip, Net>(env: Env<Ip, Net>, edits: seq<Edit>, run: Run<Net>, edit: Edit)
    requires RulesDeclared(env, edits, run.rules) && Staged(env, run, edit).1
    ensures RulesDeclared(env, edits + [edit], Staged(env, run, edit).0.rules)
  {
    RulesUnfold(edits, edit);
    if edit.AddRule? {
      OneMoreRule(env, OnlyRules(SinceClear(edits)), run.rules, edit);
    } else {
      assert edit.ClearRules? || Staged(env, run, edit).0.rules == run.rules;
      assert OnlyRules(SinceClear(edits)) + [] == OnlyRules(SinceClear(edits));
    }
  }

  lemma UpstreamFollows<Ip, Net>(env: Env<Ip, Net>, edits: seq<Edit>, run: Run<Net>, edit: Edit)
    requires UpstreamDeclared(env, edits, run.upstream) && Staged(env, run, edit).1
    ensures UpstreamDeclared(env, edits + [edit], Staged(env, run, edit).0.upstream)
  {
    LastsUnfold(edits, edit);
    if edit.SetUpstreams? {
      ParsedExactly(env.reader, [edit.first] + edit.fallbacks, Staged(env, run, edit).0.upstream.value);
    }
  }

  lemma OneMoreForward(forwards: seq<Forward>, forward: Forward)
    requires OnePerAddress(forwards) && Pushed(forwards, forward).Ok?
    ensures Pushed(forwards, forward).value == forwards + [forward] && OnePerAddress(forwards + [forward])
  {
  }

  lemma OthersLeaveForwards<Ip, Net>(env: Env<Ip, Net>, run: Run<Net>, edit: Edit)
    requires !edit.AddForward?
    ensures Staged(env, run, edit).0.forwards == run.forwards
  {
  }

  lemma ForwardsFollow<Ip, Net>(env: Env<Ip, Net>, edits: seq<Edit>, run: Run<Net>, edit: Edit)
    requires run.forwards == DeclaredForwards(edits) && OnePerAddress(run.forwards) && Staged(env, run, edit).1
    ensures var after := Staged(env, run, edit).0;
            after.forwards == DeclaredForwards(edits + [edit]) && OnePerAddress(after.forwards)
  {
    ForwardsUnfold(edits, edit);
    if edit.AddForward? {
      OneMoreForward(run.forwards, edit.forward);
    } else {
      OthersLeaveForwards(env, run, edit);
      assert run.forwards + [] == run.forwards;
    }
  }

  /** One more edit, accepted or not, keeps a run equal to what its accepted edits amount to. */
  lemma StagedAmounts<Ip, Net>(env: Env<Ip, Net>, edits: seq<Edit>, run: Run<Net>, edit: Edit)
    requires Amounts(env, edits, run)
    ensures var (after, accepted) := Staged(env, run, edit);
            && Amounts(env, if accepted then edits + [edit] else edits, after)
            && (after.failed.Some? <==> run.failed.Some? || !accepted)
  {
    if Staged(env, run, edit).1 {
      RulesFollow(env, edits, run, edit);
      UpstreamFollows(env, edits, run, edit);
      ForwardsFollow(env, edits, run, edit);
      LastsUnfold(edits, edit);
    }
  }

  // ---------- the first failure ----------

  /** The command an edit is sent as. */
  function CommandOf(edit: Edit): Option<FailedCommand> {
    match edit
    case AddRule(_, _, _) => Some(OnAddRule)
    case ClearRules => None // never rejected
    case SetUpstreams(_, fallbacks) => Some(if fallbacks == [] then OnSetUpstream else OnSetUpstreams)
    case SetListen(_) => Some(OnSetListen)
    case AddForward(_) => Some(OnAddForward)
  }

  /** A run after a sequence of edits, accepted or not. */
  function StagedAll<Ip, Net>(env: Env<Ip, Net>, run: Run<Net>, edits: seq<Edit>): Run<Net> {
    if edits == [] then run
    else
      var n := |edits| - 1;
      Staged(env, StagedAll(env, run, edits[..n]), edits[n]).0
  }

  /** Edit `k` of the sequence is turned away. */
  ghost predicate TurnedAway<Ip, Net>(env: Env<Ip, Net>, run: Run<Net>, edits: seq<Edit>, k: nat)
    requires k < |edits|
  {
    !Staged(env, StagedAll(env, run, edits[..k]), edits[k]).1
  }

  /** One edit leaves a failure already there alone, and otherwise fails the run on its own command when turned away. */
  lemma FailureStep<Ip, Net>(env: Env<Ip, Net>, run: Run<Net>, edit: Edit)
    ensures var (after, accepted) := Staged(env, run, edit);
            after.failed == if run.failed.Some? || accepted then run.failed else CommandOf(edit)
  {
  }

  /** Edit `k` is the first one turned away. */
  ghost predicate FirstTurnedAway<Ip, Net>(env: Env<Ip, Net>, run: Run<Net>, edits: seq<Edit>, k: nat) {
    k < |edits| && TurnedAway(env, run, edits, k) && forall j: nat :: j < k ==> !TurnedAway(env, run, edits, j)
  }

  lemma TurnedAwayInPrefix<Ip, Net>(env: Env<Ip, Net>, run: Run<Net>, edits: seq<Edit>, n: nat, k: nat)
    requires k < n <= |edits|
    ensures TurnedAway(env, run, edits[..n], k) == TurnedAway(env, run, edits, k)
  {
    assert edits[..n][..k] == edits[..k];
  }

  lemma FirstInPrefix<Ip, Net>(env: Env<Ip, Net>, run: Run<Net>, edits: seq<Edit>, n: nat, k: nat)
    requires n <= |edits| && FirstTurnedAway(env, run, edits[..n], k)
    ensures FirstTurnedAway(env, run, edits, k) && edits[..n][k] == edits[k]
  {
    forall j: nat | j <= k ensures TurnedAway(env, run, edits[..n], j) == TurnedAway(env, run, edits, j) {
      TurnedAwayInPrefix(env, run, edits, n, j);
    }
  }

  /**
   However many edits are turned away, the run has failed on the command of the first one; and on none if none was.
   */
  lemma {:induction false} FailsOnTheFirst<Ip, Net>(env: Env<Ip, Net>, run: Run<Net>, edits: seq<Edit>)
    requires run.failed.None?
    ensures StagedAll(env, run, edits).failed.None? ==>
              forall k: nat :: k < |edits| ==> !TurnedAway(env, run, edits, k)
    ensures StagedAll(env, run, edits).failed.Some? ==>
              exists k: nat :: FirstTurnedAway(env, run, edits, k)
                               && StagedAll(env, run, edits).failed == CommandOf(edits[k])
  {
    if edits != [] {
      var n: nat := |edits| - 1;
      FailsOnTheFirst(env, run, edits[..n]);
      FailureStep(env, StagedAll(env, run, edits[..n]), edits[n]);
      if StagedAll(env, run, edits[..n]).failed.Some? {
        var k: nat :| FirstTurnedAway(env, run, edits[..n], k)
                      && StagedAll(env, run, edits[..n]).failed == CommandOf(edits[..n][k]);
        FirstInPrefix(env, run, edits, n, k);
      } else {
        forall k: nat | k < n ensures !TurnedAway(env, run, edits, k) {
          TurnedAwayInPrefix(env, run, edits, n, k);
        }
        if StagedAll(env, run, edits).failed.Some? {
          assert FirstTurnedAway(env, run, edits, n);
        }
      }
    }
  }
}

/** What one rule matches. */
module Matching {
  import opened Options
  import opened Text

  datatype Kind = Suffix | Cidr | Port | Keyword

  /** Library business this model takes as given: case folding, and reading and comparing addresses. */
  datatype Library<!Ip, !Net> = Library(
    lower: string -> string,
    readIp: string -> Option<Ip>,
    readNetwork: string -> Option<Net>,
    inside: (Net, Ip) -> bool)

  datatype Host<Ip> = Host(name: string, address: Option<Ip>)

  datatype Matcher<Net> =
    | BySuffix(suffix: string)
    | ByNetwork(network: Net)
    | ByPort(port: nat)
    | ByKeyword(keyword: string)

  function WithoutFinalDot(s: string): string {
    if EndsWith(s, ".") then s[..|s| - 1] else s
  }

  function Normalized<Ip, Net>(library: Library<Ip, Net>, host: string): Host<Ip> {
    var name := library.lower(WithoutFinalDot(host));
    Host(name, library.readIp(name))
  }

  predicate HasSpace(s: string) {
    exists i :: 0 <= i < |s| && IsSpace(s[i])
  }

  function ParseMatcher<Ip, Net>(library: Library<Ip, Net>, kind: Kind, value: string): Option<Matcher<Net>> {
    match kind
    case Suffix =>
      var suffix := library.lower(WithoutFinalDot(value));
      if suffix == "" || HasSpace(suffix) || StartsWith(suffix, ".") || '*' in suffix then None
      else Some(BySuffix(suffix))
    case Cidr =>
      (match library.readNetwork(value)
       case None => None
       case Some(network) => Some(ByNetwork(network)))
    case Port =>
      (match ParseUpTo(value, 65535)
       case None => None
       case Some(port) => Some(ByPort(port)))
    case Keyword =>
      var keyword := library.lower(value);
      if keyword == "" || HasSpace(keyword) then None else Some(ByKeyword(keyword))
  }

  predicate SuffixMatches(suffix: string, host: string) {
    host == suffix || (EndsWith(host, suffix) && EndsWith(host[..|host| - |suffix|], "."))
  }

  predicate Matches<Ip, Net>(library: Library<Ip, Net>, matcher: Matcher<Net>, host: Host<Ip>, port: nat) {
    match matcher
    case BySuffix(suffix) => SuffixMatches(suffix, host.name)
    case ByNetwork(network) => host.address.Some? && library.inside(network, host.address.value)
    case ByPort(expected) => expected == port
    case ByKeyword(keyword) => Find(host.name, keyword).Some?
  }

  function Labels(name: string): seq<string> {
    Split(name, ".")
  }

  /** A suffix matches a host exactly when its labels are the host's last labels, whatever the text of either. */
  lemma SuffixMatchesLabels(suffix: string, host: string)
    ensures SuffixMatches(suffix, host)
            <==> |Labels(suffix)| <= |Labels(host)|
                 && Labels(host)[|Labels(host)| - |Labels(suffix)|..] == Labels(suffix)
  {
    var mine, theirs := Labels(suffix), Labels(host);
    if EndsWith(host, suffix) && EndsWith(host[..|host| - |suffix|], ".") {
      var head := host[..|host| - |suffix| - 1];
      assert host == head + ['.'] + suffix;
      SplitAt(head, '.', suffix);
    }
    if |mine| <= |theirs| && theirs[|theirs| - |mine|..] == mine {
      JoinSplit(suffix, ".");
      JoinSplit(host, ".");
      var front := theirs[..|theirs| - |mine|];
      assert theirs == front + mine;
      if front == [] {
        assert theirs == mine;
      } else {
        JoinAppends(front, mine, ".");
        assert host == Join(front, ".") + "." + suffix;
      }
    }
  }

  // ---------- what each kind accepts and hits, in the words of its texts ----------

  /** A name without the one dot that may end it. */
  lemma FinalDotExactly(s: string)
    ensures WithoutFinalDot(s + ".") == s
    ensures s == "" || s[|s| - 1] != '.' ==> WithoutFinalDot(s) == s
  {
    assert (s + ".")[..|s|] == s && (s + ".")[|s|..] == ".";
  }

  lemma EndsInDot(s: string)
    ensures EndsWith(s, ".") <==> s != "" && s[|s| - 1] == '.'
  {
    if s != "" {
      assert s[|s| - 1..] == [s[|s| - 1]];
    }
  }

  /** `keyword` stands somewhere in `name`. */
  ghost predicate Contains(name: string, keyword: string) {
    exists a: string, b: string :: name == a + keyword + b
  }

  lemma ContainsExactly(name: string, keyword: string)
    ensures Contains(name, keyword) <==> Find(name, keyword).Some?
  {
    if Find(name, keyword).Some? {
      var i := Find(name, keyword).value;
      assert name == name[..i] + keyword + name[i + |keyword|..];
    }
    if Contains(name, keyword) {
      var a: string, b: string :| name == a + keyword + b;
      assert name[|a|..|a| + |keyword|] == keyword;
      assert OccursAt(name, keyword, |a|);
    }
  }

  /** The destination a rule is compared with: without its final dot, folded. */
  function Destination<Ip, Net>(library: Library<Ip, Net>, host: string): string {
    library.lower(if host != "" && host[|host| - 1] == '.' then host[..|host| - 1] else host)
  }

  /** A rule of this kind and text hits the destination. */
  ghost predicate TextHits<Ip, Net>(library: Library<Ip, Net>, kind: Kind, text: string, host: string, port: nat) {
    var name := Destination(library, host);
    match kind
    case Suffix =>
      var mine, theirs := Labels(Destination(library, text)), Labels(name);
      |mine| <= |theirs| && theirs[|theirs| - |mine|..] == mine
    case Keyword => Contains(name, library.lower(text))
    case Port => ParseUpTo(text, 65535) == Some(port)
    case Cidr =>
      && library.readNetwork(text).Some? && library.readIp(name).Some?
      && library.inside(library.readNetwork(text).value, library.readIp(name).value)
  }

  /** A text is a rule of this kind. */
  ghost predicate TextReads<Ip, Net>(library: Library<Ip, Net>, kind: Kind, text: string) {
    match kind
    case Suffix =>
      var suffix := Destination(library, text);
      suffix != "" && suffix[0] != '.' && '*' !in suffix
      && forall k :: 0 <= k < |suffix| ==> !IsSpace(suffix[k])
    case Keyword =>
      var keyword := library.lower(text);
      keyword != "" && forall k :: 0 <= k < |keyword| ==> !IsSpace(keyword[k])
    case Port => ParseUpTo(text, 65535).Some?
    case Cidr => library.readNetwork(text).Some?
  }

  lemma DestinationIs<Ip, Net>(library: Library<Ip, Net>, host: string)
    ensures Destination(library, host) == library.lower(WithoutFinalDot(host))
  {
    EndsInDot(host);
  }

  lemma StartsWithDot(s: string)
    ensures StartsWith(s, ".") <==> s != "" && s[0] == '.'
  {
    if s != "" {
      assert s[..1] == [s[0]];
    }
  }

  /** Which texts are accepted as a rule of which kind. */
  lemma AcceptedExactly<Ip, Net>(library: Library<Ip, Net>, kind: Kind, text: string)
    ensures ParseMatcher(library, kind, text).Some? <==> TextReads(library, kind, text)
  {
    DestinationIs(library, text);
    StartsWithDot(Destination(library, text));
  }

  /** What an accepted rule hits, for every kind, text and destination. */
  lemma HitsExactly<Ip, Net>(library: Library<Ip, Net>, kind: Kind, text: string, host: string, port: nat)
    requires ParseMatcher(library, kind, text).Some?
    ensures Matches(library, ParseMatcher(library, kind, text).value, Normalized(library, host), port)
            <==> TextHits(library, kind, text, host, port)
  {
    DestinationIs(library, host);
    match kind
    case Suffix =>
      DestinationIs(library, text);
      SuffixMatchesLabels(Destination(library, text), Destination(library, host));
    case Keyword => ContainsExactly(Destination(library, host), library.lower(text));
    case Port =>
    case Cidr =>
  }
}

/** Rules in declaration order, and what they decide. */
module Rules {
  import opened Options
  import opened Matching

  datatype RuleClass = Require | Prefer | Never

  datatype Rule<Net> = Rule(id: nat, ruleClass: RuleClass, matcher: Matcher<Net>, value: string)

  datatype Decision =
    | Direct
    | NeverRule(rule: nat)
    | Through(ruleClass: RuleClass, rule: nat)

  /** Every rule's id is its position. */
  ghost predicate Numbered<Net>(rules: seq<Rule<Net>>) {
    forall i :: 0 <= i < |rules| ==> rules[i].id == i
  }

  function Pushed<Ip, Net>(
    library: Library<Ip, Net>, rules: seq<Rule<Net>>, ruleClass: RuleClass, kind: Kind, value: string)
    : (r: Option<seq<Rule<Net>>>)
    ensures Numbered(rules) && r.Some? ==> Numbered(r.value)
  {
    match ParseMatcher(library, kind, value)
    case None => None
    case Some(matcher) => Some(rules + [Rule(|rules|, ruleClass, matcher, value)])
  }

  // ---------- the reference: first match over a stable partition ----------

  function Picked<Net>(rules: seq<Rule<Net>>, never: bool): seq<Rule<Net>> {
    if rules == [] then []
    else (if (rules[0].ruleClass == Never) == never then [rules[0]] else []) + Picked(rules[1..], never)
  }

  /** `never` rules first, each group in declaration order. */
  function Partitioned<Net>(rules: seq<Rule<Net>>): seq<Rule<Net>> {
    Picked(rules, true) + Picked(rules, false)
  }

  function FirstMatch<Ip, Net>(library: Library<Ip, Net>, rules: seq<Rule<Net>>, host: Host<Ip>, port: nat)
    : Option<Rule<Net>>
  {
    if rules == [] then None
    else if Matches(library, rules[0].matcher, host, port) then Some(rules[0])
    else FirstMatch(library, rules[1..], host, port)
  }

  function DecisionOf<Net>(rule: Option<Rule<Net>>): Decision {
    match rule
    case None => Direct
    case Some(r) => if r.ruleClass == Never then NeverRule(r.id) else Through(r.ruleClass, r.id)
  }

  lemma {:induction false} FirstMatchAppends<Ip, Net>(
    library: Library<Ip, Net>, a: seq<Rule<Net>>, b: seq<Rule<Net>>, host: Host<Ip>, port: nat)
    ensures FirstMatch(library, a + b, host, port)
            == match FirstMatch(library, a, host, port)
               case Some(rule) => Some(rule)
               case None => FirstMatch(library, b, host, port)
  {
    if a == [] {
      assert a + b == b;
    } else {
      assert (a + b)[1..] == a[1..] + b;
      FirstMatchAppends(library, a[1..], b, host, port);
    }
  }

  /** Two passes over the rules, returning at the first match. */
  method Decide<Ip, Net>(library: Library<Ip, Net>, rules: seq<Rule<Net>>, name: string, port: nat)
    returns (decision: Decision)
    ensures decision
            == DecisionOf(FirstMatch(library, Partitioned(rules), Normalized(library, name), port))
    ensures forall declared: seq<Declared> :: ReadFrom(library, declared, rules) ==>
              DecidedByTexts(library, declared, name, port, decision)
  {
    forall declared: seq<Declared> | ReadFrom(library, declared, rules)
      ensures DecidedByTexts(library, declared, name, port,
                             DecisionOf(FirstMatch(library, Partitioned(rules), Normalized(library, name), port)))
    {
      DecisionFollowsTheTexts(library, declared, rules, name, port);
    }
    var host := Normalized(library, name);
    ghost var nevers, others := Picked(rules, true), Picked(rules, false);
    FirstMatchAppends(library, nevers, others, host, port);
    for i := 0 to |rules|
      invariant FirstMatch(library, nevers, host, port) == FirstMatch(library, Picked(rules[i..], true), host, port)
    {
      assert rules[i..][1..] == rules[i + 1..];
      if rules[i].ruleClass != Never {
        assert Picked(rules[i..], true) == Picked(rules[i + 1..], true);
        continue;
      }
      assert Picked(rules[i..], true) == [rules[i]] + Picked(rules[i + 1..], true);
      if Matches(library, rules[i].matcher, host, port) {
        return NeverRule(rules[i].id);
      }
    }
    for i := 0 to |rules|
      invariant FirstMatch(library, others, host, port) == FirstMatch(library, Picked(rules[i..], false), host, port)
    {
      assert rules[i..][1..] == rules[i + 1..];
      if rules[i].ruleClass == Never {
        assert Picked(rules[i..], false) == Picked(rules[i + 1..], false);
        continue;
      }
      assert Picked(rules[i..], false) == [rules[i]] + Picked(rules[i + 1..], false);
      if Matches(library, rules[i].matcher, host, port) {
        PickedIs(library, rules, host, port, i);
        return Through(rules[i].ruleClass, rules[i].id);
      }
    }
    return Direct;
  }

  lemma PickedIs<Ip, Net>(library: Library<Ip, Net>, rules: seq<Rule<Net>>, host: Host<Ip>, port: nat, i: nat)
    requires i < |rules| && rules[i].ruleClass != Never && Matches(library, rules[i].matcher, host, port)
    ensures FirstMatch(library, Picked(rules[i..], false), host, port) == Some(rules[i])
  {
    assert rules[i..][1..] == rules[i + 1..];
    assert Picked(rules[i..], false) == [rules[i]] + Picked(rules[i + 1..], false);
  }

  predicate Hits<Ip, Net>(
    library: Library<Ip, Net>, rules: seq<Rule<Net>>, host: Host<Ip>, port: nat, i: nat, never: bool)
    requires i < |rules|
  {
    (rules[i].ruleClass == Never) == never && Matches(library, rules[i].matcher, host, port)
  }

  /** `i` is the earliest matching rule of its group, when any is. */
  ghost predicate Earliest<Ip, Net>(
    library: Library<Ip, Net>, rules: seq<Rule<Net>>, host: Host<Ip>, port: nat, never: bool, choice: Option<Rule<Net>>)
  {
    match choice
    case None => forall j: nat :: j < |rules| ==> !Hits(library, rules, host, port, j, never)
    case Some(rule) =>
      exists i: nat :: i < |rules| && rules[i] == rule && Hits(library, rules, host, port, i, never)
                       && forall j: nat :: j < i ==> !Hits(library, rules, host, port, j, never)
  }

  lemma FirstSkipped<Ip, Net>(library: Library<Ip, Net>, rules: seq<Rule<Net>>, host: Host<Ip>, port: nat, never: bool)
    requires rules != [] && !Hits(library, rules, host, port, 0, never)
    ensures FirstMatch(library, Picked(rules, never), host, port)
            == FirstMatch(library, Picked(rules[1..], never), host, port)
  {
    var later := Picked(rules[1..], never);
    if (rules[0].ruleClass == Never) == never {
      assert ([rules[0]] + later)[1..] == later;
    } else {
      assert Picked(rules, never) == later;
    }
  }

  lemma {:induction false} PickedIsEarliest<Ip, Net>(
    library: Library<Ip, Net>, rules: seq<Rule<Net>>, host: Host<Ip>, port: nat, never: bool)
    ensures Earliest(library, rules, host, port, never, FirstMatch(library, Picked(rules, never), host, port))
  {
    if rules != [] {
      PickedIsEarliest(library, rules[1..], host, port, never);
      var choice := FirstMatch(library, Picked(rules[1..], never), host, port);
      assert forall j: nat :: j < |rules| - 1 ==>
          Hits(library, rules[1..], host, port, j, never) == Hits(library, rules, host, port, j + 1, never);
      if Hits(library, rules, host, port, 0, never) {
        assert Picked(rules, never) == [rules[0]] + Picked(rules[1..], never);
      } else {
        FirstSkipped(library, rules, host, port, never);
        forall j: nat | 0 < j < |rules| && choice.None? ensures !Hits(library, rules, host, port, j, never) {
          assert !Hits(library, rules[1..], host, port, j - 1, never);
        }
        if choice.Some? {
          var i: nat :| i < |rules| - 1 && rules[1..][i] == choice.value
                        && Hits(library, rules[1..], host, port, i, never)
                        && forall j: nat :: j < i ==> !Hits(library, rules[1..], host, port, j, never);
          assert Hits(library, rules, host, port, i + 1, never) && rules[i + 1] == choice.value;
          forall j: nat | j < i + 1 ensures !Hits(library, rules, host, port, j, never) {
            if j > 0 {
              assert !Hits(library, rules[1..], host, port, j - 1, never);
            }
          }
        }
      }
    }
  }

  /** No earlier rule of its group hits, and rule `i` does. */
  ghost predicate EarliestAt<Ip, Net>(
    library: Library<Ip, Net>, rules: seq<Rule<Net>>, host: Host<Ip>, port: nat, never: bool, i: nat)
  {
    && i < |rules| && Hits(library, rules, host, port, i, never)
    && forall j: nat :: j < i ==> !Hits(library, rules, host, port, j, never)
  }

  ghost predicate NoneHits<Ip, Net>(
    library: Library<Ip, Net>, rules: seq<Rule<Net>>, host: Host<Ip>, port: nat, never: bool)
  {
    forall j: nat :: j < |rules| ==> !Hits(library, rules, host, port, j, never)
  }

  /**
   What a decision names, in numbered rules: a `never` id is the earliest matching `never` rule; an upstream id is the
   earliest matching other rule, and no `never` rule matches; a direct decision means no rule matches.
   */
  lemma DecidesTheEarliest<Ip, Net>(library: Library<Ip, Net>, rules: seq<Rule<Net>>, host: Host<Ip>, port: nat)
    requires Numbered(rules)
    ensures var decision := DecisionOf(FirstMatch(library, Partitioned(rules), host, port));
            && (decision.NeverRule? ==> EarliestAt(library, rules, host, port, true, decision.rule))
            && (decision.Through? ==>
                  && EarliestAt(library, rules, host, port, false, decision.rule)
                  && rules[decision.rule].ruleClass == decision.ruleClass
                  && NoneHits(library, rules, host, port, true))
            && (decision.Direct? ==>
                  NoneHits(library, rules, host, port, true) && NoneHits(library, rules, host, port, false))
  {
    FirstMatchAppends(library, Picked(rules, true), Picked(rules, false), host, port);
    PickedIsEarliest(library, rules, host, port, true);
    PickedIsEarliest(library, rules, host, port, false);
  }

  // ---------- the decision, from the texts of the rules ----------

  /** A rule as it was added. */
  datatype Declared = Declared(ruleClass: RuleClass, kind: Kind, text: string)

  /** `rules` are the declared ones, each read as its kind, at its position. */
  ghost predicate ReadFrom<Ip, Net>(library: Library<Ip, Net>, declared: seq<Declared>, rules: seq<Rule<Net>>) {
    && |rules| == |declared|
    && forall i: nat :: i < |rules| ==>
      && rules[i].id == i && rules[i].ruleClass == declared[i].ruleClass
      && ParseMatcher(library, declared[i].kind, declared[i].text) == Some(rules[i].matcher)
  }

  /** Declared rule `i` is of the group - the `never` rules or the others - and hits the destination. */
  ghost predicate TextHit<Ip, Net>(
    library: Library<Ip, Net>, declared: seq<Declared>, host: string, port: nat, never: bool, i: nat)
    requires i < |declared|
  {
    (declared[i].ruleClass == Never) == never && TextHits(library, declared[i].kind, declared[i].text, host, port)
  }

  ghost predicate NoTextHits<Ip, Net>(
    library: Library<Ip, Net>, declared: seq<Declared>, host: string, port: nat, never: bool)
  {
    forall i: nat :: i < |declared| ==> !TextHit(library, declared, host, port, never, i)
  }

  ghost predicate FirstTextHit<Ip, Net>(
    library: Library<Ip, Net>, declared: seq<Declared>, host: string, port: nat, never: bool, i: nat)
  {
    && i < |declared| && TextHit(library, declared, host, port, never, i)
    && forall j: nat :: j < i ==> !TextHit(library, declared, host, port, never, j)
  }

  lemma TextHitIsHit<Ip, Net>(
    library: Library<Ip, Net>, declared: seq<Declared>, rules: seq<Rule<Net>>, host: string, port: nat,
    never: bool, i: nat)
    requires ReadFrom(library, declared, rules) && i < |rules|
    ensures Hits(library, rules, Normalized(library, host), port, i, never)
            <==> TextHit(library, declared, host, port, never, i)
  {
    HitsExactly(library, declared[i].kind, declared[i].text, host, port);
  }

  /**
   The decision on a destination follows from the texts of the rules: the first `never` rule whose text hits it; else
   the first other rule whose text does, with its class; else direct.
   */
  ghost predicate DecidedByTexts<Ip, Net>(
    library: Library<Ip, Net>, declared: seq<Declared>, host: string, port: nat, decision: Decision)
  {
    match decision
    case NeverRule(i) => FirstTextHit(library, declared, host, port, true, i)
    case Through(ruleClass, i) =>
      && NoTextHits(library, declared, host, port, true)
      && FirstTextHit(library, declared, host, port, false, i) && declared[i].ruleClass == ruleClass
    case Direct =>
      NoTextHits(library, declared, host, port, true) && NoTextHits(library, declared, host, port, false)
  }

  lemma DecisionFollowsTheTexts<Ip, Net>(
    library: Library<Ip, Net>, declared: seq<Declared>, rules: seq<Rule<Net>>, host: string, port: nat)
    requires ReadFrom(library, declared, rules)
    ensures DecidedByTexts(library, declared, host, port,
                           DecisionOf(FirstMatch(library, Partitioned(rules), Normalized(library, host), port)))
  {
    DecidesTheEarliest(library, rules, Normalized(library, host), port);
    forall i: nat, never: bool | i < |rules|
      ensures Hits(library, rules, Normalized(library, host), port, i, never)
              <==> TextHit(library, declared, host, port, never, i)
    {
      TextHitIsHit(library, declared, rules, host, port, never, i);
    }
  }

  /** No two decisions follow from the same texts. */
  lemma DecisionIsDetermined<Ip, Net>(
    library: Library<Ip, Net>, declared: seq<Declared>, host: string, port: nat, a: Decision, b: Decision)
    requires DecidedByTexts(library, declared, host, port, a) && DecidedByTexts(library, declared, host, port, b)
    ensures a == b
  {
  }

  /** A rule is accepted exactly when its text reads as its kind, and is then the last of those declared. */
  lemma PushReadsOneMore<Ip, Net>(
    library: Library<Ip, Net>, declared: seq<Declared>, rules: seq<Rule<Net>>, one: Declared)
    requires ReadFrom(library, declared, rules)
    ensures var pushed := Pushed(library, rules, one.ruleClass, one.kind, one.text);
            && (pushed.Some? <==> TextReads(library, one.kind, one.text))
            && (pushed.Some? ==> ReadFrom(library, declared + [one], pushed.value))
  {
    AcceptedExactly(library, one.kind, one.text);
  }
}

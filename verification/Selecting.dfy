/**
 Which entry new connections go through: the loop the daemon runs, what it promises, and how the choice behaves
 while verdicts turn over and the clock moves on.
 */
module Selecting {
  import opened Options
  import opened Health

  /** A stamp later than `now` - the clock moved back - has not held. */
  predicate Held(changedAt: int, now: int, hold: nat) {
    changedAt <= now && now - changedAt >= hold
  }

  predicate UpHeld(verdict: Verdict, now: int, hold: nat) {
    verdict.state == Up && Held(verdict.changedAt, now, hold)
  }

  // ---------- what is promised ----------

  ghost predicate FirstHeld(verdicts: seq<Verdict>, now: int, hold: nat, i: nat) {
    && i < |verdicts| && UpHeld(verdicts[i], now, hold)
    && forall j :: 0 <= j < i ==> !UpHeld(verdicts[j], now, hold)
  }

  ghost predicate NoneHeld(verdicts: seq<Verdict>, now: int, hold: nat) {
    forall j :: 0 <= j < |verdicts| ==> !UpHeld(verdicts[j], now, hold)
  }

  /** `i` is up and no up entry came up before it; among equals it is the first of the list. */
  ghost predicate LongestUp(verdicts: seq<Verdict>, i: nat) {
    && i < |verdicts| && verdicts[i].state == Up
    && forall j :: 0 <= j < |verdicts| && verdicts[j].state == Up ==>
      verdicts[i].changedAt < verdicts[j].changedAt || (verdicts[i].changedAt == verdicts[j].changedAt && i <= j)
  }

  /** The three steps of the choice, as its documentation words them. */
  ghost predicate IsSelection(verdicts: seq<Verdict>, now: int, hold: nat, choice: Option<nat>) {
    match choice
    case Some(i) =>
      FirstHeld(verdicts, now, hold, i) || (NoneHeld(verdicts, now, hold) && LongestUp(verdicts, i))
    case None =>
      forall j :: 0 <= j < |verdicts| ==> verdicts[j].state == Down
  }

  // ---------- the choice as a function, in two passes ----------

  function FirstHeldFrom(verdicts: seq<Verdict>, now: int, hold: nat, k: nat): (r: Option<nat>)
    requires k <= |verdicts|
    ensures r.Some? ==> k <= r.value < |verdicts| && UpHeld(verdicts[r.value], now, hold)
    ensures forall j :: k <= j < (if r.Some? then r.value else |verdicts|) ==> !UpHeld(verdicts[j], now, hold)
    decreases |verdicts| - k
  {
    if k == |verdicts| then None
    else if UpHeld(verdicts[k], now, hold) then Some(k)
    else FirstHeldFrom(verdicts, now, hold, k + 1)
  }

  function LongestWithin(verdicts: seq<Verdict>, k: nat): (r: Option<nat>)
    requires k <= |verdicts|
    ensures r.Some? ==> r.value < k && LongestUp(verdicts[..k], r.value)
    ensures r.None? ==> forall j :: 0 <= j < k ==> verdicts[j].state == Down
  {
    if k == 0 then None
    else
      var longest := LongestWithin(verdicts, k - 1);
      if verdicts[k - 1].state == Down then longest
      else if longest.None? || verdicts[k - 1].changedAt < verdicts[longest.value].changedAt then Some(k - 1)
      else longest
  }

  function Selected(verdicts: seq<Verdict>, now: int, hold: nat): Option<nat> {
    match FirstHeldFrom(verdicts, now, hold, 0)
    case Some(i) => Some(i)
    case None => LongestWithin(verdicts, |verdicts|)
  }

  /** One pass over the list, giving up at the first held entry. */
  method Select(verdicts: seq<Verdict>, now: int, hold: nat) returns (choice: Option<nat>)
    ensures choice == Selected(verdicts, now, hold)
    ensures IsSelection(verdicts, now, hold, choice)
  {
    var longest: Option<(nat, int)> := None;
    for index := 0 to |verdicts|
      invariant forall j :: 0 <= j < index ==> !UpHeld(verdicts[j], now, hold)
      invariant FirstHeldFrom(verdicts, now, hold, 0) == FirstHeldFrom(verdicts, now, hold, index)
      invariant LongestWithin(verdicts, index) == (if longest.Some? then Some(longest.value.0) else None)
      invariant longest.Some? ==> longest.value.0 < index && longest.value.1 == verdicts[longest.value.0].changedAt
    {
      var Verdict(state, changedAt) := verdicts[index];
      if state == Down {
        continue;
      }
      if Held(changedAt, now, hold) {
        SelectionIsTheChoice(verdicts, now, hold, Some(index));
        return Some(index);
      }
      if longest.None? {
        longest := Some((index, changedAt));
        continue;
      }
      if changedAt < longest.value.1 {
        longest := Some((index, changedAt));
      }
    }
    choice := if longest.Some? then Some(longest.value.0) else None;
    SelectionIsTheChoice(verdicts, now, hold, choice);
  }

  /** The documented three steps determine the choice, and it is the one computed. */
  lemma SelectionIsTheChoice(verdicts: seq<Verdict>, now: int, hold: nat, choice: Option<nat>)
    ensures IsSelection(verdicts, now, hold, choice) <==> choice == Selected(verdicts, now, hold)
  {
    assert verdicts[..|verdicts|] == verdicts;
    var mine := Selected(verdicts, now, hold);
    assert IsSelection(verdicts, now, hold, mine);
  }

  // ---------- how the choice moves ----------

  /** `k` came up strictly before every up entry ranked `i` or higher. */
  ghost predicate CameUpBefore(verdicts: seq<Verdict>, k: nat, i: nat)
    requires k < |verdicts| && i < |verdicts|
  {
    forall j :: 0 <= j <= i && verdicts[j].state == Up ==> verdicts[k].changedAt < verdicts[j].changedAt
  }

  /**
   Exactly when an up entry is passed over for a lower-ranked one: nothing ranked at or above it has held, and some
   lower-ranked entry came up strictly before every up entry ranked at or above it.
   */
  lemma PassedOverExactly(verdicts: seq<Verdict>, now: int, hold: nat, i: nat)
    requires i < |verdicts| && verdicts[i].state == Up
    ensures var choice := Selected(verdicts, now, hold);
            && choice.Some?
            && (choice.value > i <==>
                && (forall j :: 0 <= j <= i ==> !UpHeld(verdicts[j], now, hold))
                && (exists k :: i < k < |verdicts| && verdicts[k].state == Up && CameUpBefore(verdicts, k, i)))
  {
    var choice := Selected(verdicts, now, hold);
    SelectionIsTheChoice(verdicts, now, hold, choice);
  }

  /** Nothing ranked below `i` would be chosen over it: `i` has held, or no lower-ranked up entry came up before it. */
  ghost predicate Outranks(verdicts: seq<Verdict>, now: int, hold: nat, i: nat) {
    && i < |verdicts| && verdicts[i].state == Up
    && (UpHeld(verdicts[i], now, hold)
        || forall k :: i < k < |verdicts| && verdicts[k].state == Up ==> verdicts[i].changedAt <= verdicts[k].changedAt)
  }

  /** In the words of the choice: among itself and the entries ranked below it, `i` is the one selected. */
  lemma OutranksExactly(verdicts: seq<Verdict>, now: int, hold: nat, i: nat)
    requires i < |verdicts|
    ensures Outranks(verdicts, now, hold, i) <==> Selected(verdicts[i..], now, hold) == Some(0)
  {
    var tail := verdicts[i..];
    SelectionIsTheChoice(tail, now, hold, Some(0));
    assert forall k :: i < k < |verdicts| ==> tail[k - i] == verdicts[k];
    assert forall j :: 0 <= j < |tail| ==> tail[j] == verdicts[i + j];
  }

  /** A selected entry outranks all below it; and while an entry does, the choice is that entry or one above it. */
  lemma OutranksKeepsTheChoice(verdicts: seq<Verdict>, now: int, hold: nat, i: nat)
    requires i < |verdicts|
    ensures Selected(verdicts, now, hold) == Some(i) ==> Outranks(verdicts, now, hold, i)
    ensures Outranks(verdicts, now, hold, i) ==>
              Selected(verdicts, now, hold).Some? && Selected(verdicts, now, hold).value <= i
  {
    SelectionIsTheChoice(verdicts, now, hold, Selected(verdicts, now, hold));
    if Outranks(verdicts, now, hold, i) {
      PassedOverExactly(verdicts, now, hold, i);
    }
  }

  lemma OnlyUpIsSelected(verdicts: seq<Verdict>, now: int, hold: nat, i: nat)
    requires i < |verdicts| && verdicts[i].state == Up
    requires forall j :: 0 <= j < |verdicts| && j != i ==> verdicts[j].state == Down
    ensures Selected(verdicts, now, hold) == Some(i)
  {
    SelectionIsTheChoice(verdicts, now, hold, Some(i));
  }

  /** Every verdict that differs between two looks at one list carries a stamp at or after `floor`. */
  ghost predicate StampedFrom(before: seq<Verdict>, after: seq<Verdict>, floor: int) {
    && |before| == |after|
    && forall j :: 0 <= j < |before| ==> after[j] == before[j] || after[j].changedAt >= floor
  }

  /**
   A selected entry whose verdict stands is never displaced downwards, provided no turnover since is stamped before
   it; what takes over from above has held, or came up with exactly the same stamp.
   */
  lemma NotDisplaced(before: seq<Verdict>, now: int, after: seq<Verdict>, later: int, hold: nat, i: nat)
    requires Selected(before, now, hold) == Some(i) && now <= later
    requires |before| == |after| && i < |after| && after[i] == before[i]
    requires StampedFrom(before, after, before[i].changedAt)
    ensures var choice := Selected(after, later, hold);
            && choice.Some? && choice.value <= i
            && (choice.value < i ==>
                  UpHeld(after[choice.value], later, hold) || after[choice.value].changedAt == after[i].changedAt)
  {
    SelectionIsTheChoice(before, now, hold, Some(i));
    SelectionIsTheChoice(after, later, hold, Selected(after, later, hold));
    PassedOverExactly(after, later, hold, i);
  }

  /** `Up` and stamped at least `hold` before `now`, in so many words. */
  lemma UpHeldExactly(verdict: Verdict, now: int, hold: nat)
    ensures UpHeld(verdict, now, hold) <==> verdict.state == Up && verdict.changedAt + hold <= now
  {
  }

  /**
   Flap damping: while every turnover since is stamped strictly after it, a selected entry whose verdict stands keeps
   new connections exactly as long as no higher-ranked entry is up with a stamp at least the hold ago.
   */
  lemma FlapDamped(before: seq<Verdict>, now: int, after: seq<Verdict>, later: int, hold: nat, i: nat)
    requires Selected(before, now, hold) == Some(i) && now <= later
    requires |before| == |after| && i < |after| && after[i] == before[i]
    requires StampedFrom(before, after, before[i].changedAt + 1)
    ensures Selected(after, later, hold) == Some(i)
            <==> forall j :: 0 <= j < i ==> !(after[j].state == Up && after[j].changedAt + hold <= later)
  {
    SelectionIsTheChoice(before, now, hold, Some(i));
    SelectionIsTheChoice(after, later, hold, Some(i));
    NotDisplaced(before, now, after, later, hold, i);
    var choice := Selected(after, later, hold);
    SelectionIsTheChoice(after, later, hold, choice);
  }
}

/** The log of moves between upstreams: one shared cell, swapped by every dial and every patrol round. */
module Switching {
  import opened Options
  import opened Health
  import opened Upstreams
  import opened Entries
  import Selecting

  /**
   `PreviousDown`, `ReturnHeld`, `Recovered` and `Reloaded` are the log's `down`, `held`, `recovered` and `reload`.
   */
  datatype SwitchCause = PreviousDown | ReturnHeld | Recovered | Reloaded

  /** One published list as a task holds it; `arc` tells two publications apart even when they are equal. */
  datatype Snapshot<+H> = Snapshot(arc: nat, list: UpstreamEntries<H>)

  datatype Observed<+H> = Observed(snapshot: Snapshot<H>, selected: Option<nat>)

  datatype Switch = Switch(from: Option<Upstream>, to: Option<Upstream>, cause: SwitchCause)

  /** One call to record a selection; `states` are the entries' verdicts when the cause is derived. */
  datatype Look<+H> = Look(seen: Snapshot<H>, choice: Option<nat>, states: seq<HealthState>)

  function UpstreamAt<H>(list: UpstreamEntries<H>, choice: Option<nat>): Option<Upstream> {
    match At(list, choice)
    case Some(entry) => Some(entry.upstream)
    case None => None
  }

  /** Both ends dial the same socket, or both are none; spelling does not matter. */
  predicate SameEnd(a: Option<Upstream>, b: Option<Upstream>) {
    match (a, b)
    case (Some(x), Some(y)) => x.socket == y.socket
    case (None, None) => true
    case (Some(_), None) => false
    case (None, Some(_)) => false
  }

  function Cause(states: seq<HealthState>, previous: Option<nat>, next: Option<nat>): SwitchCause {
    if previous.None? then Recovered
    else if previous.value >= |states| || states[previous.value] == Down then PreviousDown
    else if next.None? then PreviousDown
    else if next.value < previous.value then ReturnHeld
    else PreviousDown
  }

  /** The cell after one look. */
  function Kept<H>(observed: Observed<H>, look: Look<H>): Observed<H> {
    if PublishedBefore(look.seen.list, observed.snapshot.list) then observed else Observed(look.seen, look.choice)
  }

  /** The line one look is worth, if any. */
  function Moved<H>(observed: Observed<H>, look: Look<H>): seq<Switch> {
    var from := UpstreamAt(observed.snapshot.list, observed.selected);
    var to := UpstreamAt(look.seen.list, look.choice);
    if PublishedBefore(look.seen.list, observed.snapshot.list) || SameEnd(from, to) then []
    else
      var cause := if observed.snapshot.arc != look.seen.arc then Reloaded
                   else Cause(look.states, observed.selected, look.choice);
      [Switch(from, to, cause)]
  }

  ghost function States(entries: seq<Entry<HealthHandle>>): seq<HealthState>
    reads set e | e in entries :: e.health
  {
    seq(|entries|, i requires 0 <= i < |entries| reads set e | e in entries :: e.health =>
      entries[i].health.verdict.state)
  }

  /** The shared cell and the lines written from it. */
  class Selection {
    var observed: Observed<HealthHandle>
    var log: seq<Switch>

    constructor ()
      ensures observed == Observed(Snapshot(0, UpstreamEntries([], 0)), None) && log == []
    {
      observed := Observed(Snapshot(0, UpstreamEntries([], 0)), None);
      log := [];
    }

    /** The swap: one atomic step, returning what it replaced. */
    method Swap(seen: Snapshot<HealthHandle>, choice: Option<nat>) returns (previous: Observed<HealthHandle>)
      modifies this`observed
      ensures previous == old(observed) && observed == Kept(old(observed), Look(seen, choice, []))
    {
      previous := observed;
      if !PublishedBefore(seen.list, previous.snapshot.list) {
        observed := Observed(seen, choice);
      }
    }

    /** The line a swap is worth, its cause read off the verdicts in force by now, not at the swap. */
    method Report(previous: Observed<HealthHandle>, seen: Snapshot<HealthHandle>, choice: Option<nat>)
      modifies this`log
      ensures log == old(log) + Moved(previous, Look(seen, choice, States(seen.list.entries)))
    {
      if PublishedBefore(seen.list, previous.snapshot.list) {
        return;
      }
      var from := UpstreamAt(previous.snapshot.list, previous.selected);
      var to := UpstreamAt(seen.list, choice);
      if SameEnd(from, to) {
        return;
      }
      var cause := Reloaded;
      if previous.snapshot.arc == seen.arc {
        cause := CauseOf(seen.list, previous.selected, choice);
      }
      log := log + [Switch(from, to, cause)];
    }

    /** Both, with no other task in between. */
    method Observe(seen: Snapshot<HealthHandle>, choice: Option<nat>)
      modifies this
      ensures var look := Look(seen, choice, States(seen.list.entries));
              && observed == Kept(old(observed), look)
              && log == old(log) + Moved(old(observed), look)
    {
      var previous := Swap(seen, choice);
      Report(previous, seen, choice);
    }

    static method CauseOf(list: UpstreamEntries<HealthHandle>, previous: Option<nat>, next: Option<nat>)
      returns (cause: SwitchCause)
      ensures cause == Cause(States(list.entries), previous, next)
    {
      if previous.None? {
        return Recovered;
      }
      var state := if previous.value < |list.entries| then list.entries[previous.value].health.verdict.state else Down;
      if state == Down {
        return PreviousDown;
      }
      if next.None? {
        return PreviousDown;
      }
      cause := if next.value < previous.value then ReturnHeld else PreviousDown;
    }
  }

  // ---------- any interleaving of observers ----------

  function ObservedAfter<H>(start: Observed<H>, looks: seq<Look<H>>): Observed<H> {
    if looks == [] then start
    else Kept(ObservedAfter(start, looks[..|looks| - 1]), looks[|looks| - 1])
  }

  function LogOf<H>(start: Observed<H>, looks: seq<Look<H>>): seq<Switch> {
    if looks == [] then []
    else
      var before := looks[..|looks| - 1];
      LogOf(start, before) + Moved(ObservedAfter(start, before), looks[|looks| - 1])
  }

  function End<H>(observed: Observed<H>): Option<Upstream> {
    UpstreamAt(observed.snapshot.list, observed.selected)
  }

  /**
   The log is one walk: from `start`, each line leaving where the last one arrived, to `end`, never standing still.
   */
  ghost predicate Walks(start: Option<Upstream>, log: seq<Switch>, end: Option<Upstream>) {
    && (forall i :: 0 <= i < |log| ==> !SameEnd(log[i].from, log[i].to))
    && (forall i {:trigger log[i]} :: 0 < i < |log| ==> SameEnd(log[i - 1].to, log[i].from))
    && (if log == [] then SameEnd(start, end) else SameEnd(start, log[0].from) && SameEnd(log[|log| - 1].to, end))
  }

  lemma WalkAppends(start: Option<Upstream>, log: seq<Switch>, here: Option<Upstream>, line: Switch)
    requires Walks(start, log, here) && SameEnd(here, line.from) && !SameEnd(line.from, line.to)
    ensures Walks(start, log + [line], line.to)
  {
    var grown := log + [line];
    forall i | 0 < i < |grown| ensures SameEnd(grown[i - 1].to, grown[i].from) {
      if i < |log| {
        assert SameEnd(log[i - 1].to, log[i].from);
      }
    }
  }

  lemma WalkGrows<H>(start: Option<Upstream>, log: seq<Switch>, observed: Observed<H>, look: Look<H>)
    requires Walks(start, log, End(observed))
    ensures Walks(start, log + Moved(observed, look), End(Kept(observed, look)))
  {
    var line := Moved(observed, look);
    if line == [] {
      assert SameEnd(End(observed), End(Kept(observed, look)));
      assert log + line == log;
    } else {
      WalkAppends(start, log, End(observed), line[0]);
      assert line == [line[0]];
    }
  }

  /** The switch log reconstructs the selection, whatever lists and choices the observers bring. */
  lemma {:induction false} LogReconstructsSelection<H>(start: Observed<H>, looks: seq<Look<H>>)
    ensures Walks(End(start), LogOf(start, looks), End(ObservedAfter(start, looks)))
  {
    if looks != [] {
      var before := looks[..|looks| - 1];
      LogReconstructsSelection(start, before);
      WalkGrows(End(start), LogOf(start, before), ObservedAfter(start, before), looks[|looks| - 1]);
    }
  }

  /** The looks that were not made from a list already replaced when they were recorded. */
  function Current<H>(start: Observed<H>, looks: seq<Look<H>>): seq<Look<H>> {
    if looks == [] then []
    else
      var before, look := looks[..|looks| - 1], looks[|looks| - 1];
      Current(start, before)
      + if PublishedBefore(look.seen.list, ObservedAfter(start, before).snapshot.list) then [] else [look]
  }

  function Latest<H>(start: nat, looks: seq<Look<H>>): nat {
    if looks == [] then start
    else
      var latest := Latest(start, looks[..|looks| - 1]);
      var mine := looks[|looks| - 1].seen.list.publication;
      if mine < latest then latest else mine
  }

  /**
   The observed publication is the latest one any look has brought, so it never goes back; and a run of looks leaves the
   cell and the log its up-to-date looks alone would have left.
   */
  lemma {:induction false} StaleLooksAreInvisible<H>(start: Observed<H>, looks: seq<Look<H>>)
    ensures ObservedAfter(start, looks).snapshot.list.publication == Latest(start.snapshot.list.publication, looks)
    ensures ObservedAfter(start, Current(start, looks)) == ObservedAfter(start, looks)
    ensures LogOf(start, Current(start, looks)) == LogOf(start, looks)
  {
    if looks != [] {
      var before, look := looks[..|looks| - 1], looks[|looks| - 1];
      StaleLooksAreInvisible(start, before);
      var current := Current(start, before);
      if !PublishedBefore(look.seen.list, ObservedAfter(start, before).snapshot.list) {
        assert Current(start, looks) == current + [look];
        assert (current + [look])[..|current|] == current;
      } else {
        assert Current(start, looks) == current;
      }
    }
  }

  // ---------- what a cause says ----------

  /**
   With the look atomic - choice and states both read off `after` at `later` - and the previous choice read off
   `before`, a line within one list is named by what happened. `Recovered` is a move from none; a move away from an
   entry that is down is `PreviousDown`; an entry whose verdict stands is only ever left upwards, as `ReturnHeld`, to
   an entry that has held or came up with the very same stamp; and `PreviousDown` is never said of a verdict that stood.
   */
  lemma CauseIsSound<H>(
    observed: Observed<H>, look: Look<H>, before: seq<Verdict>, now: int, after: seq<Verdict>, later: int, hold: nat)
    requires observed.snapshot == look.seen && now <= later
    requires |before| == |after| == |look.seen.list.entries|
    requires observed.selected == Selecting.Selected(before, now, hold)
    requires look.choice == Selecting.Selected(after, later, hold)
    requires look.states == seq(|after|, i requires 0 <= i < |after| => after[i].state)
    requires observed.selected.Some? && observed.selected.value < |before| ==>
               Selecting.StampedFrom(before, after, before[observed.selected.value].changedAt)
    requires Moved(observed, look) != []
    ensures var cause := Moved(observed, look)[0].cause;
            var previous := observed.selected;
            && cause != Reloaded
            && (cause == Recovered <==> previous.None?)
            && (previous.Some? ==>
                  && previous.value < |after|
                  && (after[previous.value].state == Down ==> cause == PreviousDown)
                  && (after[previous.value] == before[previous.value] ==>
                        && cause == ReturnHeld
                        && look.choice.Some? && look.choice.value < previous.value
                        && (Selecting.UpHeld(after[look.choice.value], later, hold)
                            || after[look.choice.value].changedAt == after[previous.value].changedAt)))
  {
    Selecting.SelectionIsTheChoice(before, now, hold, observed.selected);
    Selecting.SelectionIsTheChoice(after, later, hold, look.choice);
    if observed.selected.Some? {
      var p := observed.selected.value;
      if after[p] == before[p] {
        Selecting.NotDisplaced(before, now, after, later, hold, p);
      }
    }
  }

  /** The switch-cause table, row by row, for every line there is: one look, any verdicts. */
  lemma CauseTable<H>(observed: Observed<H>, look: Look<H>)
    requires Moved(observed, look) != []
    ensures var line, previous := Moved(observed, look)[0], observed.selected;
            var stillUp := previous.Some? && previous.value < |look.states| && look.states[previous.value] == Up;
            && Moved(observed, look) == [line]
            && (line.cause == Reloaded <==> observed.snapshot.arc != look.seen.arc)
            && (observed.snapshot.arc == look.seen.arc ==>
                  && (line.cause == Recovered <==> previous.None?)
                  && (line.cause == ReturnHeld
                      <==> stillUp && look.choice.Some? && look.choice.value < previous.value)
                  && (line.cause == PreviousDown
                      <==> previous.Some? && !(stillUp && look.choice.Some? && look.choice.value < previous.value)))
  {
  }

  /** A line names the addresses as written on both sides, and is there exactly when the sockets differ. */
  lemma LineNamesBothEnds<H>(observed: Observed<H>, look: Look<H>)
    requires observed.snapshot.list.publication <= look.seen.list.publication
    ensures var was, now := observed.selected, look.choice;
            var from, to := observed.snapshot.list.entries, look.seen.list.entries;
            (was.Some? ==> was.value < |from|) && (now.Some? ==> now.value < |to|) ==>
              && (Moved(observed, look) == []
                  <==> (was.None? && now.None?)
                       || (was.Some? && now.Some?
                           && from[was.value].upstream.socket == to[now.value].upstream.socket))
              && (Moved(observed, look) != [] ==>
                    && Moved(observed, look)[0].from == (if was.None? then None else Some(from[was.value].upstream))
                    && Moved(observed, look)[0].to == (if now.None? then None else Some(to[now.value].upstream)))
  {
  }

  /**
   `Reloaded` is said exactly when the publication changed, as long as publications are told apart by their counts.
   */
  lemma ReloadedExactly<H>(observed: Observed<H>, look: Look<H>)
    requires observed.snapshot.list.publication == look.seen.list.publication ==>
               observed.snapshot.arc == look.seen.arc
               || (observed.snapshot.list.entries == [] && look.seen.list.entries == [])
    requires observed.snapshot.arc == look.seen.arc ==>
               observed.snapshot.list.publication == look.seen.list.publication
    requires Moved(observed, look) != []
    ensures Moved(observed, look)[0].cause == Reloaded
            <==> observed.snapshot.list.publication != look.seen.list.publication
  {
    if observed.snapshot.arc == look.seen.arc {
      assert Moved(observed, look)[0].cause == Cause(look.states, observed.selected, look.choice);
    }
  }
}

/** One patrol pass and one dial, as the code folds their observations into the handles they were made against. */
module Patrol {
  import opened Options
  import opened Health
  import opened Entries

  const PROBE_TIMEOUT: nat := 2000
  const PROBE_INTERVAL: nat := 5000
  const NO_UPSTREAM_TICK: nat := 250
  const LOAD_TIMEOUT: nat := 30000
  const NO_UPSTREAM_EAGER: nat := LOAD_TIMEOUT + PROBE_INTERVAL

  /** A contradicting observation waiting for a second one that agrees with it. */
  datatype Pending<+H> = Pending(target: HealthState, health: H)

  /** How one real dial ended. */
  datatype Outcome = Connected | Destination | Unsent | UpstreamFailed

  function Banked<H(==)>(pending: seq<Pending<H>>, health: H): (r: Option<HealthState>)
    ensures r.Some? ==> Pending(r.value, health) in pending
    ensures r.None? ==> forall target :: Pending(target, health) !in pending
  {
    if pending == [] then None
    else if pending[0].health == health then Some(pending[0].target)
    else
      assert forall p :: p in pending ==> p == pending[0] || p in pending[1..];
      Banked(pending[1..], health)
  }

  /** The verdict and the sequence one probe leaves. */
  function Advanced(banked: Option<HealthState>, seen: HealthState, verdict: Verdict, at: int)
    : (Verdict, Option<HealthState>)
  {
    if verdict.state == seen then (verdict, None)
    else if banked == Some(seen) then (Verdict(seen, at), None)
    else (verdict, Some(seen))
  }

  /** What a dial's end says about the upstream; a dial that never left says nothing. */
  function Evidence(outcome: Outcome): Option<HealthState> {
    match outcome
    case Connected => Some(Up)
    case Destination => Some(Up)
    case Unsent => None
    case UpstreamFailed => Some(Down)
  }

  function Left<H>(banked: Option<HealthState>, health: H): seq<Pending<H>> {
    if banked.Some? then [Pending(banked.value, health)] else []
  }

  function Longer(a: nat, b: nat): nat {
    if a < b then b else a
  }

  function Shorter(a: nat, b: nat): nat {
    if a < b then a else b
  }

  /** The sleep after finding no upstream published. */
  function EmptyTick(looking: nat, interval: nat): nat {
    if looking < NO_UPSTREAM_EAGER then Shorter(NO_UPSTREAM_TICK, interval) else interval
  }

  /** The sleep after a pass: the confirm delay while a sequence is pending, the interval otherwise. */
  function Wait<H>(pending: seq<Pending<H>>, interval: nat, confirmDelay: nat): nat {
    if pending == [] then interval else confirmDelay
  }

  /** The patrol's own variables across passes and within one. */
  class Prober {
    var pending: seq<Pending<HealthHandle>>
    var next: seq<Pending<HealthHandle>>
    var started: int
    var looking: nat

    constructor ()
      ensures pending == [] && next == [] && looking == 0
    {
      pending, next, started, looking := [], [], 0, 0;
    }

    /** Nothing is published: forget every sequence and sleep one tick. */
    method FindNothing(interval: nat) returns (sleep: nat)
      modifies this
      ensures pending == [] && sleep == EmptyTick(old(looking), interval) && looking == old(looking) + sleep
      ensures old(looking) >= 35000 || interval <= 250 ==> sleep == interval
      ensures old(looking) < 35000 && interval >= 250 ==> sleep == 250
    {
      pending := [];
      sleep := interval;
      if looking < NO_UPSTREAM_EAGER && NO_UPSTREAM_TICK < interval {
        sleep := NO_UPSTREAM_TICK;
      }
      looking := looking + sleep;
    }

    method Begin(now: int)
      modifies this
      ensures started == now && looking == 0 && next == [] && pending == old(pending)
    {
      looking := 0;
      started := now;
      next := [];
    }

    static method Advance(banked: Option<HealthState>, seen: HealthState, health: HealthHandle, at: int)
      returns (left: Option<HealthState>)
      modifies health
      ensures (health.verdict, left) == Advanced(banked, seen, old(health.verdict), at)
      ensures health.log == old(health.log)
              + if health.verdict.state == old(health.verdict.state) then []
                else [Turnover(old(health.verdict.state), seen, Probe, at)]
    {
      var settled := health.verdict.state;
      match (settled, seen) {
        case (Up, Up) => return None;
        case (Down, Down) => return None;
        case (Up, Down) =>
        case (Down, Up) =>
      }
      if banked == Some(seen) {
        health.SetAt(seen, Probe, at);
        return None;
      }
      return Some(seen);
    }

    /** One probe of the pass has returned. */
    method Fold(entry: Entry<HealthHandle>, seen: HealthState)
      modifies this`next, entry.health
      ensures var (verdict, left) := Advanced(Banked(pending, entry.health), seen, old(entry.health.verdict), started);
              && entry.health.verdict == verdict
              && next == old(next) + Left(left, entry.health)
    {
      var banked: Option<HealthState> := None;
      for k := 0 to |pending|
        invariant banked.None?
        invariant Banked(pending, entry.health) == Banked(pending[k..], entry.health)
        invariant entry.health.verdict == old(entry.health.verdict) && next == old(next)
      {
        assert pending[k..][1..] == pending[k + 1..];
        if pending[k].health == entry.health {
          banked := Some(pending[k].target);
          break;
        }
      }
      var left := Advance(banked, seen, entry.health, started);
      if left.Some? {
        next := next + [Pending(left.value, entry.health)];
      }
    }

    method Finish(interval: nat, confirmDelay: nat) returns (sleep: nat)
      modifies this
      ensures pending == old(next) && sleep == Wait(pending, interval, confirmDelay)
    {
      pending := next;
      sleep := if pending == [] then interval else confirmDelay;
    }
  }

  /** A dial has ended: the handle of the entry it dialled is told, and no other. */
  method Answered(dialled: Entry<HealthHandle>, outcome: Outcome, now: int)
    modifies dialled.health
    ensures dialled.health.verdict
            == match Evidence(outcome)
               case None => old(dialled.health.verdict)
               case Some(state) => Settled(old(dialled.health.verdict), state, now)
    ensures dialled.health.log
            == old(dialled.health.log)
               + if dialled.health.verdict.state == old(dialled.health.verdict.state) then []
                 else [Turnover(old(dialled.health.verdict.state), dialled.health.verdict.state, Dial, now)]
    ensures dialled.health.verdict.state
            == if outcome == UpstreamFailed then Down
               else if outcome == Unsent then old(dialled.health.verdict.state) else Up
  {
    match outcome {
      case Connected => dialled.health.SetAt(Up, Dial, now);
      case Destination => dialled.health.SetAt(Up, Dial, now);
      case Unsent =>
      case UpstreamFailed => dialled.health.SetAt(Down, Dial, now);
    }
  }
}

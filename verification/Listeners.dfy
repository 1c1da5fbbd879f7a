/**
 The listeners a running daemon holds, and how a load moves them. Whether the system grants a bind, and which port it
 chooses for port 0, is an input: one answer per attempt.
 */
module Listeners {
  import opened Options
  import opened Upstreams
  import opened Forwards

  datatype Listen = Listen(http: Addr, socks: Addr)

  /** One listener: the address it holds and the socket it is, never reused. */
  datatype Accepting = Accepting(addr: Addr, socket: nat)

  datatype Forwarding = Forwarding(accepting: Accepting, target: Target)

  datatype Held = Held(http: Accepting, socks: Accepting, forwards: seq<Forwarding>, sockets: nat)

  /** The system's answer to binding the `i`-th wanted address: the address bound, or a refusal. */
  type Binds = nat -> Option<Addr>

  predicate Holds(forwards: seq<Forwarding>, listen: Addr) {
    exists k :: 0 <= k < |forwards| && forwards[k].accepting.addr == listen
  }

  function Listening(held: Held): Listen {
    Listen(held.http.addr, held.socks.addr)
  }

  function Reported(forwards: seq<Forwarding>): seq<Forward> {
    seq(|forwards|, i requires 0 <= i < |forwards| => Forward(forwards[i].accepting.addr, forwards[i].target))
  }

  // ---------- the protocol front ends ----------

  /** Both moved, each keeping its listener when it already holds the address; absent when either bind is refused. */
  function Moved(held: Held, listen: Listen, http: Option<Addr>, socks: Option<Addr>): Option<Held> {
    if (listen.http != held.http.addr && http.None?) || (listen.socks != held.socks.addr && socks.None?) then None
    else
      Some(held.(
        http := if listen.http == held.http.addr then held.http else Accepting(http.value, held.sockets),
        socks := if listen.socks == held.socks.addr then held.socks else Accepting(socks.value, held.sockets + 1),
        sockets := held.sockets + 2))
  }

  // ---------- the forwards ----------

  /** The listeners opened for wanted addresses not yet held; absent when any of them is refused. */
  function Fresh(held: seq<Forwarding>, wanted: seq<Forward>, binds: Binds, sockets: nat): Option<seq<Forwarding>> {
    if wanted == [] then Some([])
    else
      var i := |wanted| - 1;
      match Fresh(held, wanted[..i], binds, sockets)
      case None => None
      case Some(before) =>
        if Holds(held, wanted[i].listen) then Some(before)
        else
          match binds(i)
          case None => None
          case Some(bound) => Some(before + [Forwarding(Accepting(bound, sockets + |before|), wanted[i].target)])
  }

  /** Held listeners that stay declared, in their old order, re-pointed. */
  function Retained(held: seq<Forwarding>, wanted: seq<Forward>): seq<Forwarding> {
    if held == [] then []
    else
      var last := held[|held| - 1];
      Retained(held[..|held| - 1], wanted)
      + match TargetOf(wanted, last.accepting.addr)
        case None => []
        case Some(target) => [last.(target := target)]
  }

  function ForwardsMoved(held: Held, wanted: seq<Forward>, binds: Binds): Option<Held> {
    match Fresh(held.forwards, wanted, binds, held.sockets)
    case None => None
    case Some(added) =>
      Some(held.(forwards := Retained(held.forwards, wanted) + added, sockets := held.sockets + |added|))
  }

  class Bound {
    var http: Accepting
    var socks: Accepting
    var forwards: seq<Forwarding>
    var sockets: nat // sockets opened so far, so each new one is told apart

    constructor (http: Addr, socks: Addr)
      ensures Value() == Held(Accepting(http, 0), Accepting(socks, 1), [], 2)
    {
      this.http, this.socks := Accepting(http, 0), Accepting(socks, 1);
      forwards, sockets := [], 2;
    }

    function Value(): Held
      reads this
    {
      Held(http, socks, forwards, sockets)
    }

    method Rebind(listen: Listen, boundHttp: Option<Addr>, boundSocks: Option<Addr>) returns (r: Option<Listen>)
      modifies this
      ensures var moved := Moved(old(Value()), listen, boundHttp, boundSocks);
              && Value() == (if moved.Some? then moved.value else old(Value()))
              && r == (if moved.Some? then Some(Listening(Value())) else None)
    {
      var freshHttp: Option<Addr> := None;
      if listen.http != http.addr {
        if boundHttp.None? {
          return None;
        }
        freshHttp := boundHttp;
      }
      var freshSocks: Option<Addr> := None;
      if listen.socks != socks.addr {
        if boundSocks.None? {
          return None;
        }
        freshSocks := boundSocks;
      }
      if freshHttp.Some? {
        http := Accepting(freshHttp.value, sockets);
      }
      if freshSocks.Some? {
        socks := Accepting(freshSocks.value, sockets + 1);
      }
      sockets := sockets + 2;
      return Some(Listen(http.addr, socks.addr));
    }

    /** Everything to open is opened before anything is closed. */
    method RebindForwards(wanted: seq<Forward>, binds: Binds) returns (r: Option<seq<Forward>>)
      modifies this
      ensures var moved := ForwardsMoved(old(Value()), wanted, binds);
              && Value() == (if moved.Some? then moved.value else old(Value()))
              && (moved.None? ==> r == None)
              && (moved.Some? && DistinctAddrs(forwards) ==> r == Some(Reported(forwards)))
    {
      var added: seq<Forwarding> := [];
      for i := 0 to |wanted|
        invariant Value() == old(Value())
        invariant Fresh(forwards, wanted[..i], binds, sockets) == Some(added)
      {
        assert wanted[..i + 1][..i] == wanted[..i];
        var held := IsHeld(wanted[i].listen);
        if held {
          continue;
        }
        var bound := binds(i);
        if bound.None? {
          RefusalIsFinal(forwards, wanted, binds, sockets, i + 1);
          return None;
        }
        added := added + [Forwarding(Accepting(bound.value, sockets + |added|), wanted[i].target)];
      }
      assert wanted[..|wanted|] == wanted;
      var retained: seq<Forwarding> := [];
      for k := 0 to |forwards|
        invariant Value() == old(Value())
        invariant retained == Retained(forwards[..k], wanted)
      {
        assert forwards[..k + 1][..k] == forwards[..k];
        var target := TargetOf(wanted, forwards[k].accepting.addr);
        if target.Some? {
          retained := retained + [forwards[k].(target := target.value)];
        }
      }
      assert forwards[..|forwards|] == forwards;
      forwards := retained + added;
      sockets := sockets + |added|;
      var list := Report();
      r := Some(list);
    }

    method IsHeld(listen: Addr) returns (held: bool)
      ensures held == Holds(forwards, listen)
    {
      for k := 0 to |forwards|
        invariant forall j :: 0 <= j < k ==> forwards[j].accepting.addr != listen
      {
        if forwards[k].accepting.addr == listen {
          return true;
        }
      }
      return false;
    }

    /** Lists the forwards by pushing each; with distinct addresses no push is refused, so none goes missing. */
    method Report() returns (list: seq<Forward>)
      ensures DistinctAddrs(forwards) ==> list == Reported(forwards)
    {
      list := [];
      for k := 0 to |forwards|
        invariant DistinctAddrs(forwards) ==> list == Reported(forwards[..k])
      {
        var pushed := Push(list, Forward(forwards[k].accepting.addr, forwards[k].target));
        if pushed.Ok? {
          list := pushed.value;
        }
      }
      assert forwards[..|forwards|] == forwards;
    }
  }

  lemma {:induction false} RefusalIsFinal(
    held: seq<Forwarding>, wanted: seq<Forward>, binds: Binds, sockets: nat, k: nat)
    requires k <= |wanted| && Fresh(held, wanted[..k], binds, sockets).None?
    ensures Fresh(held, wanted, binds, sockets).None?
    decreases |wanted|
  {
    if k == |wanted| {
      assert wanted[..k] == wanted;
    } else {
      assert wanted[..|wanted| - 1][..k] == wanted[..k];
      RefusalIsFinal(held, wanted[..|wanted| - 1], binds, sockets, k);
    }
  }

  /**
   `moved` is the very listener held when it is on the address asked for, and a new socket on the bound one otherwise.
   */
  ghost predicate Kept(held: Accepting, asked: Addr, bound: Option<Addr>, sockets: nat, moved: Accepting) {
    if asked == held.addr then moved == held else bound == Some(moved.addr) && moved.socket >= sockets
  }

  /**
   Both front ends move or neither: each keeps its listener when it is already on the address, and is opened
   otherwise.
   */
  lemma FrontEndsMoveTogether(held: Held, listen: Listen, http: Option<Addr>, socks: Option<Addr>)
    ensures var moved := Moved(held, listen, http, socks);
            && (moved.None? <==>
                  (listen.http != held.http.addr && http.None?) || (listen.socks != held.socks.addr && socks.None?))
            && (moved.Some? ==>
                  && Kept(held.http, listen.http, http, held.sockets, moved.value.http)
                  && Kept(held.socks, listen.socks, socks, held.sockets, moved.value.socks)
                  && moved.value.forwards == held.forwards)
  {
  }

  // ---------- what a move of the forwards achieves ----------

  ghost predicate DistinctAddrs(forwards: seq<Forwarding>) {
    forall j, k :: 0 <= j < k < |forwards| ==> forwards[j].accepting.addr != forwards[k].accepting.addr
  }

  /** Held addresses are real - never port 0 - and pairwise distinct, as live sockets are. */
  ghost predicate Good(held: Held) {
    && DistinctAddrs(held.forwards)
    && forall k :: 0 <= k < |held.forwards| ==> held.forwards[k].accepting.addr.port != 0
  }

  /** What a granted bind looks like: the address asked for, with a real port chosen for port 0. */
  predicate Grants(asked: Addr, bound: Addr) {
    bound.ip == asked.ip && bound.port != 0 && (asked.port != 0 ==> bound == asked)
  }

  /** Wanted forward `i` is on an address not yet held, so it has to be opened. */
  predicate ToOpen(held: Held, wanted: seq<Forward>, i: nat) {
    i < |wanted| && !Holds(held.forwards, wanted[i].listen)
  }

  /** The system never grants an address a live socket holds, nor the same address twice. */
  ghost predicate SystemBinds(held: Held, wanted: seq<Forward>, binds: Binds) {
    && (forall i: nat :: ToOpen(held, wanted, i) && binds(i).Some? ==>
          Grants(wanted[i].listen, binds(i).value) && !Holds(held.forwards, binds(i).value))
    && (forall i: nat, j: nat :: i < j && ToOpen(held, wanted, i) && ToOpen(held, wanted, j) ==>
          binds(i).None? || binds(j).None? || binds(i) != binds(j))
  }

  /** The address the `i`-th wanted forward ends up on. */
  function Resolved(held: Held, wanted: seq<Forward>, binds: Binds, i: nat): Addr
    requires i < |wanted|
  {
    if Holds(held.forwards, wanted[i].listen) || binds(i).None? then wanted[i].listen else binds(i).value
  }

  /** `f` is one of the wanted forwards, its address resolved. */
  ghost predicate Wanted(held: Held, wanted: seq<Forward>, binds: Binds, f: Forward) {
    exists i: nat :: i < |wanted| && f == Forward(Resolved(held, wanted, binds, i), wanted[i].target)
  }

  lemma {:induction false} RetainedExactly(held: seq<Forwarding>, wanted: seq<Forward>)
    requires DistinctAddrs(held)
    ensures DistinctAddrs(Retained(held, wanted))
    ensures forall x :: x in Retained(held, wanted) <==>
              exists k :: 0 <= k < |held| && x.accepting == held[k].accepting
                          && TargetOf(wanted, x.accepting.addr) == Some(x.target)
  {
    if held != [] {
      var n := |held| - 1;
      RetainedExactly(held[..n], wanted);
      var before, all := Retained(held[..n], wanted), Retained(held, wanted);
      forall x ensures x in all <==> exists k :: 0 <= k < |held| && x.accepting == held[k].accepting
                                                 && TargetOf(wanted, x.accepting.addr) == Some(x.target) {
        assert x in before <==> exists k :: 0 <= k < n && x.accepting == held[..n][k].accepting
                                            && TargetOf(wanted, x.accepting.addr) == Some(x.target);
      }
      forall j, k | 0 <= j < k < |all| ensures all[j].accepting.addr != all[k].accepting.addr {
        if k == |before| {
          assert all[j] in before;
        }
      }
    }
  }

  ghost predicate Refused(held: Held, wanted: seq<Forward>, binds: Binds) {
    exists i: nat :: ToOpen(held, wanted, i) && binds(i).None?
  }

  ghost predicate OpenedFor(held: Held, wanted: seq<Forward>, binds: Binds, i: nat, x: Forwarding) {
    ToOpen(held, wanted, i) && binds(i) == Some(x.accepting.addr) && x.target == wanted[i].target
  }

  ghost predicate OpensEach(held: Held, wanted: seq<Forward>, binds: Binds, added: seq<Forwarding>) {
    forall i: nat :: ToOpen(held, wanted, i) ==> exists x :: x in added && OpenedFor(held, wanted, binds, i, x)
  }

  ghost predicate OpensOnly(held: Held, wanted: seq<Forward>, binds: Binds, added: seq<Forwarding>) {
    forall x :: x in added ==> exists i: nat :: OpenedFor(held, wanted, binds, i, x)
  }

  /** `added` is one listener for each wanted forward to open, and nothing else. */
  ghost predicate OpensAll(held: Held, wanted: seq<Forward>, binds: Binds, added: seq<Forwarding>) {
    DistinctAddrs(added) && OpensEach(held, wanted, binds, added) && OpensOnly(held, wanted, binds, added)
  }

  lemma FreshRefused(held: Held, wanted: seq<Forward>, binds: Binds)
    requires wanted != []
    ensures Refused(held, wanted, binds)
            <==> Refused(held, wanted[..|wanted| - 1], binds)
                 || (ToOpen(held, wanted, |wanted| - 1) && binds(|wanted| - 1).None?)
  {
    var n := |wanted| - 1;
    forall i: nat | i < n ensures ToOpen(held, wanted[..n], i) == ToOpen(held, wanted, i) {
    }
  }

  lemma OpenedForGrows(held: Held, wanted: seq<Forward>, binds: Binds, i: nat, x: Forwarding)
    requires wanted != []
    ensures OpenedFor(held, wanted[..|wanted| - 1], binds, i, x)
            <==> i < |wanted| - 1 && OpenedFor(held, wanted, binds, i, x)
  {
  }

  lemma OneMoreIsDistinct(held: Held, wanted: seq<Forward>, binds: Binds, before: seq<Forwarding>, x: Forwarding)
    requires wanted != [] && SystemBinds(held, wanted, binds) && DistinctAddrs(before)
    requires OpensOnly(held, wanted[..|wanted| - 1], binds, before)
    requires OpenedFor(held, wanted, binds, |wanted| - 1, x)
    ensures DistinctAddrs(before + [x])
  {
    forall j | 0 <= j < |before| ensures before[j].accepting.addr != x.accepting.addr {
      assert before[j] in before;
      var i: nat :| OpenedFor(held, wanted[..|wanted| - 1], binds, i, before[j]);
      OpenedForGrows(held, wanted, binds, i, before[j]);
    }
  }

  lemma EachGrows(held: Held, wanted: seq<Forward>, binds: Binds, before: seq<Forwarding>, added: seq<Forwarding>)
    requires wanted != [] && OpensEach(held, wanted[..|wanted| - 1], binds, before)
    requires forall y :: y in before ==> y in added
    requires ToOpen(held, wanted, |wanted| - 1) ==>
               exists y :: y in added && OpenedFor(held, wanted, binds, |wanted| - 1, y)
    ensures OpensEach(held, wanted, binds, added)
  {
    var n: nat := |wanted| - 1;
    forall i: nat | ToOpen(held, wanted, i) ensures exists y :: y in added && OpenedFor(held, wanted, binds, i, y) {
      if i < n {
        assert ToOpen(held, wanted[..n], i);
        var y :| y in before && OpenedFor(held, wanted[..n], binds, i, y);
        OpenedForGrows(held, wanted, binds, i, y);
      }
    }
  }

  lemma OnlyGrows(held: Held, wanted: seq<Forward>, binds: Binds, before: seq<Forwarding>, added: seq<Forwarding>)
    requires wanted != [] && OpensOnly(held, wanted[..|wanted| - 1], binds, before)
    requires forall y :: y in added ==> y in before || OpenedFor(held, wanted, binds, |wanted| - 1, y)
    ensures OpensOnly(held, wanted, binds, added)
  {
    forall y | y in added ensures exists i: nat :: OpenedFor(held, wanted, binds, i, y) {
      if y in before {
        var i: nat :| OpenedFor(held, wanted[..|wanted| - 1], binds, i, y);
        OpenedForGrows(held, wanted, binds, i, y);
      }
    }
  }

  lemma NothingToOpen(held: Held, wanted: seq<Forward>, binds: Binds, before: seq<Forwarding>)
    requires wanted != [] && OpensAll(held, wanted[..|wanted| - 1], binds, before)
    requires !ToOpen(held, wanted, |wanted| - 1)
    ensures OpensAll(held, wanted, binds, before)
  {
    EachGrows(held, wanted, binds, before, before);
    OnlyGrows(held, wanted, binds, before, before);
  }

  lemma OneToOpen(held: Held, wanted: seq<Forward>, binds: Binds, before: seq<Forwarding>, x: Forwarding)
    requires wanted != [] && SystemBinds(held, wanted, binds)
    requires OpensAll(held, wanted[..|wanted| - 1], binds, before)
    requires OpenedFor(held, wanted, binds, |wanted| - 1, x)
    ensures OpensAll(held, wanted, binds, before + [x])
  {
    OneMoreIsDistinct(held, wanted, binds, before, x);
    assert x in before + [x];
    EachGrows(held, wanted, binds, before, before + [x]);
    OnlyGrows(held, wanted, binds, before, before + [x]);
  }

  lemma SystemBindsFewer(held: Held, wanted: seq<Forward>, binds: Binds)
    requires wanted != [] && SystemBinds(held, wanted, binds)
    ensures SystemBinds(held, wanted[..|wanted| - 1], binds)
  {
    var n: nat := |wanted| - 1;
    forall i: nat | i < n ensures ToOpen(held, wanted[..n], i) == ToOpen(held, wanted, i) {
    }
  }

  lemma {:induction false} FreshExactly(held: Held, wanted: seq<Forward>, binds: Binds)
    requires SystemBinds(held, wanted, binds)
    ensures var added := Fresh(held.forwards, wanted, binds, held.sockets);
            && (added.None? <==> Refused(held, wanted, binds))
            && (added.Some? ==> OpensAll(held, wanted, binds, added.value))
  {
    if wanted != [] {
      var n: nat := |wanted| - 1;
      SystemBindsFewer(held, wanted, binds);
      FreshExactly(held, wanted[..n], binds);
      FreshRefused(held, wanted, binds);
      var before := Fresh(held.forwards, wanted[..n], binds, held.sockets);
      if before.Some? {
        if !ToOpen(held, wanted, n) {
          NothingToOpen(held, wanted, binds, before.value);
        } else if binds(n).Some? {
          var x := Forwarding(Accepting(binds(n).value, held.sockets + |before.value|), wanted[n].target);
          OneToOpen(held, wanted, binds, before.value, x);
        }
      }
    }
  }

  /**
   The forwards move all together or not at all: refused exactly when an address not yet held cannot be bound; granted,
   what is held is exactly what is wanted, port 0 resolved, and an address in both keeps its very socket.
   */
  lemma ForwardsMoveAllOrNothing(held: Held, wanted: seq<Forward>, binds: Binds)
    requires Good(held) && OnePerAddress(wanted) && SystemBinds(held, wanted, binds)
    ensures var moved := ForwardsMoved(held, wanted, binds);
            && (moved.None? <==> Refused(held, wanted, binds))
            && (moved.Some? ==>
                  && Good(moved.value)
                  && moved.value.http == held.http && moved.value.socks == held.socks
                  && (forall f :: f in Reported(moved.value.forwards) <==> Wanted(held, wanted, binds, f))
                  && (forall x :: x in moved.value.forwards && Holds(held.forwards, x.accepting.addr) ==>
                        exists k :: 0 <= k < |held.forwards| && held.forwards[k].accepting == x.accepting))
  {
    FreshExactly(held, wanted, binds);
    if ForwardsMoved(held, wanted, binds).Some? {
      MovedIsGood(held, wanted, binds);
      forall f {
        MovedIsWanted(held, wanted, binds, f);
      }
    }
  }

  lemma MovedIsGood(held: Held, wanted: seq<Forward>, binds: Binds)
    requires Good(held) && SystemBinds(held, wanted, binds) && ForwardsMoved(held, wanted, binds).Some?
    ensures var moved := ForwardsMoved(held, wanted, binds).value;
            && Good(moved)
            && (forall x :: x in moved.forwards && Holds(held.forwards, x.accepting.addr) ==>
                  exists k :: 0 <= k < |held.forwards| && held.forwards[k].accepting == x.accepting)
  {
    RetainedExactly(held.forwards, wanted);
    FreshExactly(held, wanted, binds);
    var kept := Retained(held.forwards, wanted);
    var added := Fresh(held.forwards, wanted, binds, held.sockets).value;
    forall x | x in kept ensures Holds(held.forwards, x.accepting.addr) && x.accepting.addr.port != 0 {
    }
    forall x | x in added ensures !Holds(held.forwards, x.accepting.addr) && x.accepting.addr.port != 0 {
      var i: nat :| OpenedFor(held, wanted, binds, i, x);
    }
    var all := kept + added;
    forall j, k | 0 <= j < k < |all| ensures all[j].accepting.addr != all[k].accepting.addr {
      if j < |kept| <= k {
        assert kept[j] in kept && added[k - |kept|] in added;
      }
    }
    forall k | 0 <= k < |all| ensures all[k].accepting.addr.port != 0 {
      assert all[k] in kept || all[k] in added;
    }
  }

  lemma MovedIsWanted(held: Held, wanted: seq<Forward>, binds: Binds, f: Forward)
    requires Good(held) && OnePerAddress(wanted) && SystemBinds(held, wanted, binds)
    requires ForwardsMoved(held, wanted, binds).Some?
    ensures f in Reported(ForwardsMoved(held, wanted, binds).value.forwards) <==> Wanted(held, wanted, binds, f)
  {
    var all := ForwardsMoved(held, wanted, binds).value.forwards;
    if f in Reported(all) {
      var k :| 0 <= k < |all| && Reported(all)[k] == f;
      ReportedIsWanted(held, wanted, binds, all[k]);
    }
    if Wanted(held, wanted, binds, f) {
      WantedIsReported(held, wanted, binds, f);
    }
  }

  lemma ReportedIsWanted(held: Held, wanted: seq<Forward>, binds: Binds, x: Forwarding)
    requires Good(held) && OnePerAddress(wanted) && SystemBinds(held, wanted, binds)
    requires ForwardsMoved(held, wanted, binds).Some? && x in ForwardsMoved(held, wanted, binds).value.forwards
    ensures Wanted(held, wanted, binds, Forward(x.accepting.addr, x.target))
  {
    if x in Retained(held.forwards, wanted) {
      RetainedExactly(held.forwards, wanted);
      assert Forward(x.accepting.addr, x.target) in wanted;
      var i: nat :| i < |wanted| && wanted[i] == Forward(x.accepting.addr, x.target);
      assert Resolved(held, wanted, binds, i) == x.accepting.addr;
    } else {
      FreshExactly(held, wanted, binds);
      var i: nat :| OpenedFor(held, wanted, binds, i, x);
      assert Resolved(held, wanted, binds, i) == x.accepting.addr;
    }
  }

  lemma WantedIsReported(held: Held, wanted: seq<Forward>, binds: Binds, f: Forward)
    requires Good(held) && OnePerAddress(wanted) && SystemBinds(held, wanted, binds)
    requires ForwardsMoved(held, wanted, binds).Some? && Wanted(held, wanted, binds, f)
    ensures f in Reported(ForwardsMoved(held, wanted, binds).value.forwards)
  {
    var i: nat :| i < |wanted| && f == Forward(Resolved(held, wanted, binds, i), wanted[i].target);
    var x := SocketFor(held, wanted, binds, i);
    var all := ForwardsMoved(held, wanted, binds).value.forwards;
    var n :| 0 <= n < |all| && all[n] == x;
    assert Reported(all)[n] == f;
  }

  lemma SocketFor(held: Held, wanted: seq<Forward>, binds: Binds, i: nat) returns (x: Forwarding)
    requires Good(held) && OnePerAddress(wanted) && SystemBinds(held, wanted, binds) && i < |wanted|
    requires ForwardsMoved(held, wanted, binds).Some?
    ensures x in ForwardsMoved(held, wanted, binds).value.forwards
    ensures x.accepting.addr == Resolved(held, wanted, binds, i) && x.target == wanted[i].target
  {
    var kept, added := Retained(held.forwards, wanted), Fresh(held.forwards, wanted, binds, held.sockets).value;
    assert forall y :: y in kept || y in added ==> y in kept + added;
    if Holds(held.forwards, wanted[i].listen) {
      RetainedExactly(held.forwards, wanted);
      var k :| 0 <= k < |held.forwards| && held.forwards[k].accepting.addr == wanted[i].listen;
      TargetAt(wanted, i);
      x := Forwarding(held.forwards[k].accepting, wanted[i].target);
      assert x in kept;
    } else {
      FreshExactly(held, wanted, binds);
      assert ToOpen(held, wanted, i);
      x :| x in added && OpenedFor(held, wanted, binds, i, x);
    }
  }
}

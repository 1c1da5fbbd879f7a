/** The published list: every address with the verdict handle judging it, and how a reload hands handles on. */
module Entries {
  import opened Options
  import opened Health
  import opened Upstreams

  const MAX_U64: nat := 0xFFFF_FFFF_FFFF_FFFF

  /** `H` is whatever identifies a shared verdict cell. */
  datatype Entry<+H> = Entry(upstream: Upstream, health: H)

  /** `publication` counts the lists published before this one, saturating at 64 bits. */
  datatype UpstreamEntries<+H> = UpstreamEntries(entries: seq<Entry<H>>, publication: nat)

  predicate Names<H>(list: UpstreamEntries<H>, socket: Addr) {
    exists k :: 0 <= k < |list.entries| && list.entries[k].upstream.socket == socket
  }

  /** The handle of the first entry at `socket`. */
  function HandleAt<H>(entries: seq<Entry<H>>, socket: Addr): (r: Option<H>)
    ensures r.None? <==> forall k :: 0 <= k < |entries| ==> entries[k].upstream.socket != socket
    ensures r.Some? ==> exists k :: 0 <= k < |entries| && entries[k] == Entry(entries[k].upstream, r.value)
                                    && entries[k].upstream.socket == socket
  {
    if entries == [] then None
    else if entries[0].upstream.socket == socket then Some(entries[0].health)
    else
      var later := HandleAt(entries[1..], socket);
      assert later.Some? ==> forall k :: 0 <= k < |entries| - 1 ==> entries[1..][k] == entries[k + 1];
      later
  }

  /** The handle the list already judges `socket` with, or `minted`. */
  function HandleFor<H>(list: UpstreamEntries<H>, socket: Addr, minted: H): H {
    match HandleAt(list.entries, socket)
    case Some(kept) => kept
    case None => minted
  }

  /** The list `next` publishes over `list`; `minted[i]` is the handle position `i` gets when its address is new. */
  function Adopted<H>(list: UpstreamEntries<H>, next: seq<Upstream>, minted: seq<H>): UpstreamEntries<H>
    requires |minted| == |next|
  {
    UpstreamEntries(
      seq(|next|, i requires 0 <= i < |next| =>
        Entry(next[i], HandleFor(list, next[i].socket, minted[i]))),
      if list.publication < MAX_U64 then list.publication + 1 else MAX_U64)
  }

  /** The inner loop of a reload: the handle of the first listed entry at the socket. */
  method Judge(list: UpstreamEntries<HealthHandle>, socket: Addr) returns (health: Option<HealthHandle>)
    ensures health == HandleAt(list.entries, socket)
  {
    for k := 0 to |list.entries|
      invariant HandleAt(list.entries, socket) == HandleAt(list.entries[k..], socket)
    {
      assert list.entries[k..][1..] == list.entries[k + 1..];
      if list.entries[k].upstream.socket == socket {
        return Some(list.entries[k].health);
      }
    }
    return None;
  }

  /** The outer loop of a reload, minting a cell only for an address the list in force does not judge. */
  method Adopt(list: UpstreamEntries<HealthHandle>, next: seq<Upstream>, now: int)
    returns (r: UpstreamEntries<HealthHandle>, ghost minted: seq<HealthHandle>)
    requires list.publication <= MAX_U64
    ensures |minted| == |next| && r == Adopted(list, next, minted)
    ensures forall i :: 0 <= i < |next| && !Names(list, next[i].socket) ==>
              && fresh(minted[i])
              && minted[i].verdict == Verdict(HealthState.Down, now) && minted[i].upstream == next[i].written
    ensures forall i, j :: 0 <= i < j < |next| && !Names(list, next[i].socket) && !Names(list, next[j].socket) ==>
              minted[i] != minted[j]
  {
    var entries: seq<Entry<HealthHandle>> := [];
    minted := [];
    for i := 0 to |next|
      invariant |entries| == |minted| == i
      invariant forall k :: 0 <= k < i ==> entries[k] == Entry(next[k], HandleFor(list, next[k].socket, minted[k]))
      invariant forall k :: 0 <= k < i && !Names(list, next[k].socket) ==>
                  && fresh(minted[k])
                  && minted[k].verdict == Verdict(HealthState.Down, now) && minted[k].upstream == next[k].written
      invariant forall j, k :: 0 <= j < k < i && !Names(list, next[j].socket) && !Names(list, next[k].socket) ==>
                  minted[j] != minted[k]
    {
      var health := Judge(list, next[i].socket);
      var judged: HealthHandle;
      if health.Some? {
        judged := health.value;
      } else {
        judged := new HealthHandle.Judging(next[i].written, now);
      }
      entries := entries + [Entry(next[i], judged)];
      minted := minted + [judged];
    }
    r := UpstreamEntries(entries, if list.publication == MAX_U64 then MAX_U64 else list.publication + 1);
  }

  predicate PublishedBefore<H>(list: UpstreamEntries<H>, other: UpstreamEntries<H>) {
    list.publication < other.publication
  }

  function At<H>(list: UpstreamEntries<H>, choice: Option<nat>): Option<Entry<H>> {
    if choice.Some? && choice.value < |list.entries| then Some(list.entries[choice.value]) else None
  }

  /** What a `require` dial goes through: the selected entry, or the first while none is selected. */
  function Required<H>(list: UpstreamEntries<H>, choice: Option<nat>): Option<Entry<H>> {
    match At(list, choice)
    case Some(entry) => Some(entry)
    case None => if list.entries == [] then None else Some(list.entries[0])
  }
}

/** Which handle judges which address over any number of publications. */
module Lineage {
  import opened Options
  import opened Upstreams
  import opened Entries

  type Handle = nat
  type List = UpstreamEntries<Handle>

  /** Every list from `a` to `b` names the address. */
  ghost predicate NamedThroughout(lists: seq<List>, a: nat, b: nat, socket: Addr)
    requires b < |lists|
  {
    forall c :: a <= c <= b ==> Names(lists[c], socket)
  }

  ghost predicate SocketsDistinct(list: List) {
    forall i, j :: 0 <= i < j < |list.entries| ==> list.entries[i].upstream.socket != list.entries[j].upstream.socket
  }

  /** Two entries, of one list or of two, share a handle exactly when they are one address named without a break. */
  ghost predicate SharedExactly(lists: seq<List>, a: nat, i: nat, b: nat, j: nat)
    requires a <= b < |lists| && i < |lists[a].entries| && j < |lists[b].entries|
  {
    var x, y := lists[a].entries[i], lists[b].entries[j];
    x.health == y.health
    <==> x.upstream.socket == y.upstream.socket && NamedThroughout(lists, a, b, x.upstream.socket)
  }

  ghost predicate Coherent(lists: seq<List>) {
    && (forall a :: 0 <= a < |lists| ==> SocketsDistinct(lists[a]))
    && (forall a: nat, i: nat, b: nat, j: nat ::
          a <= b < |lists| && i < |lists[a].entries| && j < |lists[b].entries| ==> SharedExactly(lists, a, i, b, j))
  }

  /** Every handle handed out so far is below `bound`. */
  ghost predicate Below(lists: seq<List>, bound: nat) {
    forall a, i :: 0 <= a < |lists| && 0 <= i < |lists[a].entries| ==> lists[a].entries[i].health < bound
  }

  function Minted(bound: nat, count: nat): seq<Handle> {
    seq(count, i => bound + i)
  }

  lemma NamedGrows(lists: seq<List>, next: List, a: nat, b: nat, socket: Addr)
    requires a <= b < |lists|
    ensures NamedThroughout(lists + [next], a, b, socket) == NamedThroughout(lists, a, b, socket)
    ensures NamedThroughout(lists + [next], a, |lists|, socket)
            == (NamedThroughout(lists, a, |lists| - 1, socket) && Names(next, socket))
  {
    var grown := lists + [next];
    assert forall c :: 0 <= c < |lists| ==> grown[c] == lists[c];
    if NamedThroughout(grown, a, |lists|, socket) {
      assert Names(grown[|lists|], socket);
      forall c | a <= c <= |lists| - 1 ensures Names(lists[c], socket) {
        assert Names(grown[c], socket);
      }
    }
    if NamedThroughout(grown, a, b, socket) {
      forall c | a <= c <= b ensures Names(lists[c], socket) {
        assert Names(grown[c], socket);
      }
    }
  }

  /** One publication keeps the lineage. */
  lemma PublishKeepsLineage(lists: seq<List>, bound: nat, next: seq<Upstream>)
    requires lists != [] && Coherent(lists) && Below(lists, bound) && Distinct(next)
    ensures var grown := lists + [Adopted(lists[|lists| - 1], next, Minted(bound, |next|))];
            Coherent(grown) && Below(grown, bound + |next|)
  {
    var n := |lists|;
    var last := lists[n - 1];
    var added := Adopted(last, next, Minted(bound, |next|));
    var grown := lists + [added];
    forall a: nat, i: nat, b: nat, j: nat | a <= b < |grown| && i < |grown[a].entries| && j < |grown[b].entries|
      ensures SharedExactly(grown, a, i, b, j)
    {
      if b < n {
        assert SharedExactly(lists, a, i, b, j);
        NamedGrows(lists, added, a, b, grown[a].entries[i].upstream.socket);
      } else {
        if a < n {
          NewAndOld(lists, bound, next, a, i, j);
        } else {
          BothNew(lists, bound, next, i, j);
        }
      }
    }
  }

  /** Where position `j` of the new list got its handle: from entry `k` of the list before, or freshly minted. */
  lemma AdoptedFrom(last: List, next: seq<Upstream>, minted: seq<Handle>, j: nat) returns (k: Option<nat>)
    requires |minted| == |next| && j < |next|
    ensures var entry := Adopted(last, next, minted).entries[j];
            && entry.upstream == next[j]
            && (k.None? ==> entry.health == minted[j] && !Names(last, next[j].socket))
            && (k.Some? ==> k.value < |last.entries| && last.entries[k.value].upstream.socket == next[j].socket
                            && last.entries[k.value].health == entry.health)
  {
    var found := HandleAt(last.entries, next[j].socket);
    if found.Some? {
      var m :| 0 <= m < |last.entries| && last.entries[m].health == found.value
               && last.entries[m].upstream.socket == next[j].socket;
      return Some(m);
    }
    return None;
  }

  /** An entry of the new list and one of an earlier list. */
  lemma NewAndOld(lists: seq<List>, bound: nat, next: seq<Upstream>, a: nat, i: nat, j: nat)
    requires lists != [] && Coherent(lists) && Below(lists, bound)
    requires a < |lists| && i < |lists[a].entries| && j < |next|
    ensures var grown := lists + [Adopted(lists[|lists| - 1], next, Minted(bound, |next|))];
            SharedExactly(grown, a, i, |lists|, j)
  {
    var n := |lists|;
    var last := lists[n - 1];
    var added := Adopted(last, next, Minted(bound, |next|));
    var x, y := lists[a].entries[i], added.entries[j];
    assert Names(added, y.upstream.socket);
    NamedGrows(lists, added, a, n - 1, x.upstream.socket);
    var k := AdoptedFrom(last, next, Minted(bound, |next|), j);
    if k.Some? {
      assert SharedExactly(lists, a, i, n - 1, k.value);
    } else {
      assert NamedThroughout(lists, a, n - 1, x.upstream.socket) ==> Names(lists[n - 1], x.upstream.socket);
    }
  }

  /** Two entries of the new list. */
  lemma BothNew(lists: seq<List>, bound: nat, next: seq<Upstream>, i: nat, j: nat)
    requires lists != [] && Coherent(lists) && Below(lists, bound) && Distinct(next) && i < |next| && j < |next|
    ensures var grown := lists + [Adopted(lists[|lists| - 1], next, Minted(bound, |next|))];
            SharedExactly(grown, |lists|, i, |lists|, j)
  {
    var n := |lists|;
    var last := lists[n - 1];
    var added := Adopted(last, next, Minted(bound, |next|));
    if i == j {
      assert Names(added, added.entries[i].upstream.socket);
    } else {
      var k := AdoptedFrom(last, next, Minted(bound, |next|), i);
      var m := AdoptedFrom(last, next, Minted(bound, |next|), j);
      if k.Some? && m.Some? {
        assert SharedExactly(lists, n - 1, k.value, n - 1, m.value);
      }
    }
  }

  /** The lists a run of publications leaves, the empty one of a daemon just started first. */
  function Published(nexts: seq<seq<Upstream>>): (r: (seq<List>, nat))
    ensures r.0 != []
  {
    if nexts == [] then ([UpstreamEntries([], 0)], 0)
    else
      var (lists, bound) := Published(nexts[..|nexts| - 1]);
      var next := nexts[|nexts| - 1];
      (lists + [Adopted(lists[|lists| - 1], next, Minted(bound, |next|))], bound + |next|)
  }

  /**
   Over any run of publications: one socket and one handle per entry, and a handle survives exactly an unbroken
   naming.
   */
  lemma {:induction false} HandleLineage(nexts: seq<seq<Upstream>>)
    requires forall k :: 0 <= k < |nexts| ==> Distinct(nexts[k])
    ensures Coherent(Published(nexts).0) && Below(Published(nexts).0, Published(nexts).1)
    ensures |Published(nexts).0| == |nexts| + 1
    ensures forall k :: 0 <= k <= |nexts| ==>
              Published(nexts).0[k].publication == if k <= MAX_U64 then k else MAX_U64
  {
    if nexts != [] {
      var n := |nexts| - 1;
      HandleLineage(nexts[..n]);
      var (lists, bound) := Published(nexts[..n]);
      PublishKeepsLineage(lists, bound, nexts[n]);
    }
  }
}

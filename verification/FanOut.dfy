/** The bounded fan-out of decision events, and what each reader is told about the ones it missed. */
module FanOut {
  const SUBSCRIBER_CAPACITY: nat := 256
  const MAX_U64: nat := 0xFFFF_FFFF_FFFF_FFFF

  /** One event in a reader's queue; `dropped` is the number it reports as lost before it, 0 for no report. */
  datatype Sent<+E> = Sent(event: E, dropped: nat)

  /** One reader: its queue, its unreported losses, whether it still listens; and all it was ever offered and queued. */
  datatype Reader<+E> = Reader(queue: seq<Sent<E>>, dropped: nat, open: bool, offers: seq<E>, queued: seq<Sent<E>>)

  function Joined<E>(): Reader<E> {
    Reader([], 0, true, [], [])
  }

  function Offered<E>(reader: Reader<E>, event: E): Reader<E> {
    var sent := Sent(event, reader.dropped);
    if !reader.open then reader
    else if |reader.queue| < SUBSCRIBER_CAPACITY then
      Reader(reader.queue + [sent], 0, true, reader.offers + [event], reader.queued + [sent])
    else
      reader.(dropped := if reader.dropped < MAX_U64 then reader.dropped + 1 else MAX_U64,
              offers := reader.offers + [event])
  }

  class Subscriber<E> {
    var queue: seq<Sent<E>>
    var dropped: nat
    var open: bool
    ghost var offers: seq<E>
    ghost var queued: seq<Sent<E>>

    constructor ()
      ensures Value() == Joined()
    {
      queue, dropped, open, offers, queued := [], 0, true, [], [];
    }

    ghost function Value(): Reader<E>
      reads this
    {
      Reader(queue, dropped, open, offers, queued)
    }

    method TrySend(sent: Sent<E>) returns (full: bool)
      requires open
      modifies this`queue, this`queued
      ensures full == (|old(queue)| >= SUBSCRIBER_CAPACITY)
      ensures queue == (if full then old(queue) else old(queue) + [sent])
      ensures queued == (if full then old(queued) else old(queued) + [sent])
    {
      full := |queue| >= SUBSCRIBER_CAPACITY;
      if !full {
        queue, queued := queue + [sent], queued + [sent];
      }
    }

    /** Offers one event; a closed reader is gone, a full one loses the event and is owed a report. */
    method Offer(event: E) returns (kept: bool)
      modifies this
      ensures Value() == Offered(old(Value()), event) && kept == old(open)
    {
      if !open {
        return false;
      }
      var full := TrySend(Sent(event, dropped));
      offers := offers + [event];
      if full {
        dropped := if dropped < MAX_U64 then dropped + 1 else MAX_U64;
      } else {
        dropped := 0;
      }
      return true;
    }
  }

  class EventTx<E> {
    var subscribers: seq<Subscriber<E>>

    constructor ()
      ensures subscribers == []
    {
      subscribers := [];
    }

    ghost predicate Valid()
      reads this
    {
      forall i, j :: 0 <= i < j < |subscribers| ==> subscribers[i] != subscribers[j]
    }

    method Subscribe() returns (queue: Subscriber<E>)
      requires Valid()
      modifies this
      ensures Valid() && fresh(queue) && subscribers == old(subscribers) + [queue] && queue.Value() == Joined()
    {
      queue := new Subscriber();
      subscribers := subscribers + [queue];
    }

    /** Offers the event to every subscriber and forgets those that are gone. */
    method Publish(event: E)
      requires Valid()
      modifies this, set s | s in subscribers
      ensures Valid()
      ensures forall s :: s in old(subscribers) ==> s.Value() == Offered(old(s.Value()), event)
      ensures forall s :: s in subscribers <==> s in old(subscribers) && old(s.open)
    {
      var all := subscribers;
      var retained: seq<Subscriber<E>> := [];
      for i := 0 to |all|
        invariant subscribers == all == old(subscribers)
        invariant forall j :: 0 <= j < i ==> all[j].Value() == Offered(old(all[j].Value()), event)
        invariant forall j :: i <= j < |all| ==> all[j].Value() == old(all[j].Value())
        invariant forall s :: s in retained <==> s in all[..i] && old(s.open)
        invariant forall j, k :: 0 <= j < k < |retained| ==> retained[j] != retained[k]
      {
        assert all[i] !in all[..i];
        var kept := all[i].Offer(event);
        assert all[..i + 1] == all[..i] + [all[i]];
        if kept {
          retained := retained + [all[i]];
        }
      }
      assert all[..|all|] == all;
      subscribers := retained;
    }
  }

  // ---------- any interleaving of publishing, reading and leaving ----------

  datatype Step<+E> =
    | Subscribe
    | Publish(event: E)
    | Receive(reader: nat)
    | Close(reader: nat)

  /**
   Every reader there ever was, those still listed, and what each has read; `since[r]` is how much was published
   before it.
   */
  datatype Fan<+E> = Fan(
    readers: seq<Reader<E>>, listed: set<nat>, since: seq<nat>, read: seq<seq<Sent<E>>>, published: seq<E>)

  predicate Enabled<E>(fan: Fan<E>, step: Step<E>) {
    match step
    case Subscribe => true
    case Publish(_) => true
    case Receive(r) => r < |fan.readers| && r < |fan.read| && fan.readers[r].queue != []
    case Close(r) => r < |fan.readers|
  }

  function Next<E>(fan: Fan<E>, step: Step<E>): Fan<E>
    requires Enabled(fan, step)
  {
    match step
    case Subscribe =>
      fan.(readers := fan.readers + [Joined()], listed := fan.listed + {|fan.readers|},
           since := fan.since + [|fan.published|], read := fan.read + [[]])
    case Publish(event) =>
      fan.(readers := seq(|fan.readers|, r requires 0 <= r < |fan.readers| =>
                            if r in fan.listed then Offered(fan.readers[r], event) else fan.readers[r]),
           listed := (set r | r in fan.listed && r < |fan.readers| && fan.readers[r].open),
           published := fan.published + [event])
    case Receive(r) =>
      fan.(readers := fan.readers[r := fan.readers[r].(queue := fan.readers[r].queue[1..])],
           read := fan.read[r := fan.read[r] + [fan.readers[r].queue[0]]])
    case Close(r) =>
      fan.(readers := fan.readers[r := fan.readers[r].(open := false)])
  }

  ghost predicate Runs<E>(fan: Fan<E>, steps: seq<Step<E>>)
    decreases |steps|
  {
    steps == [] || (Enabled(fan, steps[0]) && Runs(Next(fan, steps[0]), steps[1..]))
  }

  ghost function After<E>(fan: Fan<E>, steps: seq<Step<E>>): Fan<E>
    requires Runs(fan, steps)
    decreases |steps|
  {
    if steps == [] then fan else After(Next(fan, steps[0]), steps[1..])
  }

  /** The losses reported on a run of queued events. */
  function Losses<E>(queued: seq<Sent<E>>): nat {
    if queued == [] then 0 else Losses(queued[..|queued| - 1]) + queued[|queued| - 1].dropped
  }

  /** Where among its offers a reader places the `k`-th event it gets: after those it got and those reported lost. */
  function Place<E>(queued: seq<Sent<E>>, k: nat): nat
    requires k < |queued|
  {
    k + Losses(queued[..k + 1])
  }

  ghost predicate PlacedAt<E>(queued: seq<Sent<E>>, offers: seq<E>, k: nat)
    requires k < |queued|
  {
    Place(queued, k) < |offers| && queued[k].event == offers[Place(queued, k)]
  }

  ghost predicate Placed<E>(queued: seq<Sent<E>>, offers: seq<E>) {
    forall k: nat :: k < |queued| ==> PlacedAt(queued, offers, k)
  }

  /** Every offer is accounted for: queued, reported lost, or still owed a report. */
  ghost predicate Accounted<E>(reader: Reader<E>) {
    && |reader.queue| <= SUBSCRIBER_CAPACITY
    && |reader.offers| == |reader.queued| + Losses(reader.queued) + reader.dropped
    && Placed(reader.queued, reader.offers)
  }

  ghost predicate ReaderGood<E>(fan: Fan<E>, r: nat)
    requires r < |fan.readers| == |fan.since| == |fan.read|
  {
    && Accounted(fan.readers[r])
    && fan.read[r] + fan.readers[r].queue == fan.readers[r].queued
    && fan.since[r] <= |fan.published|
    && fan.readers[r].offers <= fan.published[fan.since[r]..]
    && (fan.readers[r].open ==> r in fan.listed && fan.readers[r].offers == fan.published[fan.since[r]..])
  }

  ghost predicate Inv<E>(fan: Fan<E>) {
    && |fan.readers| == |fan.since| == |fan.read|
    && forall r: nat :: r < |fan.readers| ==> ReaderGood(fan, r)
  }

  lemma LossesGrow<E>(queued: seq<Sent<E>>, sent: Sent<E>)
    ensures Losses(queued + [sent]) == Losses(queued) + sent.dropped
  {
    assert (queued + [sent])[..|queued|] == queued;
  }

  lemma PlaceStays<E>(queued: seq<Sent<E>>, sent: Sent<E>, k: nat)
    requires k < |queued|
    ensures Place(queued + [sent], k) == Place(queued, k)
  {
    assert (queued + [sent])[..k + 1] == queued[..k + 1];
  }

  lemma LastPlace<E>(queued: seq<Sent<E>>, sent: Sent<E>)
    ensures Place(queued + [sent], |queued|) == |queued| + Losses(queued) + sent.dropped
  {
    LossesGrow(queued, sent);
    assert (queued + [sent])[..|queued| + 1] == queued + [sent];
  }

  lemma PlacedAtGrows<E>(queued: seq<Sent<E>>, offers: seq<E>, sent: Sent<E>, k: nat)
    requires Placed(queued, offers) && |offers| == |queued| + Losses(queued) + sent.dropped && k <= |queued|
    ensures PlacedAt(queued + [sent], offers + [sent.event], k)
  {
    if k < |queued| {
      assert PlacedAt(queued, offers, k);
      PlaceStays(queued, sent, k);
    } else {
      LastPlace(queued, sent);
    }
  }

  lemma PlacedGrows<E>(queued: seq<Sent<E>>, offers: seq<E>, sent: Sent<E>)
    requires Placed(queued, offers) && |offers| == |queued| + Losses(queued) + sent.dropped
    ensures Placed(queued + [sent], offers + [sent.event])
  {
    forall k: nat | k < |queued + [sent]| ensures PlacedAt(queued + [sent], offers + [sent.event], k) {
      PlacedAtGrows(queued, offers, sent, k);
    }
  }

  lemma PlacedStays<E>(queued: seq<Sent<E>>, offers: seq<E>, event: E)
    requires Placed(queued, offers)
    ensures Placed(queued, offers + [event])
  {
    forall k: nat | k < |queued| ensures PlacedAt(queued, offers + [event], k) {
      assert PlacedAt(queued, offers, k);
    }
  }

  lemma OfferAccounted<E>(reader: Reader<E>, event: E)
    requires Accounted(reader) && reader.dropped < MAX_U64
    ensures Accounted(Offered(reader, event))
  {
    if reader.open && |reader.queue| < SUBSCRIBER_CAPACITY {
      LossesGrow(reader.queued, Sent(event, reader.dropped));
      PlacedGrows(reader.queued, reader.offers, Sent(event, reader.dropped));
    } else {
      PlacedStays(reader.queued, reader.offers, event);
    }
  }

  /** The published stream from `since` on, one event later. */
  lemma StreamGrows<E>(published: seq<E>, since: nat, event: E)
    requires since <= |published|
    ensures (published + [event])[since..] == published[since..] + [event]
  {
  }

  lemma OfferFollows<E>(reader: Reader<E>, event: E, stream: seq<E>)
    requires reader.offers <= stream && (reader.open ==> reader.offers == stream)
    ensures var after := Offered(reader, event);
            && after.open == reader.open && after.offers <= stream + [event]
            && (after.open ==> after.offers == stream + [event])
  {
  }

  lemma OfferQueues<E>(reader: Reader<E>, event: E, read: seq<Sent<E>>)
    requires read + reader.queue == reader.queued
    ensures read + Offered(reader, event).queue == Offered(reader, event).queued
  {
    var sent := Sent(event, reader.dropped);
    assert read + (reader.queue + [sent]) == (read + reader.queue) + [sent];
  }

  lemma PublishKeeps<E>(fan: Fan<E>, event: E, r: nat)
    requires Inv(fan) && |fan.published| < MAX_U64 && r < |fan.readers|
    ensures ReaderGood(Next(fan, Publish(event)), r)
  {
    assert ReaderGood(fan, r);
    var reader, stream := fan.readers[r], fan.published[fan.since[r]..];
    StreamGrows(fan.published, fan.since[r], event);
    if r in fan.listed {
      OfferAccounted(reader, event);
      OfferFollows(reader, event, stream);
      OfferQueues(reader, event, fan.read[r]);
    } else {
      assert reader.offers <= stream + [event];
    }
  }

  lemma ReceiveKeeps<E>(fan: Fan<E>, q: nat, r: nat)
    requires Inv(fan) && Enabled(fan, Receive(q)) && r < |fan.readers|
    ensures ReaderGood(Next(fan, Receive(q)), r)
  {
    assert ReaderGood(fan, r);
    if r == q {
      var queue := fan.readers[q].queue;
      assert fan.read[q] + queue == (fan.read[q] + [queue[0]]) + queue[1..];
    }
  }

  lemma SubscribeKeeps<E>(fan: Fan<E>, r: nat)
    requires Inv(fan) && r <= |fan.readers|
    ensures ReaderGood(Next(fan, Subscribe), r)
  {
    if r < |fan.readers| {
      assert ReaderGood(fan, r);
    }
  }

  lemma StepKeeps<E>(fan: Fan<E>, step: Step<E>)
    requires Inv(fan) && Enabled(fan, step) && |fan.published| < MAX_U64
    ensures Inv(Next(fan, step))
  {
    var t := Next(fan, step);
    forall r: nat | r < |t.readers| ensures ReaderGood(t, r) {
      match step
      case Subscribe => SubscribeKeeps(fan, r);
      case Publish(event) => PublishKeeps(fan, event, r);
      case Receive(q) => ReceiveKeeps(fan, q, r);
      case Close(q) => assert ReaderGood(fan, r);
    }
  }

  lemma {:induction false} RunKeeps<E>(fan: Fan<E>, steps: seq<Step<E>>)
    requires Inv(fan) && Runs(fan, steps) && |fan.published| + |steps| <= MAX_U64
    ensures Inv(After(fan, steps))
    decreases |steps|
  {
    if steps != [] {
      StepKeeps(fan, steps[0]);
      RunKeeps(Next(fan, steps[0]), steps[1..]);
    }
  }

  lemma PlacesRise<E>(queued: seq<Sent<E>>, j: nat, k: nat)
    requires j < k < |queued|
    ensures Place(queued, j) < Place(queued, k)
  {
    LossesRise(queued, j + 1, k + 1);
  }

  lemma {:induction false} LossesRise<E>(queued: seq<Sent<E>>, j: nat, k: nat)
    requires j <= k <= |queued|
    ensures Losses(queued[..j]) <= Losses(queued[..k])
  {
    if j < k {
      LossesRise(queued, j, k - 1);
      assert queued[..k][..k - 1] == queued[..k - 1];
    }
  }

  /** The first `count` events a reader got have the places they have among all it got. */
  lemma PlaceInPrefix<E>(queued: seq<Sent<E>>, count: nat, k: nat)
    requires k < count <= |queued|
    ensures Place(queued[..count], k) == Place(queued, k)
  {
    assert queued[..count][..k + 1] == queued[..k + 1];
  }

  /** Before anybody has subscribed or published. */
  function Quiet<E>(): Fan<E> {
    Fan([], {}, [], [], [])
  }

  /**
   What `r` has read is the published stream since it joined, in order, with gaps exactly where it was told of them.
   */
  ghost predicate FollowsTheStream<E>(fan: Fan<E>, r: nat)
    requires r < |fan.read| == |fan.since|
  {
    && (forall k: nat :: k < |fan.read[r]| ==>
          && fan.since[r] + Place(fan.read[r], k) < |fan.published|
          && fan.read[r][k].event == fan.published[fan.since[r] + Place(fan.read[r], k)])
    && (forall j: nat, k: nat :: j < k < |fan.read[r]| ==> Place(fan.read[r], j) < Place(fan.read[r], k))
  }

  lemma ReadFollows<E>(fan: Fan<E>, r: nat)
    requires Inv(fan) && r < |fan.readers|
    ensures FollowsTheStream(fan, r)
  {
    assert ReaderGood(fan, r);
    var read, queued, offers := fan.read[r], fan.readers[r].queued, fan.readers[r].offers;
    assert read == queued[..|read|];
    forall k: nat | k < |read|
      ensures Place(read, k) < |offers| && read[k].event == offers[Place(read, k)]
    {
      assert PlacedAt(queued, offers, k);
      PlaceInPrefix(queued, |read|, k);
    }
    forall j: nat, k: nat | j < k < |read| ensures Place(read, j) < Place(read, k) {
      PlacesRise(read, j, k);
    }
  }

  /**
   When an event is lost: exactly when the queue of a listening reader is full. Otherwise it is queued, last, carrying
   the number lost since the one before it, and nothing more is owed.
   */
  lemma LostOnlyWhenFull<E>(steps: seq<Step<E>>, event: E, r: nat)
    requires Runs(Quiet(), steps) && |steps| < MAX_U64 && r < |After(Quiet(), steps).readers|
    requires After(Quiet(), steps).readers[r].open
    ensures var fan := After(Quiet(), steps);
            var before, after := fan.readers[r], Next(fan, Publish(event)).readers[r];
            && after.open && (forall s :: s in before.queue ==> s in after.queue)
            && (|before.queue| < 256 ==>
                  after.queue == before.queue + [Sent(event, before.dropped)] && after.dropped == 0)
            && (|before.queue| >= 256 ==> after.queue == before.queue && after.dropped == before.dropped + 1)
  {
    RunKeeps(Quiet(), steps);
    var fan := After(Quiet(), steps);
    assert ReaderGood(fan, r);
    PublishedSoFar(Quiet(), steps);
  }

  /** A reader that has left is forgotten at the next publication, and nothing more is offered to it. */
  lemma LeaversAreForgotten<E>(fan: Fan<E>, event: E, r: nat)
    requires Inv(fan) && r < |fan.readers|
    ensures var t := Next(fan, Publish(event));
            && r < |t.readers|
            && (r in t.listed <==> r in fan.listed && fan.readers[r].open)
            && (!fan.readers[r].open ==> t.readers[r] == fan.readers[r])
  {
  }

  lemma {:induction false} PublishedSoFar<E>(fan: Fan<E>, steps: seq<Step<E>>)
    requires Runs(fan, steps)
    ensures |After(fan, steps).published| <= |fan.published| + |steps|
    decreases |steps|
  {
    if steps != [] {
      PublishedSoFar(Next(fan, steps[0]), steps[1..]);
    }
  }

  /**
   Below 64-bit saturation, in every interleaving of subscribing, publishing, reading and leaving: no queue exceeds its
   capacity; what a reader gets is the published stream from the moment it joined, in order, with gaps exactly as long
   as the reports it got say; and while it listens, all that was published since it joined is what it got or will find
   in its queue, what it was or will be told it missed, and what it is still owed a report of.
   */
  lemma FanOutConserves<E>(steps: seq<Step<E>>, r: nat)
    requires Runs(Quiet(), steps) && |steps| <= MAX_U64 && r < |After(Quiet(), steps).readers|
    ensures var fan := After(Quiet(), steps);
            && r < |fan.read| == |fan.since|
            && |fan.readers[r].queue| <= SUBSCRIBER_CAPACITY
            && FollowsTheStream(fan, r)
            && (fan.readers[r].open ==>
                  var got := fan.read[r] + fan.readers[r].queue;
                  fan.since[r] + |got| + Losses(got) + fan.readers[r].dropped == |fan.published|)
  {
    RunKeeps(Quiet(), steps);
    var fan := After(Quiet(), steps);
    assert ReaderGood(fan, r);
    ReadFollows(fan, r);
  }
}

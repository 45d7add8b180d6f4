/** The realtime hub (internal/platform/realtime/hub.go), in-process delivery.

    Every method runs under the hub's mutex and so is one step; receiving from a
    subscription's channel is the one step taken outside it. `Valid` is what all
    steps keep, hence what holds in every interleaving of them. */
module Realtime {
  import opened Wrappers

  datatype Topic = Topic(name: string)

  datatype Payload = Payload(json: string)

  const BUFFER: nat := 64

  class Subscription {
    const topic: Topic
    var buffer: seq<Payload>        // sent, not yet received
    var open: bool
    ghost const start: nat          // deliveries to the topic before subscribing
    ghost var consumed: seq<Payload>

    constructor (topic: Topic, ghost start: nat)
      ensures this.topic == topic && this.start == start
      ensures buffer == [] && consumed == [] && open
    {
      this.topic, this.start, buffer, consumed, open := topic, start, [], [], true;
    }

    /** Everything this subscriber has been or can still be handed. */
    ghost function Seen(): seq<Payload>
      reads this
    {
      consumed + buffer
    }

    /** A send on a closed channel panics, one on a full channel blocks. */
    method Send(payload: Payload)
      requires open && |buffer| < BUFFER
      modifies this`buffer
      ensures buffer == old(buffer) + [payload]
    {
      buffer := buffer + [payload];
    }

    /** Closing a closed channel panics. */
    method CloseChannel()
      requires open
      modifies this`open
      ensures !open
    {
      open := false;
    }

    /** What a receive yields: the oldest payload, or None once the channel is
        closed and drained. On an open, empty channel it would wait. */
    method Receive() returns (r: Option<Payload>)
      requires buffer != [] || !open
      modifies this`buffer, this`consumed
      ensures old(buffer) == [] ==> r == None && buffer == [] && consumed == old(consumed)
      ensures old(buffer) != [] ==> (r == Some(old(buffer)[0]) && consumed == old(consumed) + [r.value] &&
        buffer == old(buffer)[1..])
      ensures Seen() == old(Seen())
    {
      if buffer == [] {
        return None;
      }
      r := Some(buffer[0]);
      consumed := consumed + [buffer[0]];
      buffer := buffer[1..];
    }
  }

  type Registry = map<Topic, set<Subscription>>

  /** `live` is the set of registered subscriptions; each is filed under its own
      topic, and no topic keeps an empty set. */
  ghost predicate Files(subs: Registry, live: set<Subscription>) {
    && (forall t :: t in subs ==> subs[t] != {})
    && (forall t, s :: t in subs && s in subs[t] ==> s.topic == t && s in live)
    && (forall s :: s in live ==> s.topic in subs && s in subs[s.topic])
  }

  lemma FilesAdd(subs: Registry, live: set<Subscription>, sub: Subscription)
    requires Files(subs, live)
    ensures Files(subs[sub.topic := (if sub.topic in subs then subs[sub.topic] else {}) + {sub}], live + {sub})
  {
  }

  lemma FilesRemove(subs: Registry, live: set<Subscription>, sub: Subscription)
    requires Files(subs, live) && sub in live
    ensures var rest := subs[sub.topic] - {sub};
      Files(if rest == {} then subs - {sub.topic} else subs[sub.topic := rest], live - {sub})
  {
  }

  function Everyone(subs: Registry): set<Subscription> {
    set t, s | t in subs && s in subs[t] :: s
  }

  lemma FilesEveryone(subs: Registry, live: set<Subscription>)
    requires Files(subs, live)
    ensures Everyone(subs) == live
  {
  }

  /** What holds of one subscription, given the deliveries to its topic so far
      and whether it is registered: registered iff open; an open one has seen
      exactly the deliveries since it subscribed, an ended one a prefix. */
  ghost predicate Consistent(s: Subscription, deliveries: seq<Payload>, registered: bool)
    reads s
  {
    && |s.buffer| <= BUFFER
    && s.open == registered
    && s.start <= |deliveries|
    && s.Seen() <= deliveries[s.start..]
    && (s.open ==> s.Seen() == deliveries[s.start..])
  }

  /** The effect of one delivery on one subscription it was registered for. */
  twostate predicate Offered(s: Subscription, payload: Payload)
    reads s
  {
    && s.consumed == old(s.consumed)
    && s.open == (old(|s.buffer|) < BUFFER)
    && s.buffer == if old(|s.buffer|) < BUFFER then old(s.buffer) + [payload] else old(s.buffer)
  }

  lemma SliceAppend(deliveries: seq<Payload>, payload: Payload)
    ensures forall i :: 0 <= i <= |deliveries| ==> (deliveries + [payload])[i..] == deliveries[i..] + [payload]
  {
  }

  class Hub {
    var subs: Registry
    var closed: bool
    ghost var live: set<Subscription>           // the registered subscriptions
    ghost var all: set<Subscription>            // every subscription ever handed out
    ghost var log: map<Topic, seq<Payload>>    // every delivery, by topic

    ghost function Log(topic: Topic): seq<Payload>
      reads this`log
    {
      if topic in log then log[topic] else []
    }

    ghost predicate Valid()
      reads this, all
    {
      && Files(subs, live) && live <= all
      && (closed ==> live == {})
      && forall s :: s in all ==> Consistent(s, Log(s.topic), s in live)
    }

    constructor ()
      ensures Valid() && !closed && all == {} && log == map[]
    {
      subs, closed, live, all, log := map[], false, {}, {}, map[];
    }

    method Subscribe(topic: Topic) returns (sub: Subscription)
      requires Valid()
      modifies this`subs, this`live, this`all
      ensures Valid() && fresh(sub) && all == old(all) + {sub}
      ensures sub.topic == topic && sub.start == |Log(topic)| && sub.Seen() == []
      ensures live == if closed then old(live) else old(live) + {sub}
    {
      sub := new Subscription(topic, |Log(topic)|);
      all := all + {sub};
      if closed {
        sub.CloseChannel();
        return;
      }
      FilesAdd(subs, live, sub);
      subs := subs[topic := (if topic in subs then subs[topic] else {}) + {sub}];
      live := live + {sub};
    }

    /** Closes sub if it is still registered. Channels are only closed here and
        in Close. */
    method RemoveLocked(sub: Subscription)
      requires Files(subs, live) && (sub in live ==> sub.open)
      modifies this`subs, this`live, sub`open
      ensures Files(subs, live) && live == old(live) - {sub}
      ensures sub.open == (old(sub.open) && sub !in old(live))
    {
      if sub.topic !in subs || sub !in subs[sub.topic] {
        return;
      }
      FilesRemove(subs, live, sub);
      var rest := subs[sub.topic] - {sub};
      if rest == {} {
        subs := subs - {sub.topic};
      } else {
        subs := subs[sub.topic := rest];
      }
      live := live - {sub};
      sub.CloseChannel();
    }

    /** `Subscription.Close`: safe to call more than once. */
    method Remove(sub: Subscription)
      requires sub in all && Valid()
      modifies this`subs, this`live, sub`open
      ensures Valid() && !sub.open && live == old(live) - {sub}
    {
      RemoveLocked(sub);
    }

    /** The select of the delivery loop. */
    method Offer(sub: Subscription, payload: Payload)
      requires Files(subs, live) && sub in live && sub.open && |sub.buffer| <= BUFFER
      modifies this`subs, this`live, sub
      ensures Files(subs, live) && Offered(sub, payload)
      ensures live == if sub.open then old(live) else old(live) - {sub}
    {
      if |sub.buffer| < BUFFER {
        sub.Send(payload);
      } else {
        RemoveLocked(sub);
      }
    }

    /** The delivery loop over one topic's set. */
    method OfferAll(targets: set<Subscription>, payload: Payload)
      requires Files(subs, live) && targets <= live
      requires forall s :: s in targets ==> s.open && |s.buffer| <= BUFFER
      modifies this`subs, this`live, targets
      ensures Files(subs, live) && old(live) - targets <= live <= old(live)
      ensures forall s :: s in targets ==> Offered(s, payload) && (s.open <==> s in live)
    {
      var pending := targets;
      while pending != {}
        invariant pending <= targets
        invariant Files(subs, live) && old(live) - targets <= live <= old(live)
        invariant forall s :: s in targets ==>
          if s in pending then unchanged(s) && s in live else Offered(s, payload) && (s.open <==> s in live)
      {
        var sub :| sub in pending;
        pending := pending - {sub};
        Offer(sub, payload);
      }
    }

    /** A subscriber is dropped exactly when its buffer is full, and no other
        subscriber notices. */
    method Deliver(topic: Topic, payload: Payload)
      requires Valid()
      modifies this`subs, this`live, this`log, all
      ensures Valid() && log == old(log)[topic := old(Log(topic)) + [payload]]
      ensures forall s :: s in all && s.topic == topic && s in old(live) ==> Offered(s, payload)
      ensures forall s :: s in all && !(s.topic == topic && s in old(live)) ==> unchanged(s)
    {
      ghost var before := Log(topic);
      var targets := if topic in subs then subs[topic] else {};
      OfferAll(targets, payload);
      log := log[topic := before + [payload]];
      SliceAppend(before, payload);
      forall s | s in all ensures Consistent(s, Log(s.topic), s in live) {
        assert old(Consistent(s, Log(s.topic), s in live));
      }
    }

    method CloseAll(ending: set<Subscription>)
      requires forall s :: s in ending ==> s.open
      modifies ending`open
      ensures forall s :: s in ending ==> !s.open
    {
      var rest := ending;
      while rest != {}
        invariant rest <= ending
        invariant forall s :: s in ending ==> (s.open <==> s in rest)
      {
        var sub :| sub in rest;
        sub.CloseChannel();
        rest := rest - {sub};
      }
    }

    /** Ends every subscription; nothing already sent is lost. */
    method Close()
      requires Valid()
      modifies this`subs, this`live, this`closed, all`open
      ensures Valid() && closed
      ensures forall s :: s in all ==> !s.open
    {
      if closed {
        return;
      }
      closed := true;
      var ending := Everyone(subs);
      FilesEveryone(subs, live);
      subs, live := map[], {};
      CloseAll(ending);
      forall s | s in all ensures Consistent(s, Log(s.topic), false) {
        assert old(Consistent(s, Log(s.topic), s in live));
      }
    }

    method Receive(sub: Subscription) returns (r: Option<Payload>)
      requires sub in all && Valid()
      requires sub.buffer != [] || !sub.open
      modifies sub`buffer, sub`consumed
      ensures Valid() && sub.Seen() == old(sub.Seen())
      ensures r.Some? ==> sub.consumed == old(sub.consumed) + [r.value] && sub.consumed <= Log(sub.topic)[sub.start..]
      ensures r.None? <==> old(sub.buffer) == []
    {
      r := sub.Receive();
    }
  }
}

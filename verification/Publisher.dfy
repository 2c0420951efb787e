/** The event publisher as an object: a map of subscriptions, each with a bounded buffer. */
module Publisher {
  import opened Contracts
  import opened Channels
  import opened Pipeline

  const DEFAULT_BUFFER: nat := 32

  /** The loop shared by matchesLevel and matchesString. */
  method Matches(value: Text, values: seq<Text>) returns (ok: bool)
    ensures ok <==> Admits(values, value)
  {
    if |values| == 0 {
      return true;
    }
    for i := 0 to |values|
      invariant value !in values[..i]
    {
      if value == values[i] {
        return true;
      }
    }
    ok := false;
  }

  /** The publisher's own filter. */
  method MatchesFilter(event: Event, filter: EventFilter) returns (ok: bool)
    ensures ok <==> Selects(filter, event)
  {
    ok := Matches(event.level, filter.levels);
    if ok {
      ok := Matches(event.service, filter.services);
    }
    if ok {
      ok := Matches(event.eventType, filter.eventTypes);
    }
  }

  /** The hub after the subscriptions in `done`, and no others, have been offered the event. */
  function OfferedTo(bufferSize: nat, h: Hub, p: Publication, done: set<nat>): Hub {
    h.(subs := seq(|h.subs|, i requires 0 <= i < |h.subs| =>
                     if i in done then Offer(bufferSize, h.subs[i], p) else h.subs[i]))
  }

  class EventSubscription {
    const filter: EventFilter
    var events: Chan<Publication>
    var once: bool
    ghost var since: nat
    ghost var until: nat
    ghost var offered: seq<Publication>
    ghost var dropped: seq<Publication>

    ghost function View(): Subscription
      reads this
    {
      Subscription(filter, events, once, since, until, offered, dropped)
    }

    constructor (filter: EventFilter, ghost begun: nat)
      ensures View() == NewSubscription(filter, begun)
    {
      this.filter := filter;
      events := Open();
      once := false;
      since := begun;
      until := begun;
      offered := [];
      dropped := [];
    }

    /** The select of Publish's loop body. */
    method Send(bufferSize: nat, p: Publication)
      requires Selects(filter, p.event)
      modifies this
      ensures View() == Offer(bufferSize, old(View()), p)
    {
      offered := offered + [p];
      if |events.buffer| < bufferSize {
        events := events.Push(p);
      } else {
        dropped := dropped + [p];
      }
    }
  }

  class EventPublisher {
    const bufferSize: nat
    var subscriptions: set<EventSubscription>
    /** All subscriptions ever made, in creation order. */
    ghost var created: seq<EventSubscription>

    /** A subscription is in the map exactly while its Close has not run, and its channel is closed
        exactly when it is not. */
    ghost predicate Valid()
      reads this, created
    {
      && bufferSize > 0
      && (forall i, k :: 0 <= i < k < |created| ==> created[i] != created[k])
      && (forall s :: s in subscriptions ==> s in created)
      && (forall s :: s in created ==> (s in subscriptions <==> !s.once) && s.events.closed == s.once)
    }

    ghost function Live(): set<nat>
      reads this
    {
      set i | 0 <= i < |created| && created[i] in subscriptions
    }

    ghost function View(): Hub
      reads this, created
    {
      Hub(seq(|created|, i requires 0 <= i < |created| reads this, created => created[i].View()), Live(), [])
    }

    constructor (bufferSize: int)
      ensures Valid() && View() == Hub([], {}, []) && created == []
      ensures this.bufferSize == if bufferSize <= 0 then 32 else bufferSize
    {
      this.bufferSize := if bufferSize <= 0 then DEFAULT_BUFFER else bufferSize;
      subscriptions := {};
      created := [];
    }

    method Subscribe(filter: EventFilter, ghost begun: nat) returns (s: EventSubscription)
      requires Valid()
      modifies this
      ensures Valid() && fresh(s) && created == old(created) + [s]
      ensures View() == HubNext(old(View()), begun, HubLabel.Subscribe(filter))
    {
      s := new EventSubscription(filter, begun);
      subscriptions := subscriptions + {s};
      created := created + [s];
    }

    /** The map is ranged over in no particular order. */
    method Publish(p: Publication)
      requires Valid()
      modifies subscriptions
      ensures Valid()
      ensures View() == OfferedTo(bufferSize, old(View()), p, old(View()).live)
    {
      var rest := subscriptions;
      while rest != {}
        invariant rest <= subscriptions
        invariant Valid()
        invariant forall s :: s in created ==>
          s.View() == if s in subscriptions && s !in rest then Offer(bufferSize, old(s.View()), p) else old(s.View())
      {
        var s :| s in rest;
        rest := rest - {s};
        var ok := MatchesFilter(p.event, s.filter);
        if !ok {
          continue;
        }
        s.Send(bufferSize, p);
      }
    }

    /** eventSubscription.Close: only the first call leaves the map and closes the channel. */
    method Close(s: EventSubscription, ghost i: nat, ghost begun: nat)
      requires Valid() && i < |created| && created[i] == s
      modifies this, s
      ensures Valid() && created == old(created)
      ensures old(s.once) ==> View() == old(View())
      ensures !old(s.once) ==>
        View() == HubNext(HubNext(old(View()), begun, Unsubscribe(i)), begun, UnsubscribeClose)
    {
      if s.once {
        return;
      }
      s.once := true;
      s.until := begun;
      subscriptions := subscriptions - {s};
      s.events := s.events.Shut();
      assert Live() == old(Live()) - {i};
    }

    /** A receive on a subscription's channel takes the oldest buffered event. */
    method Receive(s: EventSubscription, ghost i: nat) returns (p: Publication)
      requires Valid() && i < |created| && created[i] == s && s.events.buffer != []
      modifies s
      ensures Valid() && p == old(s.events.buffer[0]) && s.events == old(s.events).Pop()
      ensures forall begun: nat :: View() == HubNext(old(View()), begun, HubLabel.Receive(i))
    {
      p := s.events.buffer[0];
      s.events := s.events.Pop();
    }
  }
}

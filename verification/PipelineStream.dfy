/** What a monitor sees, compared with what a query of the store returns. */
module PipelineStream {
  import opened Contracts
  import opened Channels
  import opened Pipeline
  import opened PipelineRecords
  import opened PipelineSubs
  import opened PipelineTheorems

  /** The events of a log. */
  function Events(ps: seq<Publication>): seq<Event> {
    seq(|ps|, k requires 0 <= k < |ps| => ps[k].event)
  }

  // ---------------------------------------------------------------- subscriber accounting

  /** A buffer never exceeds its size; what was received or is buffered is a subsequence of the matching
      publications in the order Publish brought them; and received, buffered, dropped and still on the way
      together are the matching publications begun while it was registered. */
  lemma SubscriberAccounting(c: Config, s: State, i: nat)
    requires Reachable(c, s) && i < |s.hub.subs|
    ensures var sub := s.hub.subs[i];
      && |sub.events.buffer| <= c.bufferSize
      && Subsequence(sub.events.Sent(), sub.offered)
      && sub.since <= sub.until <= |s.published|
      && multiset(sub.events.received) + multiset(sub.events.buffer) + multiset(sub.dropped)
         + Fold(s.workers, PendingPart(i, sub.filter))
         == multiset(Matching(sub.filter, Window(sub, s.published)))
  {
    ReachableInv(c, s);
    var sub := s.hub.subs[i];
    assert SubFits(c.bufferSize, sub, |s.published|) && CountInv(i, sub, s.workers, s.published);
  }

  lemma MonitorDropsNothing(h: Hub, unread: bool, begun: nat, l: HubLabel, i: nat)
    requires HubEnabled(h, unread, l) && i < |h.subs|
    ensures i < |HubNext(h, begun, l).subs| && HubNext(h, begun, l).subs[i].dropped == h.subs[i].dropped
  {}

  /** A subscription loses an event only in an iteration of Publish that finds its buffer full. */
  lemma DropOnlyWhenFull(c: Config, s: State, l: Label, i: nat)
    requires Reachable(c, s) && Enabled(c, s, l) && i < |s.hub.subs| <= |Apply(c, s, l).hub.subs|
    requires Apply(c, s, l).hub.subs[i].dropped != s.hub.subs[i].dropped
    ensures l.Work? && l.a == PublishTo(i) && |s.hub.subs[i].events.buffer| == c.bufferSize
    ensures Apply(c, s, l).hub.subs[i].events == s.hub.subs[i].events
  {
    ReachableInv(c, s);
    NoPanicStep(c, s, l);
    match l
    case Work(w, a) =>
      assert Apply(c, s, l).hub == WorkHub(c.bufferSize, s.hub, s.workers[w], a);
      assert SubFits(c.bufferSize, s.hub.subs[i], |s.published|);
    case Monitor(h) => MonitorDropsNothing(s.hub, NoReader(s.workers), |s.published|, h, i);
    case _ =>
  }

  // ---------------------------------------------------------------- logs as multisets

  lemma {:induction false} MatchingCount(filter: EventFilter, ps: seq<Publication>, p: Publication)
    ensures multiset(Matching(filter, ps))[p] == if Selects(filter, p.event) then multiset(ps)[p] else 0
  {
    if ps != [] {
      var n := |ps| - 1;
      assert ps == ps[..n] + [ps[n]];
      MatchingCount(filter, ps[..n], p);
    }
  }

  lemma MatchingMultiset(filter: EventFilter, a: seq<Publication>, b: seq<Publication>)
    requires multiset(a) == multiset(b)
    ensures multiset(Matching(filter, a)) == multiset(Matching(filter, b))
  {
    forall p
      ensures multiset(Matching(filter, a))[p] == multiset(Matching(filter, b))[p]
    {
      MatchingCount(filter, a, p);
      MatchingCount(filter, b, p);
    }
  }

  lemma EventsRemove(ps: seq<Publication>, k: nat)
    requires k < |ps|
    ensures multiset(Events(ps)) == multiset(Events(ps[..k] + ps[k + 1..])) + multiset{ps[k].event}
  {
    RemoveAt(Events(ps), k);
    assert Events(ps[..k] + ps[k + 1..]) == Events(ps)[..k] + Events(ps)[k + 1..];
  }

  lemma RemoveAt<T>(xs: seq<T>, k: nat)
    requires k < |xs|
    ensures multiset(xs) == multiset(xs[..k] + xs[k + 1..]) + multiset{xs[k]}
    ensures multiset(xs[..k] + xs[k + 1..]) == multiset(xs) - multiset{xs[k]}
  {
    assert xs == xs[..k] + [xs[k]] + xs[k + 1..];
  }

  lemma RemoveBoth<T>(xs: seq<T>, i: nat, ys: seq<T>, k: nat)
    requires i < |xs| && k < |ys| && xs[i] == ys[k] && multiset(xs) == multiset(ys)
    ensures multiset(xs[..i] + xs[i + 1..]) == multiset(ys[..k] + ys[k + 1..])
  {
    RemoveAt(xs, i);
    RemoveAt(ys, k);
  }

  lemma Find<T>(xs: seq<T>, x: T) returns (k: nat)
    requires x in multiset(xs)
    ensures k < |xs| && xs[k] == x
  {
    k :| 0 <= k < |xs| && xs[k] == x;
  }

  lemma {:induction false} EventsMultiset(a: seq<Publication>, b: seq<Publication>)
    requires multiset(a) == multiset(b)
    ensures multiset(Events(a)) == multiset(Events(b))
  {
    if a == [] {
      assert |multiset(b)| == 0;
    } else {
      var k := Find(b, a[0]);
      RemoveBoth(a, 0, b, k);
      EventsMultiset(a[..0] + a[1..], b[..k] + b[k + 1..]);
      EventsPutBack(a, 0, b, k);
    }
  }

  lemma EventsPutBack(a: seq<Publication>, i: nat, b: seq<Publication>, k: nat)
    requires i < |a| && k < |b| && a[i] == b[k]
    requires multiset(Events(a[..i] + a[i + 1..])) == multiset(Events(b[..k] + b[k + 1..]))
    ensures multiset(Events(a)) == multiset(Events(b))
  {
    EventsRemove(a, i);
    EventsRemove(b, k);
  }

  /** Selecting and forgetting job numbers commute. */
  lemma {:induction false} EventsMatching(filter: EventFilter, ps: seq<Publication>)
    ensures Events(Matching(filter, ps)) == Select(filter, Events(ps))
  {
    if ps != [] {
      var n := |ps| - 1;
      var init := Matching(filter, ps[..n]);
      EventsMatching(filter, ps[..n]);
      SelectStep(filter, Events(ps[..n]), ps[n].event);
      assert Events(ps) == Events(ps[..n]) + [ps[n].event];
      assert Events(init + [ps[n]]) == Events(init) + [ps[n].event];
      assert init + [] == init;
    }
  }

  // ---------------------------------------------------------------- live stream and query

  /** No worker stands between a successful Store and its delivery to subscription `i`. */
  predicate Settled(s: State, i: nat) {
    forall w :: 0 <= w < |s.workers| ==>
      !s.workers[w].Persisted? && (s.workers[w].Publishing? ==> i !in s.workers[w].pending)
  }

  /** Before the first accepted job nothing has been published, so a subscription opened then has
      `since == 0`. */
  lemma EarlySubscription(c: Config, s: State, filter: EventFilter)
    requires Reachable(c, s) && s.jobs == [] && Enabled(c, s, Monitor(Subscribe(filter)))
    ensures var t := Apply(c, s, Monitor(Subscribe(filter)));
      t.hub.subs[|s.hub.subs|].since == 0 && |s.hub.subs| in t.hub.live
  {
    ReachableInv(c, s);
    if s.published != [] {
      PublishedAreStored(s, s.published[0]);
    }
  }

  lemma NothingPending(s: State, i: nat, filter: EventFilter)
    requires Settled(s, i)
    ensures Fold(s.workers, PersistedPart) == multiset{}
    ensures Fold(s.workers, PendingPart(i, filter)) == multiset{}
  {
    FoldEmpty(s.workers, PersistedPart);
    FoldEmpty(s.workers, PendingPart(i, filter));
  }

  lemma LosslessSent(c: Config, s: State, i: nat)
    requires Reachable(c, s) && i < |s.hub.subs| && Settled(s, i)
    requires s.hub.subs[i].since == 0 && i in s.hub.live && s.hub.subs[i].dropped == []
    ensures var sub := s.hub.subs[i];
      multiset(sub.events.Sent()) == multiset(Matching(sub.filter, s.published))
    ensures multiset(s.published) == multiset(s.stored)
  {
    ReachableInv(c, s);
    SubscriberAccounting(c, s, i);
    var sub := s.hub.subs[i];
    assert SubFits(c.bufferSize, sub, |s.published|);
    NothingPending(s, i, sub.filter);
    assert Window(sub, s.published) == s.published;
  }

  /** A subscription that saw every publication and dropped none has, received or buffered, exactly
      the events the store's query returns for its filter. */
  lemma LiveStreamIsQuery(c: Config, s: State, i: nat)
    requires Reachable(c, s) && i < |s.hub.subs| && Settled(s, i)
    requires s.hub.subs[i].since == 0 && i in s.hub.live && s.hub.subs[i].dropped == []
    ensures multiset(Events(s.hub.subs[i].events.Sent()))
         == multiset(Select(s.hub.subs[i].filter, Events(s.stored)))
  {
    LosslessSent(c, s, i);
    var sub := s.hub.subs[i];
    MatchingMultiset(sub.filter, s.published, s.stored);
    EventsMultiset(sub.events.Sent(), Matching(sub.filter, s.stored));
    EventsMatching(sub.filter, s.stored);
  }
}

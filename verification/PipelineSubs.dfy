/** The publisher's subscriptions: what each one was offered, buffered, lost and received. */
module PipelineSubs {
  import opened Contracts
  import opened Channels
  import opened Pipeline
  import opened PipelineRecords

  /** The publications a filter selects, in order. */
  function Matching(filter: EventFilter, ps: seq<Publication>): seq<Publication> {
    if ps == [] then []
    else
      Matching(filter, ps[..|ps| - 1])
      + (if Selects(filter, ps[|ps| - 1].event) then [ps[|ps| - 1]] else [])
  }

  lemma MatchingStep(filter: EventFilter, ps: seq<Publication>, p: Publication)
    ensures Matching(filter, ps + [p]) == Matching(filter, ps) + (if Selects(filter, p.event) then [p] else [])
  {
    assert (ps + [p])[..|ps|] == ps;
  }

  /** The publications begun while a subscription was in the publisher's map. */
  function Window(sub: Subscription, published: seq<Publication>): seq<Publication>
    requires sub.since <= sub.until <= |published|
  {
    if sub.onceUsed then published[sub.since..sub.until] else published[sub.since..]
  }

  function PendingOf(w: Worker, i: nat, filter: EventFilter): multiset<Publication> {
    if w.Publishing? && i in w.pending && Selects(filter, w.event) then multiset{Publication(w.job, w.event)}
    else multiset{}
  }

  /** The publication a worker still has to bring to subscription `i`. */
  function PendingPart(i: nat, filter: EventFilter): Worker -> multiset<Publication> {
    w => PendingOf(w, i, filter)
  }

  ghost predicate SubFits(bufferSize: nat, sub: Subscription, begun: nat) {
    && sub.since <= sub.until <= begun
    && |sub.events.buffer| <= bufferSize
    && Subsequence(sub.events.Sent(), sub.offered)
    && multiset(sub.events.Sent()) + multiset(sub.dropped) == multiset(sub.offered)
  }

  /** A subscription's channel is closed once it has left the map and its Close has finished. */
  ghost predicate HubShape(h: Hub) {
    && (forall i :: i in h.live ==> i < |h.subs|)
    && |h.closing| <= 1
    && (h.closing != [] ==> h.closing[0] < |h.subs| && h.subs[h.closing[0]].onceUsed)
    && (forall i :: 0 <= i < |h.subs| ==>
          && (i in h.live <==> !h.subs[i].onceUsed)
          && (h.subs[i].events.closed <==> h.subs[i].onceUsed && h.closing != [i]))
  }

  ghost predicate ReadersInv(h: Hub, ws: seq<Worker>) {
    forall w :: 0 <= w < |ws| && ws[w].Publishing? ==> h.closing == [] && ws[w].pending <= h.live
  }

  ghost predicate CountInv(i: nat, sub: Subscription, ws: seq<Worker>, published: seq<Publication>)
    requires sub.since <= sub.until <= |published|
  {
    multiset(sub.offered) + Fold(ws, PendingPart(i, sub.filter))
    == multiset(Matching(sub.filter, Window(sub, published)))
  }

  ghost predicate HubInv(c: Config, s: State) {
    && HubShape(s.hub)
    && ReadersInv(s.hub, s.workers)
    && (forall i :: 0 <= i < |s.hub.subs| ==> SubFits(c.bufferSize, s.hub.subs[i], |s.published|))
    && (forall i :: 0 <= i < |s.hub.subs| ==> CountInv(i, s.hub.subs[i], s.workers, s.published))
  }

  // ---------------------------------------------------------------- one subscription

  lemma OfferFits(bufferSize: nat, sub: Subscription, p: Publication, begun: nat)
    requires SubFits(bufferSize, sub, begun)
    ensures SubFits(bufferSize, Offer(bufferSize, sub, p), begun)
  {
    if Selects(sub.filter, p.event) {
      var sub' := Offer(bufferSize, sub, p);
      assert multiset(sub'.offered) == multiset(sub.offered) + multiset{p};
      if |sub.events.buffer| < bufferSize {
        assert sub'.events.Sent() == sub.events.Sent() + [p];
        SubsequenceKeep(sub.events.Sent(), sub.offered, p);
      } else {
        SubsequenceSkip(sub.events.Sent(), sub.offered, p);
      }
    }
  }

  lemma PopFits(bufferSize: nat, sub: Subscription, begun: nat)
    requires SubFits(bufferSize, sub, begun) && sub.events.buffer != []
    ensures SubFits(bufferSize, sub.(events := sub.events.Pop()), begun)
  {
    assert sub.events.Pop().Sent() == sub.events.Sent();
  }

  // ---------------------------------------------------------------- worker steps

  lemma ShapeWork(bufferSize: nat, h: Hub, w: Worker, a: Action)
    requires HubShape(h) && AtAction(w, a) && (a.PublishTo? ==> a.sub < |h.subs|)
    ensures HubShape(WorkHub(bufferSize, h, w, a))
  {}

  lemma ReadersWork(h: Hub, ws: seq<Worker>, w: nat, a: Action, next: nat)
    requires ReadersInv(h, ws) && w < |ws| && AtAction(ws[w], a) && (a.PublishBegin? ==> h.closing == [])
    ensures ReadersInv(h, ws[w := Advance(ws[w], a, next, h.live)])
  {}

  /** What a step adds to the publications offered to subscription `i`. */
  function OfferDelta(w: Worker, a: Action, i: nat, filter: EventFilter): seq<Publication>
    requires AtAction(w, a)
  {
    if a.PublishTo? && a.sub == i && Selects(filter, w.event) then [Publication(w.job, w.event)] else []
  }

  /** What a step adds to the publications subscription `i` is entitled to. */
  function WindowDelta(w: Worker, a: Action, i: nat, sub: Subscription): seq<Publication>
    requires AtAction(w, a)
  {
    if a.PublishBegin? && !sub.onceUsed && Selects(sub.filter, w.event) then [Publication(w.job, w.event)] else []
  }

  lemma PendingAdvance(w: Worker, a: Action, next: nat, i: nat, h: Hub)
    requires AtAction(w, a) && i < |h.subs| && HubShape(h)
    ensures PendingOf(Advance(w, a, next, h.live), i, h.subs[i].filter)
            + multiset(OfferDelta(w, a, i, h.subs[i].filter))
         == PendingOf(w, i, h.subs[i].filter) + multiset(WindowDelta(w, a, i, h.subs[i]))
  {}

  lemma WindowWork(sub: Subscription, published: seq<Publication>, w: Worker, a: Action, i: nat)
    requires AtAction(w, a) && sub.since <= sub.until <= |published|
    ensures Matching(sub.filter, Window(sub, published + PublishDelta(w, a)))
         == Matching(sub.filter, Window(sub, published)) + WindowDelta(w, a, i, sub)
  {
    var delta := PublishDelta(w, a);
    if sub.onceUsed {
      assert (published + delta)[sub.since..sub.until] == published[sub.since..sub.until];
    } else if delta == [] {
      assert published + delta == published;
    } else {
      assert (published + delta)[sub.since..] == published[sub.since..] + [delta[0]];
      MatchingStep(sub.filter, published[sub.since..], delta[0]);
    }
  }

  /** A step changes nothing of a subscription but its buffer and what was offered and dropped. */
  lemma WorkOffer(bufferSize: nat, h: Hub, w: Worker, a: Action, i: nat)
    requires AtAction(w, a) && i < |h.subs| && (a.PublishTo? ==> a.sub < |h.subs|)
    ensures var sub, sub' := h.subs[i], WorkHub(bufferSize, h, w, a).subs[i];
      && sub'.offered == sub.offered + OfferDelta(w, a, i, sub.filter)
      && sub' == sub.(events := sub'.events, offered := sub'.offered, dropped := sub'.dropped)
  {
    assert h.subs[i].offered + [] == h.subs[i].offered;
  }

  lemma FitsWork(bufferSize: nat, h: Hub, w: Worker, a: Action, begun: nat, begun': nat, i: nat)
    requires AtAction(w, a) && i < |h.subs| && (a.PublishTo? ==> a.sub < |h.subs|)
    requires SubFits(bufferSize, h.subs[i], begun) && begun <= begun'
    ensures SubFits(bufferSize, WorkHub(bufferSize, h, w, a).subs[i], begun')
  {
    if a.PublishTo? && a.sub == i {
      OfferFits(bufferSize, h.subs[i], Publication(w.job, w.event), begun);
    }
  }

  lemma CountWork(bufferSize: nat, h: Hub, ws: seq<Worker>, published: seq<Publication>,
                  w: nat, a: Action, next: nat, i: nat)
    requires HubShape(h) && w < |ws| && AtAction(ws[w], a) && (a.PublishTo? ==> a.sub < |h.subs|)
    requires i < |h.subs| && SubFits(bufferSize, h.subs[i], |published|)
    requires CountInv(i, h.subs[i], ws, published)
    ensures
      var sub' := WorkHub(bufferSize, h, ws[w], a).subs[i];
      var published' := published + PublishDelta(ws[w], a);
      SubFits(bufferSize, sub', |published'|)
      && CountInv(i, sub', ws[w := Advance(ws[w], a, next, h.live)], published')
  {
    var worker, worker' := ws[w], Advance(ws[w], a, next, h.live);
    var sub := h.subs[i];
    var part := PendingPart(i, sub.filter);
    FitsWork(bufferSize, h, worker, a, |published|, |published + PublishDelta(worker, a)|, i);
    WorkOffer(bufferSize, h, worker, a, i);
    FoldUpdate(ws, part, w, worker');
    PendingAdvance(worker, a, next, i, h);
    WindowWork(sub, published, worker, a, i);
    var p, q := OfferDelta(worker, a, i, sub.filter), WindowDelta(worker, a, i, sub);
    Balance(multiset(sub.offered), Fold(ws, part), Fold(ws[w := worker'], part),
            multiset(Matching(sub.filter, Window(sub, published))), part(worker), part(worker'),
            multiset(p), multiset(q));
  }

  lemma HubWork(c: Config, s: State, w: nat, a: Action)
    requires HubInv(c, s) && WorkEnabled(s, w, a)
    ensures HubInv(c, WorkStep(c, s, w, a))
  {
    var t := WorkStep(c, s, w, a);
    var next := if a.Dequeue? then s.queue[0] else 0;
    ShapeWork(c.bufferSize, s.hub, s.workers[w], a);
    ReadersWork(s.hub, s.workers, w, a, next);
    forall i | 0 <= i < |t.hub.subs|
      ensures SubFits(c.bufferSize, t.hub.subs[i], |t.published|)
      ensures CountInv(i, t.hub.subs[i], t.workers, t.published)
    {
      CountWork(c.bufferSize, s.hub, s.workers, s.published, w, a, next, i);
    }
  }

  // ---------------------------------------------------------------- monitor steps

  lemma FitsMonitor(bufferSize: nat, h: Hub, unread: bool, begun: nat, l: HubLabel, i: nat)
    requires HubEnabled(h, unread, l) && i < |HubNext(h, begun, l).subs|
    requires i < |h.subs| ==> SubFits(bufferSize, h.subs[i], begun)
    ensures SubFits(bufferSize, HubNext(h, begun, l).subs[i], begun)
  {
    if l.Receive? && l.sub == i {
      PopFits(bufferSize, h.subs[i], begun);
    }
  }

  /** Nobody is publishing when a subscription joins or leaves, so it is offered nothing early or late. */
  lemma CountMonitor(h: Hub, ws: seq<Worker>, published: seq<Publication>, l: HubLabel, i: nat)
    requires HubEnabled(h, NoReader(ws), l) && i < |HubNext(h, |published|, l).subs|
    requires i < |h.subs| ==>
      h.subs[i].since <= h.subs[i].until <= |published| && CountInv(i, h.subs[i], ws, published)
    ensures
      var sub := HubNext(h, |published|, l).subs[i];
      sub.since <= sub.until <= |published| && CountInv(i, sub, ws, published)
  {
    if i == |h.subs| {
      FoldEmpty(ws, PendingPart(i, l.filter));
      assert Window(NewSubscription(l.filter, |published|), published) == [];
    } else if l.Unsubscribe? && l.sub == i {
      assert published[h.subs[i].since..|published|] == published[h.subs[i].since..];
    }
  }

  lemma ShapeMonitor(h: Hub, ws: seq<Worker>, begun: nat, l: HubLabel)
    requires HubShape(h) && ReadersInv(h, ws) && HubEnabled(h, NoReader(ws), l)
    ensures HubShape(HubNext(h, begun, l)) && ReadersInv(HubNext(h, begun, l), ws)
    ensures l.UnsubscribeClose? ==> !h.subs[h.closing[0]].events.closed
  {}

  lemma HubMonitor(c: Config, s: State, l: HubLabel)
    requires HubInv(c, s) && HubEnabled(s.hub, NoReader(s.workers), l)
    ensures HubInv(c, s.(hub := HubNext(s.hub, |s.published|, l)))
  {
    var h := HubNext(s.hub, |s.published|, l);
    ShapeMonitor(s.hub, s.workers, |s.published|, l);
    forall i | 0 <= i < |h.subs|
      ensures SubFits(c.bufferSize, h.subs[i], |s.published|)
      ensures CountInv(i, h.subs[i], s.workers, s.published)
    {
      FitsMonitor(c.bufferSize, s.hub, NoReader(s.workers), |s.published|, l, i);
      CountMonitor(s.hub, s.workers, s.published, l, i);
    }
  }
}

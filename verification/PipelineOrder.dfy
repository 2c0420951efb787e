/** With one worker, everything happens in submission order. */
module PipelineOrder {
  import opened Contracts
  import opened Channels
  import opened Pipeline
  import opened PipelineSubs
  import opened PipelineTheorems
  import opened PipelineStream

  /** The worker holds a job whose result it has not sent. */
  predicate Owes(w: Worker) {
    Busy(w) && !w.Releasing?
  }

  predicate BeforeStore(w: Worker) {
    w.Processing? || w.Storing?
  }

  ghost predicate RepliesInOrder(w: Worker, head: int, replies: seq<nat>) {
    && (forall k :: 0 <= k < |replies| ==> replies[k] == k)
    && head == |replies| + (if Owes(w) then 1 else 0)
    && (Owes(w) ==> w.job == |replies|)
  }

  ghost predicate Increasing(ps: seq<Publication>) {
    forall i, k :: 0 <= i < k < |ps| ==> ps[i].job < ps[k].job
  }

  ghost predicate StoredInOrder(w: Worker, stored: seq<Publication>, replies: seq<nat>) {
    && Increasing(stored)
    && (forall k :: 0 <= k < |stored| ==>
          stored[k].job < |replies| + (if Owes(w) && !BeforeStore(w) then 1 else 0))
  }

  /** The stored event whose publication has not begun. */
  function PersistedSeq(w: Worker): seq<Publication> {
    if w.Persisted? then [Publication(w.job, w.event)] else []
  }

  /** The publication still on its way to subscription `i`. */
  function PendingSeq(w: Worker, i: nat, filter: EventFilter): seq<Publication> {
    if w.Publishing? && i in w.pending && Selects(filter, w.event) then [Publication(w.job, w.event)] else []
  }

  ghost predicate OfferedInOrder(w: Worker, i: nat, sub: Subscription, published: seq<Publication>) {
    && sub.since <= sub.until <= |published|
    && sub.offered + PendingSeq(w, i, sub.filter) == Matching(sub.filter, Window(sub, published))
  }

  ghost predicate LogsInOrder(w: Worker, head: int, replies: seq<nat>, stored: seq<Publication>,
                              published: seq<Publication>) {
    && RepliesInOrder(w, head, replies)
    && StoredInOrder(w, stored, replies)
    && published + PersistedSeq(w) == stored
  }

  ghost predicate OffersInOrder(w: Worker, subs: seq<Subscription>, published: seq<Publication>) {
    forall i :: 0 <= i < |subs| ==> OfferedInOrder(w, i, subs[i], published)
  }

  ghost predicate OrderInv(s: State) {
    && |s.workers| == 1
    && LogsInOrder(s.workers[0], |s.jobs| - |s.queue|, s.replies, s.stored, s.published)
    && OffersInOrder(s.workers[0], s.hub.subs, s.published)
  }

  lemma LogsWork(w: Worker, a: Action, next: nat, live: set<nat>, head: nat, replies: seq<nat>,
                 stored: seq<Publication>, published: seq<Publication>)
    requires AtAction(w, a) && LogsInOrder(w, head, replies, stored, published) && (a.Dequeue? ==> next == head)
    ensures LogsInOrder(Advance(w, a, next, live), if a.Dequeue? then head + 1 else head,
                        if a.Reply? then replies + [w.job] else replies,
                        stored + StoreDelta(w, a), published + PublishDelta(w, a))
  {}

  lemma PendingSeqAdvance(w: Worker, a: Action, next: nat, i: nat, h: Hub)
    requires AtAction(w, a) && i < |h.subs| && HubShape(h)
    ensures OfferDelta(w, a, i, h.subs[i].filter) + PendingSeq(Advance(w, a, next, h.live), i, h.subs[i].filter)
         == PendingSeq(w, i, h.subs[i].filter) + WindowDelta(w, a, i, h.subs[i])
  {}

  lemma Regroup<T>(before: seq<T>, pending: seq<T>, all: seq<T>, delta: seq<T>, pending': seq<T>, more: seq<T>)
    requires before + pending == all && delta + pending' == pending + more
    ensures (before + delta) + pending' == all + more
  {
    assert (before + delta) + pending' == before + (delta + pending');
    assert before + (pending + more) == (before + pending) + more;
  }

  lemma OfferedWork(bufferSize: nat, h: Hub, w: Worker, published: seq<Publication>, a: Action, next: nat, i: nat)
    requires HubShape(h) && AtAction(w, a) && i < |h.subs| && (a.PublishTo? ==> a.sub < |h.subs|)
    requires OfferedInOrder(w, i, h.subs[i], published)
    ensures OfferedInOrder(Advance(w, a, next, h.live), i, WorkHub(bufferSize, h, w, a).subs[i],
                           published + PublishDelta(w, a))
  {
    var sub := h.subs[i];
    WindowWork(sub, published, w, a, i);
    PendingSeqAdvance(w, a, next, i, h);
    var offered, pending := OfferDelta(w, a, i, sub.filter), PendingSeq(Advance(w, a, next, h.live), i, sub.filter);
    Regroup(sub.offered, PendingSeq(w, i, sub.filter), Matching(sub.filter, Window(sub, published)),
            offered, pending, WindowDelta(w, a, i, sub));
    WorkOffer(bufferSize, h, w, a, i);
  }

  lemma OrderWork(c: Config, s: State, a: Action)
    requires Inv(c, s) && OrderInv(s) && WorkEnabled(s, 0, a)
    ensures OrderInv(WorkStep(c, s, 0, a))
  {
    var t := WorkStep(c, s, 0, a);
    var next := if a.Dequeue? then s.queue[0] else 0;
    LogsWork(s.workers[0], a, next, s.hub.live, |s.jobs| - |s.queue|, s.replies, s.stored, s.published);
    forall i | 0 <= i < |t.hub.subs|
      ensures OfferedInOrder(t.workers[0], i, t.hub.subs[i], t.published)
    {
      OfferedWork(c.bufferSize, s.hub, s.workers[0], s.published, a, next, i);
    }
  }

  lemma OfferedMonitor(h: Hub, w: Worker, published: seq<Publication>, l: HubLabel, i: nat)
    requires HubEnabled(h, !w.Publishing?, l) && i < |HubNext(h, |published|, l).subs|
    requires i < |h.subs| ==> OfferedInOrder(w, i, h.subs[i], published)
    ensures OfferedInOrder(w, i, HubNext(h, |published|, l).subs[i], published)
  {
    if i == |h.subs| {
      assert Window(NewSubscription(l.filter, |published|), published) == [];
    } else if l.Unsubscribe? && l.sub == i {
      assert published[h.subs[i].since..|published|] == published[h.subs[i].since..];
    }
  }

  lemma OffersMonitor(h: Hub, ws: seq<Worker>, published: seq<Publication>, l: HubLabel)
    requires |ws| == 1 && HubEnabled(h, NoReader(ws), l) && OffersInOrder(ws[0], h.subs, published)
    ensures OffersInOrder(ws[0], HubNext(h, |published|, l).subs, published)
  {
    forall i | 0 <= i < |HubNext(h, |published|, l).subs|
      ensures OfferedInOrder(ws[0], i, HubNext(h, |published|, l).subs[i], published)
    {
      OfferedMonitor(h, ws[0], published, l, i);
    }
  }

  lemma OrderStep(c: Config, s: State, l: Label)
    requires Inv(c, s) && OrderInv(s) && Enabled(c, s, l)
    ensures OrderInv(Apply(c, s, l))
  {
    NoPanicStep(c, s, l);
    match l
    case Work(w, a) => OrderWork(c, s, a);
    case Monitor(h) => OffersMonitor(s.hub, s.workers, s.published, h);
    case _ =>
  }

  lemma InitOrder(c: Config)
    requires c.workerCount == 1
    ensures Inv(c, Init(c)) && OrderInv(Init(c))
  {
    InitInv(c);
  }

  lemma {:induction false} OrderRun(c: Config, ls: seq<Label>, t: State)
    requires c.workerCount == 1 && Run(c, Init(c), ls) == Some(t)
    ensures Inv(c, t) && OrderInv(t)
  {
    if ls == [] {
      InitOrder(c);
    } else {
      var u := Run(c, Init(c), ls[..|ls| - 1]).value;
      OrderRun(c, ls[..|ls| - 1], u);
      StepInv(c, u, ls[|ls| - 1]);
      OrderStep(c, u, ls[|ls| - 1]);
    }
  }

  lemma ReachableOrder(c: Config, s: State)
    requires c.workerCount == 1 && Reachable(c, s)
    ensures Inv(c, s) && OrderInv(s)
  {
    var ls :| Run(c, Init(c), ls) == Some(s);
    OrderRun(c, ls, s);
  }

  /** One worker processes and answers jobs 0, 1, 2, ... in turn, stores in submission order, and begins to publish in
      store order with at most one event stored and not yet begun. */
  lemma SingleWorkerOrder(c: Config, s: State)
    requires Reachable(c, s) && c.workerCount == 1
    ensures forall k :: 0 <= k < |s.replies| ==> s.replies[k] == k
    ensures |s.workers| == 1 && (Owes(s.workers[0]) ==> s.workers[0].job == |s.replies|)
    ensures Increasing(s.stored)
    ensures s.published <= s.stored && |s.stored| <= |s.published| + 1
  {
    ReachableOrder(c, s);
  }

  lemma {:induction false} SubsequenceShorter<T>(sub: seq<T>, all: seq<T>)
    requires Subsequence(sub, all)
    ensures |sub| <= |all|
    ensures |sub| == |all| ==> sub == all
  {
    if sub != [] {
      var n := |all| - 1;
      if Subsequence(sub, all[..n]) {
        SubsequenceShorter(sub, all[..n]);
      } else {
        SubsequenceShorter(sub[..|sub| - 1], all[..n]);
        assert sub == sub[..|sub| - 1] + [sub[|sub| - 1]] && all == all[..n] + [all[n]];
      }
    }
  }

  lemma NothingLost(bufferSize: nat, sub: Subscription, begun: nat)
    requires SubFits(bufferSize, sub, begun) && sub.dropped == []
    ensures sub.events.Sent() == sub.offered
  {
    assert |multiset(sub.events.Sent())| == |multiset(sub.offered)|;
    SubsequenceShorter(sub.events.Sent(), sub.offered);
  }

  lemma LosslessInOrder(c: Config, s: State, i: nat)
    requires Reachable(c, s) && c.workerCount == 1 && i < |s.hub.subs| && Settled(s, i)
    requires s.hub.subs[i].since == 0 && i in s.hub.live && s.hub.subs[i].dropped == []
    ensures s.hub.subs[i].events.Sent() == Matching(s.hub.subs[i].filter, s.stored)
  {
    ReachableOrder(c, s);
    var sub := s.hub.subs[i];
    assert SubFits(c.bufferSize, sub, |s.published|);
    NothingLost(c.bufferSize, sub, |s.published|);
    assert OfferedInOrder(s.workers[0], i, sub, s.published);
    assert Window(sub, s.published) == s.published == s.stored;
  }

  /** With one worker the live stream equals the query as a sequence. */
  lemma LiveStreamIsQueryInOrder(c: Config, s: State, i: nat)
    requires Reachable(c, s) && c.workerCount == 1 && i < |s.hub.subs| && Settled(s, i)
    requires s.hub.subs[i].since == 0 && i in s.hub.live && s.hub.subs[i].dropped == []
    ensures Events(s.hub.subs[i].events.Sent()) == Select(s.hub.subs[i].filter, Events(s.stored))
  {
    LosslessInOrder(c, s, i);
    EventsMatching(s.hub.subs[i].filter, s.stored);
  }
}

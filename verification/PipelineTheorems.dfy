/** Properties of every reachable state and of every step of the pipeline. */
module PipelineTheorems {
  import opened Channels
  import opened Pipeline
  import opened PipelineJobs
  import opened PipelineRecords
  import opened PipelineSubs

  /** A worker leaves its loop only after the channel is closed and empty. */
  predicate ExitInv(s: State) {
    forall w :: 0 <= w < |s.workers| && s.workers[w].Exited? ==> s.gate.jobsClosed && s.queue == []
  }

  ghost predicate Inv(c: Config, s: State) {
    !s.panicked && GateInv(s.gate) && JobsInv(c, s) && ExitInv(s) && RecordInv(s) && HubInv(c, s)
  }

  lemma InitInv(c: Config)
    ensures Inv(c, Init(c))
  {
    FoldEmpty(Init(c).workers, PersistedPart);
    assert forall w :: 0 <= w < c.workerCount ==> Init(c).workers[w].Idle?;
  }

  /** In a state that satisfies the invariant no enabled action touches a closed channel. */
  lemma NoPanicStep(c: Config, s: State, l: Label)
    requires Inv(c, s) && Enabled(c, s, l)
    ensures !Panics(c, s, l)
  {
    match l
    case Admit(g) => GateStep(s.gate, |s.queue| < c.queueSize, g);
    case Work(w, a) =>
      assert WorkerFits(s.workers[w], |s.jobs| - |s.queue|, s.jobs);
    case Monitor(h) => ShapeMonitor(s.hub, s.workers, |s.published|, h);
    case _ =>
  }

  lemma JobsWork(c: Config, s: State, w: nat, a: Action)
    requires JobsInv(c, s) && WorkEnabled(s, w, a)
    ensures JobsInv(c, WorkStep(c, s, w, a))
  {
    HoldWork(c, s, w, a);
    DoneWork(c, s, w, a);
  }

  lemma ExitWork(c: Config, s: State, w: nat, a: Action)
    requires ExitInv(s) && WorkEnabled(s, w, a)
    ensures ExitInv(WorkStep(c, s, w, a))
  {}

  lemma WorkInv(c: Config, s: State, w: nat, a: Action)
    requires Inv(c, s) && WorkEnabled(s, w, a)
    ensures Inv(c, WorkStep(c, s, w, a))
  {
    JobsWork(c, s, w, a);
    ExitWork(c, s, w, a);
    RecordWork(c, s, w, a);
    HubWork(c, s, w, a);
  }

  lemma AdmitInv(c: Config, s: State, g: GateLabel)
    requires Inv(c, s) && GateEnabled(s.gate, |s.queue| < c.queueSize, g)
    ensures Inv(c, AdmitStep(s, g))
  {
    GateStep(s.gate, |s.queue| < c.queueSize, g);
    if g.SubmitSend? {
      JobsSubmit(c, s);
      RecordSubmit(c, s);
    }
  }

  lemma TakeAckInv(c: Config, s: State, j: nat)
    requires Inv(c, s) && j < |s.jobs| && s.jobs[j].ack.buffer != []
    ensures Inv(c, s.(jobs := WithAck(s.jobs, j, s.jobs[j].ack.Pop())))
  {
    JobsTakeAck(c, s, j);
    RecordTakeAck(s, j);
  }

  /** The publisher's map has no part in the other invariants. */
  lemma HubApart(c: Config, s: State, h: Hub)
    requires JobsInv(c, s) && ExitInv(s) && RecordInv(s)
    ensures JobsInv(c, s.(hub := h)) && ExitInv(s.(hub := h)) && RecordInv(s.(hub := h))
  {}

  lemma MonitorInv(c: Config, s: State, l: HubLabel)
    requires Inv(c, s) && HubEnabled(s.hub, NoReader(s.workers), l)
    ensures Inv(c, s.(hub := HubNext(s.hub, |s.published|, l)))
  {
    HubMonitor(c, s, l);
    HubApart(c, s, HubNext(s.hub, |s.published|, l));
  }

  lemma StepInv(c: Config, s: State, l: Label)
    requires Inv(c, s) && Enabled(c, s, l)
    ensures Inv(c, Apply(c, s, l))
  {
    NoPanicStep(c, s, l);
    match l
    case Admit(g) => AdmitInv(c, s, g);
    case Work(w, a) => WorkInv(c, s, w, a);
    case Monitor(h) => MonitorInv(c, s, h);
    case TakeAck(j) => TakeAckInv(c, s, j);
    case ReturnDrained =>
    case ReturnDeadline =>
  }

  lemma {:induction false} RunInv(c: Config, s: State, ls: seq<Label>, t: State)
    requires Inv(c, s) && Run(c, s, ls) == Some(t)
    ensures Inv(c, t)
  {
    if ls != [] {
      var u := Run(c, s, ls[..|ls| - 1]).value;
      RunInv(c, s, ls[..|ls| - 1], u);
      StepInv(c, u, ls[|ls| - 1]);
    }
  }

  lemma ReachableInv(c: Config, s: State)
    requires Reachable(c, s)
    ensures Inv(c, s)
  {
    var ls :| Run(c, Init(c), ls) == Some(s);
    InitInv(c);
    RunInv(c, Init(c), ls, s);
  }

  // ---------------------------------------------------------------- channel safety

  /** No run sends on or closes a closed channel; the job channel is closed exactly when the flag is
      down outside the mutex, and a subscription's channel exactly when it has left the map. */
  lemma ChannelSafety(c: Config, s: State)
    requires Reachable(c, s)
    ensures !s.panicked
    ensures forall l :: Enabled(c, s, l) ==> !Panics(c, s, l)
    ensures s.gate.admission.Free? ==> (s.gate.jobsClosed <==> !s.gate.accepting)
    ensures s.hub.closing == [] ==>
      forall i :: 0 <= i < |s.hub.subs| ==> (s.hub.subs[i].events.closed <==> i !in s.hub.live)
  {
    ReachableInv(c, s);
    forall l | Enabled(c, s, l) ensures !Panics(c, s, l) {
      NoPanicStep(c, s, l);
    }
  }

  // ---------------------------------------------------------------- conservation

  /** The three places an accepted job can be in. */
  ghost predicate Queued(s: State, j: nat) { j in s.queue }

  ghost predicate Finished(s: State, j: nat)
    requires j < |s.jobs|
  {
    s.jobs[j].ack.closed
  }

  /** Every accepted job is in exactly one place, held at most once, and its ack channel has
      received exactly one result when it is closed and at most one before. */
  lemma Conservation(c: Config, s: State, j: nat)
    requires Reachable(c, s) && j < |s.jobs|
    ensures Queued(s, j) || IsHeld(s.workers, j) || Finished(s, j)
    ensures !(Queued(s, j) && IsHeld(s.workers, j))
    ensures !(Queued(s, j) && Finished(s, j))
    ensures !(IsHeld(s.workers, j) && Finished(s, j))
    ensures forall k, m :: 0 <= k < m < |s.queue| ==> s.queue[k] != s.queue[m]
    ensures forall w, v :: 0 <= w < v < |s.workers| ==>
              !(HoldsJob(s.workers[w], j) && HoldsJob(s.workers[v], j))
    ensures |s.jobs[j].ack.Sent()| <= 1
    ensures Finished(s, j) ==> |s.jobs[j].ack.Sent()| == 1
  {
    ReachableInv(c, s);
    var head := |s.jobs| - |s.queue|;
    if head <= j {
      assert s.queue[j - head] == j;
    }
    if IsHeld(s.workers, j) {
      var w :| 0 <= w < |s.workers| && HoldsJob(s.workers[w], j);
      assert WorkerFits(s.workers[w], head, s.jobs);
    }
  }

  /** A worker about to send a result finds an open channel with a free slot, so the send never blocks. */
  lemma ReplyNeverBlocks(c: Config, s: State, w: nat)
    requires Reachable(c, s) && w < |s.workers| && s.workers[w].Replying?
    ensures Enabled(c, s, Work(w, Reply)) && !Panics(c, s, Work(w, Reply))
    ensures s.jobs[s.workers[w].job].ack == Open()
  {
    ReachableInv(c, s);
    assert WorkerFits(s.workers[w], |s.jobs| - |s.queue|, s.jobs);
  }

  // ---------------------------------------------------------------- results and the store

  /** An error-free result means the event was stored and handed to Publish; an error means the job
      stored nothing. */
  lemma ResultMeansStored(c: Config, s: State, j: nat, r: EventResult)
    requires Reachable(c, s) && j < |s.jobs| && r in s.jobs[j].ack.Sent()
    ensures r.ok <==> Publication(j, r.event) in s.stored
    ensures r.ok <==> Publication(j, r.event) in s.published
    ensures r.ok ==> forall w :: 0 <= w < |s.workers| && HoldsJob(s.workers[w], j) ==> s.workers[w].Releasing?
    ensures !r.ok ==> NoJob(s.stored, j)
  {
    ReachableInv(c, s);
    var k :| 0 <= k < |s.jobs[j].ack.Sent()| && s.jobs[j].ack.Sent()[k] == r;
    assert OutcomeFits(j, s.jobs[j].ack.Sent()[k], s.stored, s.published);
    if Publication(j, r.event) in s.published {
      PublishedAreStored(s, Publication(j, r.event));
    }
    forall w | 0 <= w < |s.workers| && HoldsJob(s.workers[w], j)
      ensures s.workers[w].Releasing?
    {
      assert WorkerFits(s.workers[w], |s.jobs| - |s.queue|, s.jobs);
    }
  }

  /** Over all runs, at most one error-free result is ever sent for an event ID. */
  lemma OneSuccessPerID(c: Config, s: State, i: nat, j: nat, r: EventResult, q: EventResult)
    requires Reachable(c, s) && i < |s.jobs| && j < |s.jobs|
    requires r in s.jobs[i].ack.Sent() && q in s.jobs[j].ack.Sent() && r.ok && q.ok
    requires r.event.eventID == q.event.eventID
    ensures i == j && r == q
  {
    ReachableInv(c, s);
    ResultMeansStored(c, s, i, r);
    ResultMeansStored(c, s, j, q);
    var a :| 0 <= a < |s.stored| && s.stored[a] == Publication(i, r.event);
    var b :| 0 <= b < |s.stored| && s.stored[b] == Publication(j, q.event);
    assert a == b;
  }

  /** A log without repeated entries holds each entry once. */
  lemma {:induction false} DistinctOnce(ps: seq<Publication>, p: Publication)
    requires forall i, k :: 0 <= i < k < |ps| ==> ps[i].job != ps[k].job
    ensures multiset(ps)[p] <= 1
  {
    if ps != [] {
      var n := |ps| - 1;
      assert ps == ps[..n] + [ps[n]];
      DistinctOnce(ps[..n], p);
      assert ps[n] == p ==> p !in ps[..n];
    }
  }

  /** Where every entry occurs once, different positions hold different entries. */
  lemma OnceDistinct(ps: seq<Publication>, a: nat, b: nat)
    requires a < b < |ps| && multiset(ps)[ps[a]] <= 1
    ensures ps[a] != ps[b]
  {
    assert ps == ps[..b] + ps[b..];
    assert ps[..b][a] == ps[a] && ps[b..][0] == ps[b];
  }

  lemma StoredByID(s: State, p: Publication, q: Publication)
    requires RecordInv(s) && p in s.stored && q in s.stored
    ensures p.event.eventID == q.event.eventID ==> p == q
  {
    var x :| 0 <= x < |s.stored| && s.stored[x] == p;
    var y :| 0 <= y < |s.stored| && s.stored[y] == q;
    assert x != y ==> s.stored[x].event.eventID != s.stored[y].event.eventID;
  }

  lemma PublishedBelow(s: State, p: Publication)
    requires RecordInv(s)
    ensures multiset(s.published)[p] <= multiset(s.stored)[p]
  {
    assert multiset(s.stored)[p] == (multiset(s.published) + Fold(s.workers, PersistedPart))[p];
  }

  /** No event ID is published twice. */
  lemma PublishedOnce(c: Config, s: State, a: nat, b: nat)
    requires Reachable(c, s) && a < b < |s.published|
    ensures s.published[a].event.eventID != s.published[b].event.eventID
  {
    ReachableInv(c, s);
    PublishedAreStored(s, s.published[a]);
    PublishedAreStored(s, s.published[b]);
    StoredByID(s, s.published[a], s.published[b]);
    DistinctOnce(s.stored, s.published[a]);
    PublishedBelow(s, s.published[a]);
    OnceDistinct(s.published, a, b);
  }
}

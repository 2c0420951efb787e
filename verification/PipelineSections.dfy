/** Whole critical sections and whole worker iterations as runs of the pipeline's atomic actions. */
module PipelineSections {
  import opened Contracts
  import opened Channels
  import opened Pipeline
  import opened PipelineJobs
  import opened PipelineTheorems
  import opened Publisher

  ghost predicate Leads(c: Config, s: State, t: State) {
    exists ls :: Run(c, s, ls) == Some(t)
  }

  lemma LeadsHere(c: Config, s: State)
    ensures Leads(c, s, s)
  {
    assert Run(c, s, []) == Some(s);
  }

  lemma LeadsOn(c: Config, s: State, t: State, l: Label)
    requires Leads(c, s, t) && Enabled(c, t, l)
    ensures Leads(c, s, Apply(c, t, l))
  {
    var ls :| Run(c, s, ls) == Some(t);
    assert (ls + [l])[..|ls|] == ls;
    assert Run(c, s, ls + [l]) == Some(Apply(c, t, l));
  }

  lemma {:induction false} RunConcat(c: Config, s: State, a: seq<Label>, b: seq<Label>)
    requires Run(c, s, a).Some?
    ensures Run(c, s, a + b) == Run(c, Run(c, s, a).value, b)
  {
    if b == [] {
      assert a + b == a;
    } else {
      var n := |b| - 1;
      assert (a + b)[..|a| + n] == a + b[..n];
      RunConcat(c, s, a, b[..n]);
    }
  }

  lemma ReachableLeads(c: Config, s: State, t: State)
    requires Reachable(c, s) && Leads(c, s, t)
    ensures Reachable(c, t)
  {
    var a :| Run(c, Init(c), a) == Some(s);
    var b :| Run(c, s, b) == Some(t);
    RunConcat(c, Init(c), a, b);
  }

  // ---------------------------------------------------------------- admission

  datatype Submission = Accepted(job: nat) | HandlerClosed | QueueFull | ContextDone

  /** No goroutine is inside an admission section. */
  predicate Quiet(s: State) {
    s.gate.admission.Free? && !s.panicked
  }

  /** An accepted submission is a new last job with an open ack channel; a refusal leaves nothing behind. */
  function Submitted(s: State, event: Event, r: Submission): State {
    if r.Accepted? then s.(queue := s.queue + [r.job], jobs := s.jobs + [Job(event, Open())]) else s
  }

  lemma SubmitIsRun(c: Config, s: State, caller: nat, event: Event, r: Submission)
    requires Quiet(s) && (s.gate.jobsClosed <==> !s.gate.accepting)
    requires r.HandlerClosed? <==> !s.gate.accepting
    requires r.QueueFull? ==> |s.queue| >= c.queueSize
    requires r.Accepted? ==> |s.queue| < c.queueSize && r.job == |s.jobs|
    ensures Leads(c, s, Submitted(s, event, r))
  {
    LeadsHere(c, s);
    var l1 := Admit(SubmitLock(caller, event));
    LeadsOn(c, s, s, l1);
    var s1 := Apply(c, s, l1);
    LeadsOn(c, s, s1, Admit(SubmitCheck));
    var s2 := Apply(c, s1, Admit(SubmitCheck));
    if r.Accepted? {
      LeadsOn(c, s, s2, Admit(SubmitSend));
    } else if r.QueueFull? {
      LeadsOn(c, s, s2, Admit(SubmitFull));
    } else if r.ContextDone? {
      LeadsOn(c, s, s2, Admit(SubmitCancel));
    }
  }

  function Stopped(s: State): State {
    s.(gate := Gate(Free, false, Once.Done, true))
  }

  lemma StopIsRun(c: Config, s: State)
    requires Quiet(s) && s.gate == Gate(Free, true, Unused, false)
    ensures Leads(c, s, Stopped(s))
  {
    LeadsHere(c, s);
    LeadsOn(c, s, s, Admit(StopEnter));
    var s1 := Apply(c, s, Admit(StopEnter));
    LeadsOn(c, s, s1, Admit(StopLock));
    var s2 := Apply(c, s1, Admit(StopLock));
    LeadsOn(c, s, s2, Admit(StopFlag));
    var s3 := Apply(c, s2, Admit(StopFlag));
    LeadsOn(c, s, s3, Admit(StopClose));
    var s4 := Apply(c, s3, Admit(StopClose));
    LeadsOn(c, s, s4, Admit(StopUnlock));
  }

  // ---------------------------------------------------------------- one Publish

  lemma OfferOneMore(bufferSize: nat, h: Hub, p: Publication, done: set<nat>, i: nat)
    requires i < |h.subs| && i !in done
    ensures var h' := OfferedTo(bufferSize, h, p, done);
      h'.(subs := h'.subs[i := Offer(bufferSize, h'.subs[i], p)]) == OfferedTo(bufferSize, h, p, done + {i})
  {
    var h' := OfferedTo(bufferSize, h, p, done);
    assert h'.subs[i := Offer(bufferSize, h'.subs[i], p)] == OfferedTo(bufferSize, h, p, done + {i}).subs;
  }

  lemma OfferedToNone(bufferSize: nat, h: Hub, p: Publication)
    ensures OfferedTo(bufferSize, h, p, {}) == h
  {
    assert OfferedTo(bufferSize, h, p, {}).subs == h.subs;
  }

  function AtWorker(s: State, w: nat, worker: Worker): State
    requires w < |s.workers|
  {
    s.(workers := s.workers[w := worker])
  }

  /** What an action of a worker in position `x` does to everything but that worker. */
  function Beside(c: Config, t: State, x: Worker, a: Action): State
    requires AtAction(x, a) && (a.Dequeue? ==> t.queue != [])
    requires (a.Reply? || a.Release? ==> x.job < |t.jobs|) && (a.PublishTo? ==> a.sub < |t.hub.subs|)
  {
    t.(queue := WorkQueue(t.queue, a),
       jobs := WorkJobs(t.jobs, x, a),
       stored := if a.Store? && a.ok then t.stored + [Publication(x.job, x.event)] else t.stored,
       published := if a.PublishBegin? then t.published + [Publication(x.job, x.event)] else t.published,
       replies := if a.Reply? then t.replies + [x.job] else t.replies,
       hub := WorkHub(c.bufferSize, t.hub, x, a))
  }

  lemma ActAt(c: Config, s: State, t: State, w: nat, x: Worker, a: Action)
    requires w < |t.workers| && Leads(c, s, AtWorker(t, w, x)) && Enabled(c, AtWorker(t, w, x), Work(w, a))
    requires !Panics(c, AtWorker(t, w, x), Work(w, a))
    ensures var next := if a.Dequeue? then t.queue[0] else 0;
      Leads(c, s, AtWorker(Beside(c, t, x, a), w, Advance(x, a, next, t.hub.live)))
  {
    var t0 := AtWorker(t, w, x);
    LeadsOn(c, s, t0, Work(w, a));
    var y := Advance(x, a, if a.Dequeue? then t.queue[0] else 0, t.hub.live);
    assert t.workers[w := x][w := y] == t.workers[w := y];
    assert t.stored + [] == t.stored && t.published + [] == t.published;
    assert Apply(c, t0, Work(w, a)) == AtWorker(Beside(c, t, x, a), w, y);
  }

  /** A worker can always finish its Publish. */
  lemma {:induction false} PublishIsRun(c: Config, s: State, t: State, w: nat, j: nat, e: Event, done: set<nat>)
    requires !t.panicked && w < |t.workers| && done <= t.hub.live
    requires forall i :: i in t.hub.live ==> i < |t.hub.subs| && !t.hub.subs[i].events.closed
    requires var p := Publication(j, e);
      Leads(c, s, AtWorker(t.(hub := OfferedTo(c.bufferSize, t.hub, p, done)), w,
                           Publishing(j, e, t.hub.live - done)))
    ensures var p := Publication(j, e);
      Leads(c, s, AtWorker(t.(hub := OfferedTo(c.bufferSize, t.hub, p, t.hub.live)), w, Publishing(j, e, {})))
    decreases t.hub.live - done
  {
    var pending := t.hub.live - done;
    if pending == {} {
      assert forall i :: i in t.hub.live ==> i in done;
      assert done == t.hub.live;
    } else {
      var i :| i in pending;
      var p := Publication(j, e);
      OfferOneMore(c.bufferSize, t.hub, p, done, i);
      assert pending - {i} == t.hub.live - (done + {i});
      ActAt(c, s, t.(hub := OfferedTo(c.bufferSize, t.hub, p, done)), w, Publishing(j, e, pending), PublishTo(i));
      PublishIsRun(c, s, t, w, j, e, done + {i});
    }
  }

  // ---------------------------------------------------------------- one worker iteration

  /** A store and the Publish that follows it, if the store accepted the event. */
  function Kept(c: Config, s: State, p: Publication, done: bool): State {
    s.(stored := s.stored + (if done then [p] else []),
       published := s.published + (if done then [p] else []),
       hub := if done then OfferedTo(c.bufferSize, s.hub, p, s.hub.live) else s.hub)
  }

  /** What is left of a worker iteration once the job is taken: `ok` says whether the processor accepted the
      event and `stored` whether the store did. */
  function Completed(c: Config, s: State, w: nat, processed: Event, ok: bool, stored: bool): State
    requires w < |s.workers| && s.workers[w].Processing? && s.workers[w].job < |s.jobs|
  {
    var j := s.workers[w].job;
    var done := ok && stored;
    Kept(c, AtWorker(s, w, Idle), Publication(j, processed), done)
      .(jobs := WithAck(s.jobs, j, Chan([], [EventResult(processed, done)], true)), replies := s.replies + [j])
  }

  lemma CompletedInParts(c: Config, s: State, w: nat, processed: Event, ok: bool, stored: bool)
    requires w < |s.workers| && s.workers[w].Processing? && s.workers[w].job < |s.jobs|
    ensures var j := s.workers[w].job;
      var t := AtWorker(s, w, Idle);
      Completed(c, s, w, processed, ok, stored)
      == (if ok then Kept(c, t, Publication(j, processed), stored) else t)
           .(jobs := WithAck(s.jobs, j, Chan([], [EventResult(processed, ok && stored)], true)),
             replies := s.replies + [j])
  {
    assert s.stored + [] == s.stored && s.published + [] == s.published;
  }

  lemma ReplyIsRun(c: Config, s: State, t: State, w: nat, j: nat, r: EventResult)
    requires !t.panicked && w < |t.workers| && t.workers[w].Idle?
    requires j < |t.jobs| && t.jobs[j].ack == Open()
    requires Leads(c, s, AtWorker(t, w, Replying(j, r)))
    ensures Leads(c, s, t.(jobs := WithAck(t.jobs, j, Chan([], [r], true)), replies := t.replies + [j]))
  {
    ActAt(c, s, t, w, Replying(j, r), Reply);
    var t1 := Beside(c, t, Replying(j, r), Reply);
    ActAt(c, s, t1, w, Releasing(j), Release);
    var t2 := Beside(c, t1, Releasing(j), Release);
    assert [] + [r] == [r];
    assert t2.jobs == WithAck(t.jobs, j, Chan([], [r], true));
    assert t2.workers[w := Idle] == t2.workers;
  }

  /** Store, publish to every live subscription, and get ready to reply. */
  lemma PersistIsRun(c: Config, s: State, t: State, w: nat, j: nat, e: Event)
    requires !t.panicked && w < |t.workers| && t.hub.closing == [] && Storable(t.stored, e)
    requires forall i :: i in t.hub.live ==> i < |t.hub.subs| && !t.hub.subs[i].events.closed
    requires Leads(c, s, AtWorker(t, w, Storing(j, e)))
    ensures var p := Publication(j, e);
      Leads(c, s, AtWorker(t.(stored := t.stored + [p], published := t.published + [p],
                              hub := OfferedTo(c.bufferSize, t.hub, p, t.hub.live)),
                           w, Replying(j, EventResult(e, true))))
  {
    var p := Publication(j, e);
    ActAt(c, s, t, w, Storing(j, e), Store(true));
    var t1 := t.(stored := t.stored + [p]);
    ActAt(c, s, t1, w, Persisted(j, e), PublishBegin);
    var t2 := t1.(published := t1.published + [p]);
    OfferedToNone(c.bufferSize, t2.hub, p);
    assert t2.hub.live - {} == t2.hub.live;
    PublishIsRun(c, s, t2, w, j, e, {});
    var t3 := t2.(hub := OfferedTo(c.bufferSize, t2.hub, p, t2.hub.live));
    ActAt(c, s, t3, w, Publishing(j, e, {}), PublishEnd);
  }

  /** A worker that has taken a job can finish it without interruption, whatever the others are doing. */
  lemma CompletedIsRun(c: Config, s: State, w: nat, processed: Event, ok: bool, stored: bool)
    requires Inv(c, s) && w < |s.workers| && s.workers[w].Processing? && s.hub.closing == []
    requires ok && stored ==> Storable(s.stored, processed)
    ensures s.workers[w].job < |s.jobs| && Leads(c, s, Completed(c, s, w, processed, ok, stored))
  {
    var j := s.workers[w].job;
    var t := AtWorker(s, w, Idle);
    assert WorkerFits(s.workers[w], |s.jobs| - |s.queue|, s.jobs);
    LeadsHere(c, s);
    assert t.workers[w := Processing(j)] == s.workers;
    ActAt(c, s, t, w, Processing(j), Process(processed, ok));
    if ok && stored {
      PersistIsRun(c, s, t, w, j, processed);
      var p := Publication(j, processed);
      ReplyIsRun(c, s, t.(stored := t.stored + [p], published := t.published + [p],
                          hub := OfferedTo(c.bufferSize, t.hub, p, t.hub.live)),
                 w, j, EventResult(processed, true));
    } else if ok {
      ActAt(c, s, t, w, Storing(j, processed), Store(false));
      ReplyIsRun(c, s, t, w, j, EventResult(processed, false));
    } else {
      ReplyIsRun(c, s, t, w, j, EventResult(processed, false));
    }
    assert s.stored + [] == s.stored && s.published + [] == s.published;
  }

  lemma ExitIsRun(c: Config, s: State, w: nat)
    requires !s.panicked && w < |s.workers| && s.workers[w].Idle? && s.queue == [] && s.gate.jobsClosed
    ensures Leads(c, s, AtWorker(s, w, Exited))
  {
    LeadsHere(c, s);
    assert s.workers[w := Idle] == s.workers;
    ActAt(c, s, s, w, Idle, Exit);
  }
}

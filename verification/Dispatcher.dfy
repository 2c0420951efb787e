/** The dispatcher as an object over the memory store and the publisher.  Each method is one goroutine's
    uninterrupted turn; its effect is always a run of the pipeline. */
module Dispatcher {
  import opened Contracts
  import opened Channels
  import opened StorePort
  import opened Pipeline
  import opened PipelineJobs
  import opened PipelineTheorems
  import opened PipelineStream
  import opened PipelineDrain
  import opened PipelineSections
  import opened Publisher
  import opened MemoryStore

  datatype SetupError = NoProcessor | NoStore | BadQueueSize | BadWorkerCount

  datatype Setup = Created(dispatcher: Dispatcher) | Refused(error: SetupError)

  datatype Stop = Drained | Deadline(pending: nat) | Waiting

  /** Finishing a job with a store that accepts exactly new IDs leads from a reachable state to another. */
  lemma TurnIsRun(c: Config, s: State, es: seq<Event>, w: nat, processed: Event, ok: bool, done: bool)
    requires Reachable(c, s) && w < |s.workers| && s.workers[w].Processing? && s.hub.closing == []
    requires es == Events(s.stored) && (done ==> ok && NewID(es, processed))
    ensures s.workers[w].job < |s.jobs| && s.jobs[s.workers[w].job].ack == Open()
    ensures Reachable(c, Completed(c, s, w, processed, ok, done))
    ensures Events(Completed(c, s, w, processed, ok, done).stored) == es + (if done then [processed] else [])
  {
    ReachableInv(c, s);
    assert WorkerFits(s.workers[w], |s.jobs| - |s.queue|, s.jobs);
    assert forall k :: 0 <= k < |s.stored| ==> es[k] == s.stored[k].event;
    CompletedIsRun(c, s, w, processed, ok, done);
    ReachableLeads(c, s, Completed(c, s, w, processed, ok, done));
  }

  /** The job's channel is closed on the one result of its event: what the processor made of it, and, when
      the result is error-free, stored. */
  ghost predicate Answered(job: Job, process: Event -> (Event, bool), contents: seq<Event>) {
    && job.ack.closed && job.ack.received == [] && |job.ack.buffer| == 1
    && var r := job.ack.buffer[0];
       r.event == process(job.event).0 && (r.ok ==> process(job.event).1 && r.event in contents)
  }

  class Dispatcher {
    const queueSize: nat
    const workerCount: nat
    const store: MemoryEventStore
    const publisher: EventPublisher
    /** The buffer of the job channel: jobs by acceptance number. */
    var jobs: seq<nat>
    var jobsClosed: bool
    var accepting: bool
    var stopOnce: bool
    var accepted: seq<Job>
    var workers: seq<Worker>
    ghost var stored: seq<Publication>
    ghost var published: seq<Publication>
    ghost var replies: seq<nat>

    ghost function Cfg(): Config {
      Config(queueSize, workerCount, publisher.bufferSize)
    }

    ghost function View(): State
      reads this, publisher, publisher.created
    {
      State(Gate(Free, accepting, if stopOnce then Once.Done else Unused, jobsClosed), jobs, workers, accepted,
            stored, published, replies, publisher.View(), false)
    }

    /** The store holds what the pipeline says it holds, and the whole is in a reachable state of the
        pipeline; workers may be anywhere in their iterations. */
    ghost predicate Valid()
      reads this, store, publisher, publisher.created
    {
      && store.Valid() && publisher.Valid() && ValidConfig(Cfg())
      && store.Contents() == Events(stored)
      && Reachable(Cfg(), View())
    }

    constructor (store: MemoryEventStore, queueSize: nat, workerCount: nat)
      requires queueSize > 0 && workerCount > 0
      ensures this.store == store && this.queueSize == queueSize && this.workerCount == workerCount
      ensures View() == Init(Cfg()) && fresh(publisher) && publisher.created == [] && publisher.Valid()
      ensures ValidConfig(Cfg())
    {
      this.store := store;
      this.queueSize := queueSize;
      this.workerCount := workerCount;
      publisher := new EventPublisher(32);
      jobs, jobsClosed, accepting, stopOnce := [], false, true, false;
      accepted := [];
      workers := seq(workerCount, _ => Idle);
      stored, published, replies := [], [], [];
    }

    /** Submit's critical section.  `cancelled` says that the context is done; when the channel has room
        as well, `sendFirst` is the select's choice. */
    method Submit(event: Event, cancelled: bool, sendFirst: bool) returns (r: Submission)
      requires Valid()
      modifies this`jobs, this`accepted
      ensures Valid() && View() == Submitted(old(View()), event, r)
      ensures r.HandlerClosed? <==> !accepting
      ensures r.QueueFull? <==> accepting && !cancelled && |old(jobs)| == queueSize
      ensures r.ContextDone? ==> accepting && cancelled
      ensures r.Accepted? ==> |old(jobs)| < queueSize && r.job == |old(accepted)| && !jobsClosed
      ensures r.Accepted? ==> jobs == old(jobs) + [r.job] && accepted == old(accepted) + [Job(event, Open())]
      ensures !r.Accepted? ==> jobs == old(jobs) && accepted == old(accepted)
    {
      ghost var s := View();
      ReachableInv(Cfg(), s);
      if !accepting {
        return HandlerClosed;
      }
      if |jobs| < queueSize && (!cancelled || sendFirst) {
        r := Accepted(|accepted|);
        SubmitIsRun(Cfg(), s, 0, event, r);
        jobs := jobs + [|accepted|];
        accepted := accepted + [Job(event, Open())];
        ReachableLeads(Cfg(), s, View());
        return;
      }
      r := if cancelled then ContextDone else QueueFull;
    }

    /** The publisher's write lock must be free. */
    method Subscribe(filter: EventFilter) returns (s: EventSubscription)
      requires Valid() && NoReader(workers)
      modifies publisher
      ensures Valid() && fresh(s) && publisher.created == old(publisher.created) + [s]
      ensures View() == Apply(Cfg(), old(View()), Monitor(HubLabel.Subscribe(filter)))
    {
      ghost var before := View();
      s := publisher.Subscribe(filter, |published|);
      LeadsHere(Cfg(), before);
      LeadsOn(Cfg(), before, before, Monitor(HubLabel.Subscribe(filter)));
      ReachableLeads(Cfg(), before, View());
    }

    /** Shutdown: the once body, then whichever select branch is ready; `expired` says that the context is
        done, and `drainFirst` is the select's choice when both are.  A deadline return reports the accepted
        jobs without a result less those that workers hold, so it is exact when none is busy. */
    method Shutdown(expired: bool, drainFirst: bool) returns (r: Stop)
      requires Valid()
      modifies this`accepting, this`jobsClosed, this`stopOnce
      ensures Valid() && View() == if old(stopOnce) then old(View()) else Stopped(old(View()))
      ensures !accepting && jobsClosed
      ensures r.Drained? ==> forall j :: 0 <= j < |accepted| ==> accepted[j].ack.closed && |accepted[j].ack.Sent()| == 1
      ensures r.Deadline? ==> expired && r.pending + BusyCount(workers) == |Unfinished(View())|
      ensures r.Deadline? ==> (r.pending == |Unfinished(View())| <==> forall w :: 0 <= w < |workers| ==> !Busy(workers[w]))
      ensures r.Waiting? <==> !expired && !AllExited(workers)
    {
      ghost var s := View();
      ReachableInv(Cfg(), s);
      if !stopOnce {
        stopOnce := true;
        accepting := false;
        jobsClosed := true;
        StopIsRun(Cfg(), s);
        ReachableLeads(Cfg(), s, View());
      }
      var drained := true;
      for w := 0 to |workers|
        invariant drained <==> forall v :: 0 <= v < w ==> workers[v].Exited?
      {
        drained := drained && workers[w].Exited?;
      }
      if drained && (drainFirst || !expired) {
        DrainedMeansDone(Cfg(), View());
        r := Drained;
      } else if expired {
        DeadlineCount(Cfg(), View());
        r := Deadline(|jobs|);
      } else {
        r := Waiting;
      }
    }

    /** The middle of an iteration: Store, and Publish if the store accepted the event. */
    method Persist(job: nat, processed: Event, cancelled: bool) returns (done: bool)
      requires store.Valid() && publisher.Valid() && store.Contents() == Events(stored)
      modifies this`stored, this`published, store`events, store`order, publisher.subscriptions
      ensures store.Valid() && publisher.Valid()
      ensures done <==> !cancelled && !store.closed && NewID(old(store.Contents()), processed)
      ensures store.Contents() == old(store.Contents()) + (if done then [processed] else [])
      ensures View() == Kept(Cfg(), old(View()), Publication(job, processed), done)
    {
      var outcome := store.Store(cancelled, processed);
      done := outcome.Ok?;
      if done {
        stored := stored + [Publication(job, processed)];
        published := published + [Publication(job, processed)];
        publisher.Publish(Publication(job, processed));
      }
      assert old(stored) + [] == old(stored) && old(published) + [] == old(published);
    }

    /** The end of an iteration: the result is sent on the job's ack channel, which is then closed. */
    method Respond(job: nat, result: EventResult)
      requires job < |accepted| && accepted[job].ack == Open()
      modifies this`accepted, this`replies
      ensures View() == old(View()).(jobs := WithAck(old(accepted), job, Chan([], [result], true)),
                                     replies := old(replies) + [job])
    {
      var ack := accepted[job].ack.Push(result);
      replies := replies + [job];
      accepted := WithAck(accepted, job, ack.Shut());
      assert [] + [result] == [result];
    }

    /** The range over the job channel hands the worker the next job. */
    method Take(w: nat)
      requires Valid() && w < |workers| && workers[w].Idle? && jobs != []
      modifies this`jobs, this`workers
      ensures Valid() && View() == Apply(Cfg(), old(View()), Label.Work(w, Dequeue))
      ensures jobs == old(jobs)[1..] && workers == old(workers)[w := Processing(old(jobs)[0])]
    {
      ghost var s := View();
      LeadsHere(Cfg(), s);
      LeadsOn(Cfg(), s, s, Label.Work(w, Dequeue));
      workers := workers[w := Processing(jobs[0])];
      jobs := jobs[1..];
      assert stored + [] == stored && published + [] == published;
      assert View() == Apply(Cfg(), s, Label.Work(w, Dequeue));
      ReachableLeads(Cfg(), s, View());
    }

    /** The rest of the loop's body; `processed` and `ok` are what Process returned. */
    method Turn(w: nat, processed: Event, ok: bool, cancelled: bool) returns (done: bool)
      requires store.Valid() && publisher.Valid() && store.Contents() == Events(stored)
      requires w < |workers| && workers[w].Processing?
      requires workers[w].job < |accepted| && accepted[workers[w].job].ack == Open()
      modifies this`workers, this`accepted, this`stored, this`published, this`replies
      modifies store`events, store`order, publisher.subscriptions
      ensures store.Valid() && publisher.Valid()
      ensures done <==> ok && !cancelled && !store.closed && NewID(old(store.Contents()), processed)
      ensures store.Contents() == old(store.Contents()) + (if done then [processed] else [])
      ensures View() == Completed(Cfg(), old(View()), w, processed, ok, done)
    {
      ghost var s := View();
      var job := workers[w].job;
      workers := workers[w := Idle];
      done := ok;
      if done {
        done := Persist(job, processed, cancelled);
      }
      Respond(job, EventResult(processed, done));
      CompletedInParts(Cfg(), s, w, processed, ok, done);
    }

    /** A worker finishes the job it has taken, whatever the other workers are doing. */
    method Finish(w: nat, processed: Event, ok: bool, cancelled: bool) returns (done: bool)
      requires Valid() && w < |workers| && workers[w].Processing?
      modifies this`workers, this`accepted, this`stored, this`published, this`replies
      modifies store`events, store`order, publisher.subscriptions
      ensures Valid() && old(workers[w]).job < |old(accepted)|
      ensures done <==> ok && !cancelled && !store.closed && NewID(old(store.Contents()), processed)
      ensures View() == Completed(Cfg(), old(View()), w, processed, ok, done)
      ensures store.Contents() == old(store.Contents()) + (if done then [processed] else [])
    {
      TurnIsRun(Cfg(), View(), store.Contents(), w, processed, ok,
                ok && !cancelled && !store.closed && NewID(store.Contents(), processed));
      done := Turn(w, processed, ok, cancelled);
    }

    /** One whole iteration of the worker loop: the first queued job gets the one result of its event. */
    method Serve(w: nat, process: Event -> (Event, bool), cancelled: nat -> bool)
      requires Valid() && w < |workers| && workers[w].Idle? && jobs != []
      modifies this`jobs, this`workers, this`accepted, this`stored, this`published, this`replies
      modifies store`events, store`order, publisher.subscriptions
      ensures Valid() && workers == old(workers) && jobs == old(jobs)[1..]
      ensures replies == old(replies) + [old(jobs)[0]] && old(store.Contents()) <= store.Contents()
      ensures |accepted| == |old(accepted)| && old(jobs)[0] == |accepted| - |old(jobs)|
      ensures forall j :: 0 <= j < |accepted| && j != old(jobs)[0] ==> accepted[j] == old(accepted)[j]
      ensures Answered(accepted[old(jobs)[0]], process, store.Contents())
      ensures accepted[old(jobs)[0]].event == old(accepted)[old(jobs)[0]].event
    {
      HeadIsOldest(Cfg(), View());
      var event := accepted[jobs[0]].event;
      var late := cancelled(jobs[0]);
      Take(w);
      var result := process(event);
      var done := Finish(w, result.0, result.1, late);
      assert workers == old(workers);
    }

    /** The worker loop without interruption, up to the point where the queue is empty: it answers the
        queued jobs in queue order.  `process` stands for the processor, `cancelled` for the contexts. */
    method AnswerQueued(w: nat, process: Event -> (Event, bool), cancelled: nat -> bool)
      requires Valid() && w < |workers| && workers[w].Idle?
      modifies this`jobs, this`workers, this`accepted, this`stored, this`published, this`replies
      modifies store`events, store`order, publisher.subscriptions
      ensures Valid() && workers == old(workers) && jobs == [] && replies == old(replies) + old(jobs)
      ensures old(store.Contents()) <= store.Contents()
      ensures AnsweredAfter(old(accepted), |old(accepted)| - |old(jobs)|, |old(accepted)|, accepted, process, store.Contents())
    {
      ghost var base := |accepted| - |jobs|;
      QueueFits(Cfg(), View());
      while jobs != []
        invariant Valid() && workers == old(workers) && |accepted| == |old(accepted)| && |jobs| <= |accepted| - base
        invariant old(store.Contents()) <= store.Contents()
        invariant replies + jobs == old(replies) + old(jobs)
        invariant base >= 0
        invariant AnsweredAfter(old(accepted), base, |accepted| - |jobs|, accepted, process, store.Contents())
      {
        FirstMoves(replies, jobs);
        Serve(w, process, cancelled);
      }
    }

    /** The worker goroutine without interruption: it answers every queued job and, if the channel is closed,
        exits.  Other workers may be busy. */
    method Work(w: nat, process: Event -> (Event, bool), cancelled: nat -> bool)
      requires Valid() && w < |workers| && workers[w].Idle?
      modifies this`jobs, this`accepted, this`workers, this`stored, this`published, this`replies
      modifies store`events, store`order, publisher.subscriptions
      ensures Valid() && jobs == [] && replies == old(replies) + old(jobs)
      ensures workers == old(workers)[w := if jobsClosed then Exited else Idle]
      ensures old(store.Contents()) <= store.Contents()
      ensures AnsweredAfter(old(accepted), |old(accepted)| - |old(jobs)|, |old(accepted)|, accepted, process, store.Contents())
    {
      AnswerQueued(w, process, cancelled);
      if jobsClosed {
        ghost var s := View();
        workers := workers[w := Exited];
        ExitIsRun(Cfg(), s, w);
        ReachableLeads(Cfg(), s, View());
      }
    }

    /** A submitter receives the result of its job. */
    method TakeResult(job: nat) returns (r: EventResult)
      requires Valid() && job < |accepted| && accepted[job].ack.buffer != []
      modifies this`accepted
      ensures Valid() && r == old(accepted)[job].ack.buffer[0]
      ensures View() == Apply(Cfg(), old(View()), TakeAck(job))
    {
      ghost var s := View();
      LeadsHere(Cfg(), s);
      LeadsOn(Cfg(), s, s, TakeAck(job));
      r := accepted[job].ack.buffer[0];
      accepted := WithAck(accepted, job, accepted[job].ack.Pop());
      ReachableLeads(Cfg(), s, View());
    }

    /** eventSubscription.Close, called by a monitor once the write lock is free. */
    method CloseSubscription(s: EventSubscription, ghost i: nat)
      requires Valid() && NoReader(workers) && i < |publisher.created| && publisher.created[i] == s
      modifies publisher, s
      ensures Valid() && s.once && s !in publisher.subscriptions
      ensures old(s.once) ==> View() == old(View())
    {
      ghost var before := View();
      publisher.Close(s, i, |published|);
      CloseIsRun(Cfg(), before, i);
      ReachableLeads(Cfg(), before, View());
    }
  }

  /** Jobs from `base` up to `done` are answered; all others are as they were. */
  ghost predicate AnsweredAfter(before: seq<Job>, base: int, done: int, after: seq<Job>,
                                process: Event -> (Event, bool), contents: seq<Event>) {
    && |after| == |before|
    && forall j :: 0 <= j < |after| ==>
         && after[j].event == before[j].event
         && (if base <= j < done then Answered(after[j], process, contents) else after[j] == before[j])
  }

  /** A subscription that has missed no publication and dropped none, and that no worker is on its way to,
      holds what the memory store's Query returns for its filter. */
  lemma StreamIsQuery(d: Dispatcher, i: nat)
    requires d.Valid() && i < |d.publisher.created| && d.publisher.created[i] in d.publisher.subscriptions
    requires d.publisher.created[i].since == 0 && d.publisher.created[i].dropped == [] && Settled(d.View(), i)
    ensures multiset(Events(d.publisher.created[i].events.Sent()))
         == multiset(Select(d.publisher.created[i].filter, d.store.Contents()))
  {
    assert d.View().hub.subs[i] == d.publisher.created[i].View();
    LiveStreamIsQuery(d.Cfg(), d.View(), i);
  }

  /** NewDispatcher: the arguments are checked in turn. */
  method NewDispatcher(hasProcessor: bool, store: MemoryEventStore?, queueSize: int, workerCount: int)
    returns (r: Setup)
    ensures r.Created? <==> hasProcessor && store != null && queueSize > 0 && workerCount > 0
    ensures r.Created? && store.Valid() && store.Contents() == [] ==> r.dispatcher.Valid()
    ensures r.Created? ==> fresh(r.dispatcher) && r.dispatcher.store == store
                           && r.dispatcher.View() == Init(Config(queueSize, workerCount, 32))
  {
    if !hasProcessor {
      return Refused(NoProcessor);
    }
    if store == null {
      return Refused(NoStore);
    }
    if queueSize <= 0 {
      return Refused(BadQueueSize);
    }
    if workerCount <= 0 {
      return Refused(BadWorkerCount);
    }
    var d := new Dispatcher(store, queueSize, workerCount);
    InitReachable(d.Cfg());
    r := Created(d);
  }

  lemma InitReachable(c: Config)
    ensures Reachable(c, Init(c))
  {
    assert Run(c, Init(c), []) == Pipeline.Some(Init(c));
  }

  lemma FirstMoves(replies: seq<nat>, jobs: seq<nat>)
    requires jobs != []
    ensures (replies + [jobs[0]]) + jobs[1..] == replies + jobs
  {}

  /** The queue holds the latest accepted jobs in order. */
  lemma HeadIsOldest(c: Config, s: State)
    requires Reachable(c, s) && s.queue != []
    ensures s.queue[0] == |s.jobs| - |s.queue| && s.jobs[s.queue[0]].ack == Open()
  {
    ReachableInv(c, s);
  }

  lemma QueueFits(c: Config, s: State)
    requires Reachable(c, s)
    ensures |s.queue| <= |s.jobs|
  {
    ReachableInv(c, s);
  }

  /** Closing a subscription for the first time is a run; closing it again changes nothing. */
  lemma CloseIsRun(c: Config, s: State, i: nat)
    requires !s.panicked && s.hub.closing == [] && NoReader(s.workers) && i < |s.hub.subs|
    requires !s.hub.subs[i].onceUsed ==> !s.hub.subs[i].events.closed
    ensures var begun := |s.published|;
      Leads(c, s, if s.hub.subs[i].onceUsed then s
                  else s.(hub := HubNext(HubNext(s.hub, begun, Unsubscribe(i)), begun, UnsubscribeClose)))
  {
    LeadsHere(c, s);
    if !s.hub.subs[i].onceUsed {
      LeadsOn(c, s, s, Monitor(Unsubscribe(i)));
      LeadsOn(c, s, Apply(c, s, Monitor(Unsubscribe(i))), Monitor(UnsubscribeClose));
    }
  }
}

/** The admission gate and the life of a job: invariants every step of the pipeline keeps. */
module PipelineJobs {
  import opened Channels
  import opened Pipeline

  /** The flag and the channel agree except inside the once body's critical section. */
  predicate GateInv(g: Gate) {
    if g.once.Unused? || g.once.Entered? then
      g.accepting && !g.jobsClosed && (g.admission.Free? || g.admission.Submitting? || g.admission.Admitting?)
    else if g.once.Running? then
      || (g.admission.Stopping? && g.accepting && !g.jobsClosed)
      || (g.admission.Flagged? && !g.accepting && !g.jobsClosed)
      || (g.admission.Shut? && !g.accepting && g.jobsClosed)
    else
      !g.accepting && g.jobsClosed && (g.admission.Free? || g.admission.Submitting?)
  }

  lemma GateStep(g: Gate, room: bool, l: GateLabel)
    requires GateInv(g) && GateEnabled(g, room, l)
    ensures GateInv(GateNext(g, l))
    ensures l.SubmitSend? || l.StopClose? ==> !g.jobsClosed
  {}

  predicate HoldsJob(w: Worker, j: nat) {
    Busy(w) && w.job == j
  }

  ghost predicate IsHeld(ws: seq<Worker>, j: nat) {
    exists w :: 0 <= w < |ws| && HoldsJob(ws[w], j)
  }

  /** The ack channel of a job that a worker holds. */
  predicate AckFits(w: Worker, ack: Chan<EventResult>) {
    !ack.closed && if w.Releasing? then |ack.Sent()| == 1 else ack == Open()
  }

  /** The queue holds exactly the latest accepted jobs, in acceptance order. */
  ghost predicate QueueInv(queue: seq<nat>, jobs: seq<Job>) {
    && |queue| <= |jobs|
    && (forall k :: 0 <= k < |queue| ==> queue[k] == |jobs| - |queue| + k)
    && (forall j :: |jobs| - |queue| <= j < |jobs| ==> jobs[j].ack == Open())
  }

  predicate WorkerFits(w: Worker, head: int, jobs: seq<Job>) {
    Busy(w) ==> w.job < head && w.job < |jobs| && AckFits(w, jobs[w.job].ack)
  }

  /** Different workers hold different jobs, all of them taken from the queue. */
  ghost predicate HoldInv(head: int, ws: seq<Worker>, jobs: seq<Job>) {
    && (forall w :: 0 <= w < |ws| ==> WorkerFits(ws[w], head, jobs))
    && (forall w, v :: 0 <= w < v < |ws| && Busy(ws[w]) && Busy(ws[v]) ==> ws[w].job != ws[v].job)
  }

  /** A job that left the queue is closed, with one result sent, exactly when no worker holds it. */
  ghost predicate DoneInv(head: int, ws: seq<Worker>, jobs: seq<Job>) {
    forall j: nat :: j < head && j < |jobs| ==>
      && (jobs[j].ack.closed <==> !IsHeld(ws, j))
      && (jobs[j].ack.closed ==> |jobs[j].ack.Sent()| == 1)
  }

  ghost predicate JobsInv(c: Config, s: State) {
    var head := |s.jobs| - |s.queue|;
    && |s.queue| <= c.queueSize
    && |s.workers| == c.workerCount
    && QueueInv(s.queue, s.jobs)
    && HoldInv(head, s.workers, s.jobs)
    && DoneInv(head, s.workers, s.jobs)
  }

  /** Replacing one worker changes whether a job is held only for the jobs that worker held or takes. */
  lemma HeldUpdate(ws: seq<Worker>, w: nat, worker: Worker, j: nat)
    requires w < |ws|
    requires HoldsJob(ws[w], j) <==> HoldsJob(worker, j)
    ensures IsHeld(ws[w := worker], j) <==> IsHeld(ws, j)
  {
    if IsHeld(ws, j) {
      var v :| 0 <= v < |ws| && HoldsJob(ws[v], j);
      assert HoldsJob(ws[w := worker][v], j);
    }
    if IsHeld(ws[w := worker], j) {
      var v :| 0 <= v < |ws| && HoldsJob(ws[w := worker][v], j);
      assert HoldsJob(ws[v], j);
    }
  }

  lemma JobsSubmit(c: Config, s: State)
    requires JobsInv(c, s) && s.gate.admission.Admitting? && |s.queue| < c.queueSize
    ensures JobsInv(c, AdmitStep(s, SubmitSend))
  {}

  lemma JobsTakeAck(c: Config, s: State, j: nat)
    requires JobsInv(c, s) && j < |s.jobs| && s.jobs[j].ack.buffer != []
    ensures JobsInv(c, s.(jobs := WithAck(s.jobs, j, s.jobs[j].ack.Pop())))
  {
    var ack := s.jobs[j].ack;
    assert |ack.Pop().Sent()| == |ack.Sent()|;
  }

  lemma HoldWork(c: Config, s: State, w: nat, a: Action)
    requires JobsInv(c, s) && WorkEnabled(s, w, a)
    ensures
      var t := WorkStep(c, s, w, a);
      QueueInv(t.queue, t.jobs) && HoldInv(|t.jobs| - |t.queue|, t.workers, t.jobs)
  {}

  lemma DoneWork(c: Config, s: State, w: nat, a: Action)
    requires JobsInv(c, s) && WorkEnabled(s, w, a)
    ensures
      var t := WorkStep(c, s, w, a);
      DoneInv(|t.jobs| - |t.queue|, t.workers, t.jobs)
  {
    var t := WorkStep(c, s, w, a);
    var job := if a.Dequeue? then s.queue[0] else if a.Exit? then 0 else s.workers[w].job;
    forall j: nat | j != job || (!a.Dequeue? && !a.Release?)
      ensures IsHeld(t.workers, j) <==> IsHeld(s.workers, j)
    {
      HeldUpdate(s.workers, w, t.workers[w], j);
    }
    if a.Dequeue? {
      assert HoldsJob(t.workers[w], job);
    }
  }
}

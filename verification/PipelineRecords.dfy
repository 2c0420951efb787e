/** What the store, the publication log, the workers and the sent results know about each job. */
module PipelineRecords {
  import opened Channels
  import opened Pipeline
  import opened PipelineJobs

  // ---------------------------------------------------------------- sums over workers

  /** The multiset union of `part` over all workers. */
  function Fold<T>(ws: seq<Worker>, part: Worker -> multiset<T>): multiset<T> {
    if ws == [] then multiset{} else Fold(ws[..|ws| - 1], part) + part(ws[|ws| - 1])
  }

  lemma {:induction false} FoldUpdate<T>(ws: seq<Worker>, part: Worker -> multiset<T>, i: nat, w: Worker)
    requires i < |ws|
    ensures Fold(ws[i := w], part) + part(ws[i]) == Fold(ws, part) + part(w)
  {
    var n := |ws| - 1;
    if i == n {
      assert ws[i := w][..n] == ws[..n];
    } else {
      assert ws[i := w][..n] == ws[..n][i := w];
      FoldUpdate(ws[..n], part, i, w);
      assert ws[..n][i] == ws[i];
      var before, after := Fold(ws[..n], part), Fold(ws[..n][i := w], part);
      assert (after + part(ws[n])) + part(ws[i]) == (after + part(ws[i])) + part(ws[n]);
      assert (before + part(ws[n])) + part(w) == (before + part(w)) + part(ws[n]);
    }
  }

  lemma {:induction false} FoldEmpty<T>(ws: seq<Worker>, part: Worker -> multiset<T>)
    requires forall i :: 0 <= i < |ws| ==> part(ws[i]) == multiset{}
    ensures Fold(ws, part) == multiset{}
  {
    if ws != [] {
      FoldEmpty(ws[..|ws| - 1], part);
    }
  }

  // ---------------------------------------------------------------- records of jobs

  ghost predicate NoJob(ps: seq<Publication>, j: nat) {
    forall k :: 0 <= k < |ps| ==> ps[k].job != j
  }

  ghost predicate OutcomeFits(j: nat, r: EventResult, stored: seq<Publication>, published: seq<Publication>) {
    if r.ok then Publication(j, r.event) in published else NoJob(stored, j)
  }

  ghost predicate WorkerRecord(w: Worker, stored: seq<Publication>, published: seq<Publication>) {
    match w
    case Processing(j) => NoJob(stored, j)
    case Storing(j, _) => NoJob(stored, j)
    case Persisted(j, e) => Publication(j, e) in stored && NoJob(published, j)
    case Publishing(j, e, _) => Publication(j, e) in published
    case Replying(j, r) => OutcomeFits(j, r, stored, published)
    case _ => true
  }

  ghost predicate SentRecord(j: nat, ack: Chan<EventResult>, stored: seq<Publication>, published: seq<Publication>) {
    forall k :: 0 <= k < |ack.Sent()| ==> OutcomeFits(j, ack.Sent()[k], stored, published)
  }

  /** Every job and every event ID is stored at most once. */
  ghost predicate StoredInv(head: int, stored: seq<Publication>) {
    && (forall k :: 0 <= k < |stored| ==> stored[k].job < head && stored[k].event.eventID != [])
    && (forall i, k :: 0 <= i < k < |stored| ==>
          stored[i].job != stored[k].job && stored[i].event.eventID != stored[k].event.eventID)
  }

  function PersistedPart(w: Worker): multiset<Publication> {
    if w.Persisted? then multiset{Publication(w.job, w.event)} else multiset{}
  }

  ghost predicate RecordInv(s: State) {
    && StoredInv(|s.jobs| - |s.queue|, s.stored)
    && (forall w :: 0 <= w < |s.workers| ==> WorkerRecord(s.workers[w], s.stored, s.published))
    && (forall j :: 0 <= j < |s.jobs| ==> SentRecord(j, s.jobs[j].ack, s.stored, s.published))
    && multiset(s.published) + Fold(s.workers, PersistedPart) == multiset(s.stored)
  }

  lemma PublishedAreStored(s: State, p: Publication)
    requires RecordInv(s) && p in s.published
    ensures p in s.stored
  {
    assert p in multiset(s.published);
    assert p in multiset(s.stored);
  }

  lemma RecordSubmit(c: Config, s: State)
    requires JobsInv(c, s) && RecordInv(s) && s.gate.admission.Admitting?
    ensures RecordInv(AdmitStep(s, SubmitSend))
  {}

  lemma RecordTakeAck(s: State, j: nat)
    requires RecordInv(s) && j < |s.jobs| && s.jobs[j].ack.buffer != []
    ensures RecordInv(s.(jobs := WithAck(s.jobs, j, s.jobs[j].ack.Pop())))
  {
    assert s.jobs[j].ack.Pop().Sent() == s.jobs[j].ack.Sent();
  }

  /** The records of job `j` survive a step that adds to the logs only entries of another job. */
  lemma OutcomeFrame(j: nat, r: EventResult, s: State, t: State)
    requires OutcomeFits(j, r, s.stored, s.published)
    requires s.stored <= t.stored && s.published <= t.published
    requires forall k :: |s.stored| <= k < |t.stored| ==> t.stored[k].job != j
    ensures OutcomeFits(j, r, t.stored, t.published)
  {}

  lemma RecordWorkers(c: Config, s: State, w: nat, a: Action)
    requires JobsInv(c, s) && RecordInv(s) && WorkEnabled(s, w, a)
    ensures
      var t := WorkStep(c, s, w, a);
      forall v :: 0 <= v < |t.workers| ==> WorkerRecord(t.workers[v], t.stored, t.published)
  {
    var t := WorkStep(c, s, w, a);
    forall v | 0 <= v < |t.workers|
      ensures WorkerRecord(t.workers[v], t.stored, t.published)
    {
      if v == w {
        if a.Dequeue? {
          assert NoJob(s.stored, s.queue[0]);
        } else if a.Store? && a.ok {
          forall k | 0 <= k < |s.published| ensures s.published[k].job != s.workers[w].job {
            PublishedAreStored(s, s.published[k]);
          }
        }
      } else if s.workers[v].Replying? {
        OutcomeFrame(s.workers[v].job, s.workers[v].result, s, t);
      }
    }
  }

  lemma SentKept(j: nat, ack: Chan<EventResult>, s: State, t: State)
    requires SentRecord(j, ack, s.stored, s.published)
    requires s.stored <= t.stored && s.published <= t.published
    requires ack.Sent() != [] ==> forall k :: |s.stored| <= k < |t.stored| ==> t.stored[k].job != j
    ensures SentRecord(j, ack, t.stored, t.published)
  {
    forall k | 0 <= k < |ack.Sent()| ensures OutcomeFits(j, ack.Sent()[k], t.stored, t.published) {
      OutcomeFrame(j, ack.Sent()[k], s, t);
    }
  }

  lemma RecordSent(c: Config, s: State, w: nat, a: Action)
    requires JobsInv(c, s) && RecordInv(s) && WorkEnabled(s, w, a)
    ensures
      var t := WorkStep(c, s, w, a);
      forall j :: 0 <= j < |t.jobs| ==> SentRecord(j, t.jobs[j].ack, t.stored, t.published)
  {
    var t := WorkStep(c, s, w, a);
    var worker := s.workers[w];
    assert Busy(worker) ==> WorkerFits(worker, |s.jobs| - |s.queue|, s.jobs);
    forall j | 0 <= j < |t.jobs|
      ensures SentRecord(j, t.jobs[j].ack, t.stored, t.published)
    {
      if a.Reply? && worker.job == j {
        assert t.jobs[j].ack.Sent() == [worker.result];
      } else {
        SentKept(j, s.jobs[j].ack, s, t);
        assert t.jobs[j].ack.Sent() == s.jobs[j].ack.Sent();
      }
    }
  }

  lemma StoredWork(c: Config, s: State, w: nat, a: Action)
    requires JobsInv(c, s) && RecordInv(s) && WorkEnabled(s, w, a)
    ensures
      var t := WorkStep(c, s, w, a);
      StoredInv(|t.jobs| - |t.queue|, t.stored)
  {
    assert WorkerFits(s.workers[w], |s.jobs| - |s.queue|, s.jobs);
    assert WorkerRecord(s.workers[w], s.stored, s.published);
  }

  lemma PersistedAdvance(w: Worker, a: Action, next: nat, live: set<nat>)
    requires AtAction(w, a)
    ensures PersistedPart(Advance(w, a, next, live)) + multiset(PublishDelta(w, a))
         == PersistedPart(w) + multiset(StoreDelta(w, a))
  {}

  /** Replacing `x` by `y` in a sum keeps a balance that `p` and `q` shift by the difference of `x` and `y`. */
  lemma Balance<T>(log: multiset<T>, sum: multiset<T>, sum': multiset<T>, total: multiset<T>,
                   x: multiset<T>, y: multiset<T>, p: multiset<T>, q: multiset<T>)
    requires log + sum == total && sum' + x == sum + y && y + p == x + q
    ensures (log + p) + sum' == total + q
  {
    forall e ensures ((log + p) + sum')[e] == (total + q)[e] {
      assert (log + sum)[e] == total[e] && (sum' + x)[e] == (sum + y)[e] && (y + p)[e] == (x + q)[e];
    }
  }

  lemma PersistedWork(c: Config, s: State, w: nat, a: Action)
    requires WorkEnabled(s, w, a)
    requires multiset(s.published) + Fold(s.workers, PersistedPart) == multiset(s.stored)
    ensures
      var t := WorkStep(c, s, w, a);
      multiset(t.published) + Fold(t.workers, PersistedPart) == multiset(t.stored)
  {
    var worker := s.workers[w];
    var worker' := Advance(worker, a, if a.Dequeue? then s.queue[0] else 0, s.hub.live);
    PersistedAdvance(worker, a, if a.Dequeue? then s.queue[0] else 0, s.hub.live);
    FoldUpdate(s.workers, PersistedPart, w, worker');
    Balance(multiset(s.published), Fold(s.workers, PersistedPart), Fold(s.workers[w := worker'], PersistedPart),
            multiset(s.stored), PersistedPart(worker), PersistedPart(worker'),
            multiset(PublishDelta(worker, a)), multiset(StoreDelta(worker, a)));
  }

  lemma RecordWork(c: Config, s: State, w: nat, a: Action)
    requires JobsInv(c, s) && RecordInv(s) && WorkEnabled(s, w, a)
    ensures RecordInv(WorkStep(c, s, w, a))
  {
    RecordWorkers(c, s, w, a);
    RecordSent(c, s, w, a);
    StoredWork(c, s, w, a);
    PersistedWork(c, s, w, a);
  }
}

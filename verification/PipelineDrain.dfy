/** Shutdown: draining terminates, always can complete, and what Shutdown's return value means. */
module PipelineDrain {
  import opened Pipeline
  import opened PipelineJobs
  import opened PipelineTheorems

  // ---------------------------------------------------------------- counting jobs

  /** The jobs workers hold. */
  function HeldJobs(ws: seq<Worker>): set<nat> {
    if ws == [] then {}
    else HeldJobs(ws[..|ws| - 1]) + (if Busy(ws[|ws| - 1]) then {ws[|ws| - 1].job} else {})
  }

  function BusyCount(ws: seq<Worker>): nat {
    if ws == [] then 0 else BusyCount(ws[..|ws| - 1]) + (if Busy(ws[|ws| - 1]) then 1 else 0)
  }

  lemma {:induction false} HeldJobsAreHeld(ws: seq<Worker>, j: nat)
    ensures j in HeldJobs(ws) <==> IsHeld(ws, j)
  {
    if ws != [] {
      var n := |ws| - 1;
      HeldJobsAreHeld(ws[..n], j);
      if IsHeld(ws[..n], j) {
        var w :| 0 <= w < n && HoldsJob(ws[..n][w], j);
        assert HoldsJob(ws[w], j);
      }
      if HoldsJob(ws[n], j) {
        assert IsHeld(ws, j);
      }
      if IsHeld(ws, j) && !HoldsJob(ws[n], j) {
        var w :| 0 <= w < |ws| && HoldsJob(ws[w], j);
        assert HoldsJob(ws[..n][w], j);
      }
    }
  }

  lemma LastIsNew(ws: seq<Worker>)
    requires ws != [] && Busy(ws[|ws| - 1])
    requires forall w, v :: 0 <= w < v < |ws| && Busy(ws[w]) && Busy(ws[v]) ==> ws[w].job != ws[v].job
    ensures ws[|ws| - 1].job !in HeldJobs(ws[..|ws| - 1])
  {
    var n := |ws| - 1;
    HeldJobsAreHeld(ws[..n], ws[n].job);
    forall w | 0 <= w < n ensures !HoldsJob(ws[..n][w], ws[n].job) {
      assert ws[..n][w] == ws[w];
    }
  }

  lemma {:induction false} HeldJobsCount(ws: seq<Worker>)
    requires forall w, v :: 0 <= w < v < |ws| && Busy(ws[w]) && Busy(ws[v]) ==> ws[w].job != ws[v].job
    ensures |HeldJobs(ws)| == BusyCount(ws) <= |ws|
  {
    if ws != [] {
      var n := |ws| - 1;
      HeldJobsCount(ws[..n]);
      if Busy(ws[n]) {
        LastIsNew(ws);
      }
    }
  }

  /** The set {lo, ..., hi - 1}. */
  function Interval(lo: nat, hi: nat): (r: set<nat>)
    requires lo <= hi
    ensures |r| == hi - lo && forall j: nat :: j in r <==> lo <= j < hi
    decreases hi - lo
  {
    if lo == hi then {} else {lo} + Interval(lo + 1, hi)
  }

  /** The accepted jobs whose ack channel is not closed yet. */
  ghost function Unfinished(s: State): set<nat> {
    set j: nat | j < |s.jobs| && !s.jobs[j].ack.closed
  }

  lemma UnfinishedCount(c: Config, s: State)
    requires Inv(c, s)
    ensures |Unfinished(s)| == |s.queue| + BusyCount(s.workers)
    ensures BusyCount(s.workers) <= c.workerCount
  {
    var queued := Interval(|s.jobs| - |s.queue|, |s.jobs|);
    HeldJobsCount(s.workers);
    forall j: nat
      ensures j in Unfinished(s) <==> j in queued || j in HeldJobs(s.workers)
      ensures !(j in queued && j in HeldJobs(s.workers))
    {
      UnfinishedJob(c, s, j);
      HeldJobsAreHeld(s.workers, j);
    }
    DisjointCount(Unfinished(s), queued, HeldJobs(s.workers));
  }

  lemma DisjointCount(all: set<nat>, a: set<nat>, b: set<nat>)
    requires forall j: nat :: (j in all <==> j in a || j in b) && !(j in a && j in b)
    ensures |all| == |a| + |b|
  {
    assert all == a + b;
  }

  lemma UnfinishedJob(c: Config, s: State, j: nat)
    requires JobsInv(c, s)
    ensures var queued := |s.jobs| - |s.queue| <= j < |s.jobs|;
      && (j < |s.jobs| && !s.jobs[j].ack.closed <==> queued || IsHeld(s.workers, j))
      && !(queued && IsHeld(s.workers, j))
  {
    if IsHeld(s.workers, j) {
      var w :| 0 <= w < |s.workers| && HoldsJob(s.workers[w], j);
      assert WorkerFits(s.workers[w], |s.jobs| - |s.queue|, s.jobs);
    }
  }

  // ---------------------------------------------------------------- what Shutdown reports

  /** Shutdown returns 0 without error only when nothing is queued and every job has its one result. */
  lemma DrainedMeansDone(c: Config, s: State)
    requires ValidConfig(c) && Reachable(c, s) && Enabled(c, s, ReturnDrained)
    ensures s.queue == []
    ensures forall j :: 0 <= j < |s.jobs| ==> s.jobs[j].ack.closed && |s.jobs[j].ack.Sent()| == 1
  {
    ReachableInv(c, s);
    ExitedMeansDone(c, s);
  }

  lemma ExitedMeansDone(c: Config, s: State)
    requires ValidConfig(c) && Inv(c, s) && AllExited(s.workers)
    ensures s.queue == []
    ensures forall j :: 0 <= j < |s.jobs| ==> s.jobs[j].ack.closed && |s.jobs[j].ack.Sent()| == 1
  {
    assert s.workers[0].Exited?;
    forall j | 0 <= j < |s.jobs|
      ensures !IsHeld(s.workers, j)
    {}
  }

  /** On a deadline Shutdown returns the queue length: the unfinished jobs less those held by workers.
      So it counts the unpersisted events exactly if and only if no worker holds a job. */
  lemma DeadlineCount(c: Config, s: State)
    requires Reachable(c, s) && Enabled(c, s, ReturnDeadline)
    ensures |Unfinished(s)| == |s.queue| + BusyCount(s.workers) <= |s.queue| + c.workerCount
    ensures |s.queue| == |Unfinished(s)| <==> forall w :: 0 <= w < |s.workers| ==> !Busy(s.workers[w])
  {
    ReachableInv(c, s);
    UnfinishedCount(c, s);
    NoneBusy(s.workers);
  }

  lemma {:induction false} NoneBusy(ws: seq<Worker>)
    ensures BusyCount(ws) == 0 <==> forall w :: 0 <= w < |ws| ==> !Busy(ws[w])
  {
    if ws != [] {
      var n := |ws| - 1;
      NoneBusy(ws[..n]);
      assert forall w :: 0 <= w < n ==> ws[..n][w] == ws[w];
    }
  }

  // ---------------------------------------------------------------- bounded overtaking

  /** The earlier accepted jobs that are still unfinished. */
  ghost function Overtaken(s: State, j: nat): set<nat> {
    set i: nat | i < j && i < |s.jobs| && !s.jobs[i].ack.closed
  }

  /** Whenever a result is sent, at most workerCount - 1 earlier jobs are still unfinished. */
  lemma BoundedOvertaking(c: Config, s: State, w: nat)
    requires Reachable(c, s) && Enabled(c, s, Work(w, Reply))
    ensures |Overtaken(s, s.workers[w].job)| <= c.workerCount - 1
  {
    ReachableInv(c, s);
    var j := s.workers[w].job;
    var head := |s.jobs| - |s.queue|;
    var held := HeldJobs(s.workers);
    HeldJobsCount(s.workers);
    HeldJobsAreHeld(s.workers, j);
    assert WorkerFits(s.workers[w], head, s.jobs);
    assert HoldsJob(s.workers[w], j);
    forall i | i in Overtaken(s, j) ensures i in held - {j} {
      HeldJobsAreHeld(s.workers, i);
    }
    Contained(Overtaken(s, j), held - {j});
  }

  lemma {:induction false} Contained(a: set<nat>, b: set<nat>)
    requires a <= b
    ensures |a| <= |b|
  {
    assert b == a + (b - a);
  }

  // ---------------------------------------------------------------- draining terminates

  function Stage(w: Worker): nat {
    match w
    case Processing(_) => 7
    case Storing(_, _) => 6
    case Persisted(_, _) => 5
    case Publishing(_, _, _) => 4
    case Replying(_, _) => 3
    case Releasing(_) => 2
    case Idle => 1
    case Exited => 0
  }

  function Visits(w: Worker): nat {
    if w.Publishing? then |w.pending| else 0
  }

  function Sum(ws: seq<Worker>, f: Worker -> nat): nat {
    if ws == [] then 0 else Sum(ws[..|ws| - 1], f) + f(ws[|ws| - 1])
  }

  lemma {:induction false} SumUpdate(ws: seq<Worker>, f: Worker -> nat, i: nat, w: Worker)
    requires i < |ws|
    ensures Sum(ws[i := w], f) + f(ws[i]) == Sum(ws, f) + f(w)
  {
    var n := |ws| - 1;
    if i == n {
      assert ws[i := w][..n] == ws[..n];
    } else {
      assert ws[i := w][..n] == ws[..n][i := w];
      assert ws[..n][i] == ws[i];
      SumUpdate(ws[..n], f, i, w);
    }
  }

  /** The lexicographic rank of what is left to do after the close. */
  datatype Rank = Rank(queued: nat, stages: nat, visits: nat)

  function RankOf(s: State): Rank {
    Rank(|s.queue|, Sum(s.workers, Stage), Sum(s.workers, Visits))
  }

  predicate Below(a: Rank, b: Rank) {
    a.queued < b.queued
    || (a.queued == b.queued && (a.stages < b.stages || (a.stages == b.stages && a.visits < b.visits)))
  }

  /** After the close every worker action lowers the rank and nothing else changes it. */
  lemma DrainRank(c: Config, s: State, l: Label)
    requires Reachable(c, s) && s.gate.jobsClosed && Enabled(c, s, l)
    ensures Apply(c, s, l).gate.jobsClosed
    ensures l.Work? ==> Below(RankOf(Apply(c, s, l)), RankOf(s))
    ensures !l.Work? ==> RankOf(Apply(c, s, l)) == RankOf(s)
  {
    ReachableInv(c, s);
    DrainRankInv(c, s, l);
  }

  lemma AdvanceRank(w: Worker, a: Action, next: nat, live: set<nat>)
    requires AtAction(w, a) && !a.Dequeue?
    ensures
      var w' := Advance(w, a, next, live);
      Stage(w') < Stage(w) || (Stage(w') == Stage(w) && Visits(w') < Visits(w))
  {}

  lemma DrainRankInv(c: Config, s: State, l: Label)
    requires Inv(c, s) && s.gate.jobsClosed && Enabled(c, s, l)
    ensures Apply(c, s, l).gate.jobsClosed
    ensures l.Work? ==> Below(RankOf(Apply(c, s, l)), RankOf(s))
    ensures !l.Work? ==> RankOf(Apply(c, s, l)) == RankOf(s)
  {
    NoPanicStep(c, s, l);
    if l.Work? {
      var worker := s.workers[l.w];
      var next := if l.a.Dequeue? then s.queue[0] else 0;
      var worker' := Advance(worker, l.a, next, s.hub.live);
      if !l.a.Dequeue? {
        AdvanceRank(worker, l.a, next, s.hub.live);
        SumUpdate(s.workers, Stage, l.w, worker');
        SumUpdate(s.workers, Visits, l.w, worker');
      }
    }
  }

  /** Until every worker has exited, some worker can act, or the subscription being closed can. */
  lemma DrainProgress(c: Config, s: State) returns (l: Label)
    requires Inv(c, s) && s.gate.jobsClosed && !AllExited(s.workers)
    ensures Enabled(c, s, l)
    ensures l.Work? || l == Monitor(UnsubscribeClose)
  {
    if s.hub.closing != [] {
      l := Monitor(UnsubscribeClose);
      return;
    }
    var w :| 0 <= w < |s.workers| && !s.workers[w].Exited?;
    var worker := s.workers[w];
    assert WorkerFits(worker, |s.jobs| - |s.queue|, s.jobs);
    match worker
    case Idle => l := Work(w, if s.queue != [] then Dequeue else Exit);
    case Processing(j) => l := Work(w, Process(s.jobs[j].event, false));
    case Storing(_, _) => l := Work(w, Store(false));
    case Persisted(_, _) => l := Work(w, PublishBegin);
    case Publishing(_, _, pending) =>
      if pending == {} {
        l := Work(w, PublishEnd);
      } else {
        var sub :| sub in pending;
        l := Work(w, PublishTo(sub));
      }
    case Replying(_, _) => l := Work(w, Reply);
    case Releasing(_) => l := Work(w, Release);
  }

  lemma {:induction false} RunPrepend(c: Config, s: State, l: Label, ls: seq<Label>)
    requires Enabled(c, s, l)
    ensures Run(c, s, [l] + ls) == Run(c, Apply(c, s, l), ls)
  {
    if ls == [] {
      assert [l] + ls == [] + [l];
      RunSnoc(c, s, [], l);
    } else {
      var n := |ls| - 1;
      assert [l] + ls == ([l] + ls[..n]) + [ls[n]];
      RunPrepend(c, s, l, ls[..n]);
      RunSnoc(c, s, [l] + ls[..n], ls[n]);
    }
  }

  lemma RunSnoc(c: Config, s: State, ls: seq<Label>, l: Label)
    ensures Run(c, s, ls + [l])
         == match Run(c, s, ls)
            case None => None
            case Some(t) => if Enabled(c, t, l) then Some(Apply(c, t, l)) else None
  {
    assert (ls + [l])[..|ls|] == ls;
  }

  /** From any state after the close, the workers alone can exit with every accepted job answered. */
  lemma {:induction false} DrainCompletes(c: Config, s: State) returns (ls: seq<Label>, t: State)
    requires ValidConfig(c) && Inv(c, s) && s.gate.jobsClosed
    ensures Run(c, s, ls) == Some(t) && AllExited(t.workers)
    ensures forall k :: 0 <= k < |ls| ==> ls[k].Work? || ls[k] == Monitor(UnsubscribeClose)
    ensures t.queue == [] && |t.jobs| == |s.jobs|
    ensures forall j :: 0 <= j < |t.jobs| ==> t.jobs[j].ack.closed && |t.jobs[j].ack.Sent()| == 1
    decreases RankOf(s).queued, RankOf(s).stages, RankOf(s).visits, |s.hub.closing|
  {
    if AllExited(s.workers) {
      ls, t := [], s;
      ExitedMeansDone(c, s);
    } else {
      var l := DrainProgress(c, s);
      NoPanicStep(c, s, l);
      StepInv(c, s, l);
      DrainRankInv(c, s, l);
      var rest;
      rest, t := DrainCompletes(c, Apply(c, s, l));
      RunPrepend(c, s, l, rest);
      ls := [l] + rest;
    }
  }
}

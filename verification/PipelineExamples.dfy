/** Runs of the pipeline in which a promise of the design is not met. */
module PipelineExamples {
  import opened Contracts
  import opened Channels
  import opened Pipeline
  import opened PipelineDrain
  import opened PipelineSections

  /** A job is submitted, a worker takes it, and Shutdown begins. */
  function Taken(c: Config, event: Event): State
    requires ValidConfig(c)
  {
    Stopped(AtWorker(Init(c).(jobs := [Job(event, Open())]), 0, Processing(0)))
  }

  /** Shutdown can return at its deadline with a count of 0 while an accepted event has no result. */
  lemma DeadlineUndercounts(c: Config, event: Event)
    requires ValidConfig(c)
    ensures Reachable(c, Taken(c, event)) && Enabled(c, Taken(c, event), ReturnDeadline)
    ensures |Taken(c, event).queue| == 0 && Unfinished(Taken(c, event)) == {0}
  {
    var s := Init(c);
    assert Run(c, s, []) == Some(s);
    var submitted := Submitted(s, event, Accepted(0));
    SubmitIsRun(c, s, 0, event, Accepted(0));
    ReachableLeads(c, s, submitted);
    LeadsHere(c, submitted);
    LeadsOn(c, submitted, submitted, Work(0, Dequeue));
    var taken := Apply(c, submitted, Work(0, Dequeue));
    ReachableLeads(c, submitted, taken);
    StopIsRun(c, taken);
    ReachableLeads(c, taken, Stopped(taken));
    assert [] + [Job(event, Open())] == [Job(event, Open())];
    assert [0][1..] == [];
    assert Stopped(taken) == Taken(c, event);
  }
}

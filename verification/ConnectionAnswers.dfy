/** What each response of a connection says about the job submitted for its message, and the other way round. */
module ConnectionAnswers {
  import opened Contracts
  import opened Texts
  import opened Pipeline
  import opened PipelineTheorems
  import opened Connections
  import opened ConnectionTheorems
  import opened ConnectionAcks

  // ---------------------------------------------------------------- the invariant

  /** Job `j` was submitted for message `k` of connection `i`. */
  predicate SubmittedFor(i: nat, k: nat, jobs: seq<Job>, owners: seq<Owner>, j: nat) {
    j < |owners| && j < |jobs| && owners[j].conn == i && owners[j].number == k
  }

  ghost predicate Unsubmitted(i: nat, k: nat, jobs: seq<Job>, owners: seq<Owner>) {
    forall j :: !SubmittedFor(i, k, jobs, owners, j)
  }

  /** What the connection has received on the job's ack channel is the one given result. */
  predicate Received(jobs: seq<Job>, j: nat, r: EventResult) {
    j < |jobs| && jobs[j].ack.received == [r]
  }

  ghost predicate Acknowledged(i: nat, k: nat, eventID: Text, jobs: seq<Job>, owners: seq<Owner>) {
    exists j, event :: SubmittedFor(i, k, jobs, owners, j) && Received(jobs, j, EventResult(event, true))
                       && event.eventID == eventID
  }

  ghost predicate Rejected(i: nat, k: nat, jobs: seq<Job>, owners: seq<Owner>) {
    exists j, event :: SubmittedFor(i, k, jobs, owners, j) && Received(jobs, j, EventResult(event, false))
  }

  ghost predicate GivenUp(i: nat, k: nat, jobs: seq<Job>, owners: seq<Owner>) {
    exists j: nat :: SubmittedFor(i, k, jobs, owners, j) && jobs[j].ack.received == []
  }

  /** The response is the one its message's job calls for. */
  ghost predicate AnswerFits(i: nat, k: nat, m: Message, jobs: seq<Job>, owners: seq<Owner>) {
    match m
    case Ack(_, eventID) => Acknowledged(i, k, eventID, jobs, owners)
    case Error(_, code) =>
      (match code
       case Mapped => Rejected(i, k, jobs, owners)
       case Internal => GivenUp(i, k, jobs, owners)
       case StorageUnavailable => Unsubmitted(i, k, jobs, owners)
       case MissingRequiredField => Unsubmitted(i, k, jobs, owners)
       case InvalidMessage => false)
    case Delivery(_) => false
  }

  ghost predicate ConnAnswers(i: nat, conn: Conn, jobs: seq<Job>, owners: seq<Owner>) {
    && (forall k :: 0 <= k < |conn.answered| ==> AnswerFits(i, k, conn.answered[k], jobs, owners))
    && (conn.reader.Responding? && !conn.reader.last ==>
          AnswerFits(i, |conn.answered|, conn.reader.message, jobs, owners))
  }

  ghost predicate AnswerInv(s: System) {
    forall i :: 0 <= i < |s.conns| ==> ConnAnswers(i, s.conns[i], s.pipe.jobs, s.owners)
  }

  // ---------------------------------------------------------------- frames

  /** Jobs submitted for messages before `n` of connection `i` have received what they had, and none is new. */
  ghost predicate PastKept(i: nat, n: nat, jobs: seq<Job>, jobs': seq<Job>, owners: seq<Owner>, owners': seq<Owner>) {
    && |jobs| <= |jobs'| && owners <= owners' && |owners| == |jobs|
    && (forall j :: 0 <= j < |jobs| && owners[j].conn == i && owners[j].number < n ==>
          jobs'[j].ack.received == jobs[j].ack.received)
    && (forall j :: |owners| <= j < |owners'| ==> owners'[j].conn != i || owners'[j].number >= n)
  }

  lemma AnswerFrame(i: nat, k: nat, n: nat, m: Message, jobs: seq<Job>, jobs': seq<Job>,
                    owners: seq<Owner>, owners': seq<Owner>)
    requires AnswerFits(i, k, m, jobs, owners) && k < n && PastKept(i, n, jobs, jobs', owners, owners')
    ensures AnswerFits(i, k, m, jobs', owners')
  {
    match m
    case Ack(_, eventID) =>
      var j, event :| SubmittedFor(i, k, jobs, owners, j) && Received(jobs, j, EventResult(event, true))
                      && event.eventID == eventID;
      assert SubmittedFor(i, k, jobs', owners', j) && Received(jobs', j, EventResult(event, true));
    case Error(_, code) =>
      if code.Mapped? {
        var j, event :| SubmittedFor(i, k, jobs, owners, j) && Received(jobs, j, EventResult(event, false));
        assert SubmittedFor(i, k, jobs', owners', j) && Received(jobs', j, EventResult(event, false));
      } else if code.Internal? {
        var j: nat :| SubmittedFor(i, k, jobs, owners, j) && jobs[j].ack.received == [];
        assert SubmittedFor(i, k, jobs', owners', j);
      } else {
        StillUnsubmitted(i, k, n, jobs, jobs', owners, owners');
      }
  }

  lemma StillUnsubmitted(i: nat, k: nat, n: nat, jobs: seq<Job>, jobs': seq<Job>, owners: seq<Owner>, owners': seq<Owner>)
    requires Unsubmitted(i, k, jobs, owners) && k < n && PastKept(i, n, jobs, jobs', owners, owners')
    ensures Unsubmitted(i, k, jobs', owners')
  {
    forall j ensures !SubmittedFor(i, k, jobs', owners', j) {
      assert !SubmittedFor(i, k, jobs, owners, j);
    }
  }

  /** How many messages of a connection have, or may be about to have, a response. */
  function Decided(conn: Conn): nat {
    |conn.answered| + (if conn.reader.Responding? && !conn.reader.last then 1 else 0)
  }

  lemma ConnFrameAnswers(i: nat, conn: Conn, jobs: seq<Job>, jobs': seq<Job>, owners: seq<Owner>, owners': seq<Owner>)
    requires ConnAnswers(i, conn, jobs, owners) && PastKept(i, Decided(conn), jobs, jobs', owners, owners')
    ensures ConnAnswers(i, conn, jobs', owners')
  {
    forall k | 0 <= k < |conn.answered| ensures AnswerFits(i, k, conn.answered[k], jobs', owners') {
      AnswerFrame(i, k, Decided(conn), conn.answered[k], jobs, jobs', owners, owners');
    }
    if conn.reader.Responding? && !conn.reader.last {
      AnswerFrame(i, |conn.answered|, Decided(conn), conn.reader.message, jobs, jobs', owners, owners');
    }
  }

  // ---------------------------------------------------------------- the connection's own moves

  /** The message the reader has just decided on fits. */
  ghost predicate DecisionFits(i: nat, conn: Conn, next: Reader, jobs: seq<Job>, owners: seq<Owner>) {
    next.Responding? && !next.last && next != conn.reader ==> AnswerFits(i, |conn.answered|, next.message, jobs, owners)
  }

  /** Reading a blank request. */
  lemma ReadDecides(size: nat, i: nat, s: State, conn: Conn, requestID: Text, event: Event, owners: seq<Owner>)
    requires conn.reader.Reading? && NumbersBelow(i, owners, |conn.answered|)
    ensures DecisionFits(i, conn, NextReader(size, s, conn, ReadEvent(requestID, event)), s.jobs, owners)
  {
    forall j ensures !SubmittedFor(i, |conn.answered|, s.jobs, owners, j) {}
  }

  /** Being refused. */
  lemma RefusalDecides(size: nat, i: nat, s: State, conn: Conn, m: Move, jobs: seq<Job>, owners: seq<Owner>)
    requires conn.reader.Admitted? && (m.CheckAccepting? || m.QueueFull?) && NumbersBelow(i, owners, |conn.answered|)
    ensures DecisionFits(i, conn, NextReader(size, s, conn, m), jobs, owners)
  {
    forall j ensures !SubmittedFor(i, |conn.answered|, jobs, owners, j) {}
  }

  /** Taking the result. */
  lemma TakeDecides(size: nat, i: nat, s: State, conn: Conn, jobs: seq<Job>, owners: seq<Owner>)
    requires conn.reader.Awaiting? && SubmittedFor(i, |conn.answered|, jobs, owners, conn.reader.job)
    requires conn.reader.job < |s.jobs| && s.jobs[conn.reader.job].ack.buffer != []
    requires Received(jobs, conn.reader.job, s.jobs[conn.reader.job].ack.buffer[0])
    ensures DecisionFits(i, conn, NextReader(size, s, conn, TakeResult), jobs, owners)
  {
    var r := s.jobs[conn.reader.job].ack.buffer[0];
    assert r == EventResult(r.event, r.ok);
  }

  /** Giving up. */
  lemma TimeoutDecides(size: nat, i: nat, s: State, conn: Conn, m: Move, owners: seq<Owner>)
    requires conn.reader.Awaiting? && (m.Timeout? || m.ResultClosed?)
    requires SubmittedFor(i, |conn.answered|, s.jobs, owners, conn.reader.job) && s.jobs[conn.reader.job].ack.received == []
    ensures DecisionFits(i, conn, NextReader(size, s, conn, m), s.jobs, owners)
  {}

  /** A connection that has decided, or that responds, keeps its records. */
  lemma MovedAnswers(size: nat, i: nat, s: State, conn: Conn, m: Move, jobs: seq<Job>, owners: seq<Owner>)
    requires AtMove(conn.reader, m) && MoveGuard(s, conn, m) && ConnAnswers(i, conn, jobs, owners)
    requires m.TakeResult? ==> conn.reader.job < |s.jobs| && s.jobs[conn.reader.job].ack.buffer != []
    requires m.Next? ==> conn.reader.sub < |s.hub.subs| && s.hub.subs[conn.reader.sub].events.buffer != []
    requires DecisionFits(i, conn, NextReader(size, s, conn, m), jobs, owners)
    ensures ConnAnswers(i, NextConn(size, s, conn, m), jobs, owners)
  {}

  // ---------------------------------------------------------------- steps and runs

  /** A pipeline step receives from no job of a connection but the one it awaits. */
  lemma StepKeepsPast(i: nat, n: nat, s: State, t: State, l: Label, owners: seq<Owner>, owners': seq<Owner>)
    requires JobsGrow(s.jobs, t.jobs, l) && owners <= owners' && |owners| == |s.jobs|
    requires forall j :: 0 <= j < |owners| && owners[j].conn == i && owners[j].number < n ==> l != TakeAck(j)
    requires forall j :: |owners| <= j < |owners'| ==> owners'[j].conn != i || owners'[j].number >= n
    ensures PastKept(i, n, s.jobs, t.jobs, owners, owners')
  {}

  lemma LabelPast(c: Config, i: nat, s: State, conn: Conn, m: Move, l: Label, owners: seq<Owner>, k: nat, n: nat)
    requires Inv(c, s) && Enabled(c, s, l) && |owners| == |s.jobs|
    requires AtMove(conn.reader, m) && PipeLabel(conn.reader, i, m) == Pipeline.Some(l)
    requires ReaderAcks(i, conn.reader, conn.asked, |conn.answered|, s.gate.admission, s.jobs, owners)
    requires k == i ==> n <= |conn.answered|
    ensures PastKept(k, n, s.jobs, Apply(c, s, l).jobs, owners,
                     if m.Enqueue? then owners + [Owner(i, conn.reader.requestID, |conn.answered|)] else owners)
  {
    PipeFrame(c, s, l);
    StepKeepsPast(k, n, s, Apply(c, s, l), l, owners,
                  if m.Enqueue? then owners + [Owner(i, conn.reader.requestID, |conn.answered|)] else owners);
  }

  /** What the reader decides on when it moves fits the pipeline after the move. */
  lemma MoveDecides(c: Config, size: nat, s: State, i: nat, conn: Conn, m: Move, owners: seq<Owner>, watchers: seq<nat>)
    requires Inv(c, s) && |owners| == |s.jobs| && AtMove(conn.reader, m) && MoveGuard(s, conn, m)
    requires ReaderFits(i, conn.reader, s, owners, watchers) && ConnAcks(i, conn, s.gate.admission, s.jobs, owners)
    requires PipeLabel(conn.reader, i, m).Some? ==> Enabled(c, s, PipeLabel(conn.reader, i, m).value)
    requires m.TakeResult? ==> conn.reader.job < |s.jobs| && s.jobs[conn.reader.job].ack.buffer != []
    requires m.Next? ==> conn.reader.sub < |s.hub.subs| && s.hub.subs[conn.reader.sub].events.buffer != []
    ensures
      var t := if PipeLabel(conn.reader, i, m).Some? then Apply(c, s, PipeLabel(conn.reader, i, m).value) else s;
      DecisionFits(i, conn, NextReader(size, s, conn, m), t.jobs,
                   if m.Enqueue? then owners + [Owner(i, conn.reader.requestID, |conn.answered|)] else owners)
  {
    match m
    case ReadEvent(requestID, event) => ReadDecides(size, i, s, conn, requestID, event, owners);
    case CheckAccepting => RefusalDecides(size, i, s, conn, m, Apply(c, s, Admit(SubmitCheck)).jobs, owners);
    case QueueFull => RefusalDecides(size, i, s, conn, m, Apply(c, s, Admit(SubmitFull)).jobs, owners);
    case TakeResult =>
      NoPanicStep(c, s, TakeAck(conn.reader.job));
      TakeDecides(size, i, s, conn, Apply(c, s, TakeAck(conn.reader.job)).jobs, owners);
    case Timeout => TimeoutDecides(size, i, s, conn, m, owners);
    case ResultClosed => TimeoutDecides(size, i, s, conn, m, owners);
    case _ =>
  }

  lemma MoverAnswers(c: Config, size: nat, s: System, i: nat, m: Move)
    requires SysInv(c, size, s) && AckInv(s) && AnswerInv(s) && MoveEnabled(c, s, i, m) && !MovePanics(s.conns[i], m)
    ensures var t := MoveStep(c, size, s, i, m);
      ConnAnswers(i, t.conns[i], t.pipe.jobs, t.owners)
  {
    var conn := s.conns[i];
    assert ConnFits(size, i, conn, s.pipe, s.owners, s.watchers);
    assert ConnAcks(i, conn, s.pipe.gate.admission, s.pipe.jobs, s.owners);
    MoveReady(c, s, i, m);
    MoveParts(c, size, s, i, m);
    var t := MoveStep(c, size, s, i, m);
    match PipeLabel(conn.reader, i, m) {
      case None =>
      case Some(l) =>
        LabelPast(c, i, s.pipe, conn, m, l, s.owners, i, Decided(conn));
        ConnFrameAnswers(i, conn, s.pipe.jobs, t.pipe.jobs, s.owners, t.owners);
    }
    MoveDecides(c, size, s.pipe, i, conn, m, s.owners, s.watchers);
    MovedAnswers(size, i, s.pipe, conn, m, t.pipe.jobs, t.owners);
  }

  lemma OthersAnswers(c: Config, size: nat, s: System, k: nat, m: Move, i: nat)
    requires SysInv(c, size, s) && AckInv(s) && AnswerInv(s) && MoveEnabled(c, s, k, m) && !MovePanics(s.conns[k], m)
    requires i < |s.conns| && i != k
    ensures var t := MoveStep(c, size, s, k, m);
      t.conns[i] == s.conns[i] && ConnAnswers(i, s.conns[i], t.pipe.jobs, t.owners)
  {
    assert ConnAcks(k, s.conns[k], s.pipe.gate.admission, s.pipe.jobs, s.owners);
    assert ConnAnswers(i, s.conns[i], s.pipe.jobs, s.owners);
    MoveReady(c, s, k, m);
    MoveParts(c, size, s, k, m);
    var t := MoveStep(c, size, s, k, m);
    match PipeLabel(s.conns[k].reader, k, m)
    case None =>
    case Some(l) =>
      LabelPast(c, k, s.pipe, s.conns[k], m, l, s.owners, i, Decided(s.conns[i]));
      ConnFrameAnswers(i, s.conns[i], s.pipe.jobs, t.pipe.jobs, s.owners, t.owners);
  }

  lemma MoveAnswers(c: Config, size: nat, s: System, k: nat, m: Move)
    requires SysInv(c, size, s) && AckInv(s) && AnswerInv(s) && MoveEnabled(c, s, k, m)
    ensures AnswerInv(MoveStep(c, size, s, k, m))
  {
    MoveNeverPanics(c, size, s, k, m);
    var t := MoveStep(c, size, s, k, m);
    forall i | 0 <= i < |t.conns| ensures ConnAnswers(i, t.conns[i], t.pipe.jobs, t.owners) {
      if i == k {
        MoverAnswers(c, size, s, k, m);
      } else {
        OthersAnswers(c, size, s, k, m, i);
      }
    }
  }

  lemma BackgroundAnswers(c: Config, size: nat, s: System, l: Label)
    requires SysInv(c, size, s) && AnswerInv(s) && IsInternal(l) && Enabled(c, s.pipe, l)
    ensures AnswerInv(s.(pipe := Apply(c, s.pipe, l)))
  {
    var t := Apply(c, s.pipe, l);
    PipeFrame(c, s.pipe, l);
    forall i | 0 <= i < |s.conns| ensures ConnAnswers(i, s.conns[i], t.jobs, s.owners) {
      StepKeepsPast(i, Decided(s.conns[i]), s.pipe, t, l, s.owners, s.owners);
      ConnFrameAnswers(i, s.conns[i], s.pipe.jobs, t.jobs, s.owners, s.owners);
    }
  }

  lemma ConnectAnswers(c: Config, size: nat, s: System, first: First)
    requires AnswerInv(s) && !s.panicked
    ensures AnswerInv(SysApply(c, size, s, Connect(first)))
  {
    if Handshake(first).Some? {
      assert ConnAnswers(|s.conns|, NewConn(Handshake(first).value), s.pipe.jobs, s.owners);
    }
  }

  lemma {:induction false} AnswerRun(c: Config, size: nat, es: seq<Step>, t: System)
    requires SysRun(c, size, es) == Pipeline.Some(t)
    ensures SysInv(c, size, t) && AckInv(t) && AnswerInv(t)
  {
    AckRun(c, size, es, t);
    if es != [] {
      var u := SysRun(c, size, es[..|es| - 1]).value;
      var e := es[|es| - 1];
      AnswerRun(c, size, es[..|es| - 1], u);
      match e
      case Connect(first) => ConnectAnswers(c, size, u, first);
      case Background(l) => BackgroundAnswers(c, size, u, l);
      case By(k, m) => MoveAnswers(c, size, u, k, m);
    }
  }

  // ---------------------------------------------------------------- main results

  lemma OneJob(i: nat, k: nat, jobs: seq<Job>, owners: seq<Owner>, j: nat, j': nat)
    requires DistinctOwners(owners) && SubmittedFor(i, k, jobs, owners, j) && SubmittedFor(i, k, jobs, owners, j')
    ensures j == j'
  {}

  /** The k-th response of a connection is exactly the one its k-th message's job calls for.  It is an ack if
      and only if an error-free result of the job was received; the mapped error if and only if a failed one
      was; the internal error if and only if the job has given no result to the connection; and the message was
      never submitted if and only if the response is one of the two refusals, of which a missing request ID
      gets its own. */
  lemma ResponseExactly(c: Config, size: nat, s: System, i: nat, k: nat)
    requires SysReachable(c, size, s) && i < |s.conns| && k < |s.conns[i].answered|
    ensures k < |s.conns[i].asked|
    ensures var m, jobs, owners := s.conns[i].answered[k], s.pipe.jobs, s.owners;
      && (m.Ack? <==> exists eventID :: Acknowledged(i, k, eventID, jobs, owners))
      && (m.Ack? ==> Acknowledged(i, k, m.eventID, jobs, owners))
      && (m.Error? && m.code == Mapped <==> Rejected(i, k, jobs, owners))
      && (m.Error? && m.code == Internal <==> GivenUp(i, k, jobs, owners))
      && (m.Error? && (m.code == StorageUnavailable || m.code == MissingRequiredField) <==> Unsubmitted(i, k, jobs, owners))
      && (m.Error? && m.code == MissingRequiredField && m.requestID == [] <==> Blank(s.conns[i].asked[k].requestID))
  {
    var es :| SysRun(c, size, es) == Pipeline.Some(s);
    AnswerRun(c, size, es, s);
    OneResponsePerEvent(c, size, s, i);
    var conn := s.conns[i];
    assert ConnAnswers(i, conn, s.pipe.jobs, s.owners);
    ExclusiveAnswers(i, k, conn.answered[k], s.pipe.jobs, s.owners);
  }

  /** The four cases exclude one another. */
  lemma ExclusiveAnswers(i: nat, k: nat, m: Message, jobs: seq<Job>, owners: seq<Owner>)
    requires DistinctOwners(owners) && AnswerFits(i, k, m, jobs, owners)
    ensures m.Ack? <==> exists eventID :: Acknowledged(i, k, eventID, jobs, owners)
    ensures m.Error? && m.code == Mapped <==> Rejected(i, k, jobs, owners)
    ensures m.Error? && m.code == Internal <==> GivenUp(i, k, jobs, owners)
    ensures m.Error? && (m.code == StorageUnavailable || m.code == MissingRequiredField) <==> Unsubmitted(i, k, jobs, owners)
  {
    forall j, j' | SubmittedFor(i, k, jobs, owners, j) && SubmittedFor(i, k, jobs, owners, j') ensures j == j' {
      OneJob(i, k, jobs, owners, j, j');
    }
  }
}

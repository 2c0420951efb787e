/** Which event message an ack answers, and that no event ID is acknowledged twice. */
module ConnectionAcks {
  import opened Contracts
  import opened Pipeline
  import opened PipelineJobs
  import opened PipelineTheorems
  import opened Connections
  import opened ConnectionTheorems

  // ---------------------------------------------------------------- the invariant

  /** The message acknowledges the result of a job submitted for message `k` of connection `i`. */
  predicate BackedBy(i: nat, k: nat, m: Message, jobs: seq<Job>, owners: seq<Owner>, j: nat, event: Event) {
    && m.Ack?
    && j < |owners| && j < |jobs|
    && owners[j].conn == i && owners[j].number == k
    && event.eventID == m.eventID
    && EventResult(event, true) in jobs[j].ack.Sent()
  }

  ghost predicate BackedAt(i: nat, k: nat, m: Message, jobs: seq<Job>, owners: seq<Owner>) {
    exists j, event :: BackedBy(i, k, m, jobs, owners, j, event)
  }

  /** Jobs carry the events of the messages they were submitted for. */
  ghost predicate JobsFit(i: nat, asked: seq<Asked>, jobs: seq<Job>, owners: seq<Owner>) {
    forall j :: 0 <= j < |owners| && j < |jobs| && owners[j].conn == i ==>
      && owners[j].number < |asked|
      && asked[owners[j].number] == Asked(owners[j].requestID, jobs[j].event)
  }

  ghost predicate NumbersBelow(i: nat, owners: seq<Owner>, bound: nat) {
    forall j :: 0 <= j < |owners| && owners[j].conn == i ==> owners[j].number < bound
  }

  /** No event message is submitted twice. */
  ghost predicate DistinctOwners(owners: seq<Owner>) {
    forall j, k :: 0 <= j < k < |owners| ==> owners[j].conn != owners[k].conn || owners[j].number != owners[k].number
  }

  /** The message being worked on may have been submitted. */
  predicate MaybeSubmitted(r: Reader) {
    r.Awaiting? || (r.Responding? && !r.last)
  }

  ghost predicate ReaderAcks(i: nat, r: Reader, asked: seq<Asked>, n: nat, admission: Admission, jobs: seq<Job>,
                             owners: seq<Owner>)
  {
    match r
    case Offering(requestID, event) => n < |asked| && asked[n] == Asked(requestID, event)
    case Admitted(requestID) =>
      && (admission.Submitting? || admission.Admitting?)
      && n < |asked| && asked[n] == Asked(requestID, admission.event)
    case Awaiting(_, j) => j < |owners| && owners[j].conn == i && owners[j].number == n
    case Responding(m, last) => m.Ack? ==> !last && BackedAt(i, n, m, jobs, owners)
    case _ => true
  }

  ghost predicate AnswersBacked(i: nat, answered: seq<Message>, jobs: seq<Job>, owners: seq<Owner>) {
    forall k :: 0 <= k < |answered| && answered[k].Ack? ==> BackedAt(i, k, answered[k], jobs, owners)
  }

  /** Every queued ack is the response at its place, and places increase. */
  ghost predicate PlacesFit(sent: seq<Message>, places: seq<nat>, answered: seq<Message>) {
    && |places| == |sent|
    && (forall q :: 0 <= q < |sent| && sent[q].Ack? ==> places[q] < |answered| && answered[places[q]] == sent[q])
    && (forall q, r :: 0 <= q < r < |sent| && sent[q].Ack? && sent[r].Ack? ==> places[q] < places[r])
  }

  ghost predicate ConnAcks(i: nat, conn: Conn, admission: Admission, jobs: seq<Job>, owners: seq<Owner>) {
    && JobsFit(i, conn.asked, jobs, owners)
    && NumbersBelow(i, owners, |conn.answered| + (if MaybeSubmitted(conn.reader) then 1 else 0))
    && ReaderAcks(i, conn.reader, conn.asked, |conn.answered|, admission, jobs, owners)
    && AnswersBacked(i, conn.answered, jobs, owners)
    && PlacesFit(conn.outbound.Sent(), conn.places, conn.answered)
  }

  ghost predicate AckInv(s: System) {
    && DistinctOwners(s.owners)
    && (forall j :: 0 <= j < |s.owners| ==> s.owners[j].conn < |s.conns|)
    && forall i :: 0 <= i < |s.conns| ==> ConnAcks(i, s.conns[i], s.pipe.gate.admission, s.pipe.jobs, s.owners)
  }

  // ---------------------------------------------------------------- frames

  ghost predicate EventsKept(jobs: seq<Job>, jobs': seq<Job>) {
    |jobs| <= |jobs'| && forall j :: 0 <= j < |jobs| ==> jobs'[j].event == jobs[j].event
  }

  lemma PipeEvents(c: Config, s: State, l: Label)
    requires Inv(c, s) && Enabled(c, s, l)
    ensures EventsKept(s.jobs, Apply(c, s, l).jobs)
  {
    NoPanicStep(c, s, l);
  }

  lemma BackedFrame(i: nat, k: nat, m: Message, jobs: seq<Job>, jobs': seq<Job>, l: Label,
                    owners: seq<Owner>, owners': seq<Owner>)
    requires BackedAt(i, k, m, jobs, owners) && JobsGrow(jobs, jobs', l) && owners <= owners'
    ensures BackedAt(i, k, m, jobs', owners')
  {
    var j, event :| BackedBy(i, k, m, jobs, owners, j, event);
    assert BackedBy(i, k, m, jobs', owners', j, event);
  }

  /** The new owners, if any, are not connection `i`. */
  ghost predicate OwnersGrow(i: nat, owners: seq<Owner>, owners': seq<Owner>) {
    owners <= owners' && forall j :: |owners| <= j < |owners'| ==> owners'[j].conn != i
  }

  lemma AnswersFrame(i: nat, answered: seq<Message>, jobs: seq<Job>, jobs': seq<Job>, l: Label,
                     owners: seq<Owner>, owners': seq<Owner>)
    requires AnswersBacked(i, answered, jobs, owners) && JobsGrow(jobs, jobs', l) && owners <= owners'
    ensures AnswersBacked(i, answered, jobs', owners')
  {
    forall k | 0 <= k < |answered| && answered[k].Ack? ensures BackedAt(i, k, answered[k], jobs', owners') {
      BackedFrame(i, k, answered[k], jobs, jobs', l, owners, owners');
    }
  }

  /** A pipeline step that is not the connection's own keeps what is known of it. */
  lemma AcksFrame(i: nat, conn: Conn, s: State, t: State, l: Label, owners: seq<Owner>, owners': seq<Owner>)
    requires ConnAcks(i, conn, s.gate.admission, s.jobs, owners) && |owners| == |s.jobs|
    requires JobsGrow(s.jobs, t.jobs, l) && EventsKept(s.jobs, t.jobs) && OwnersGrow(i, owners, owners')
    requires conn.reader.Admitted? ==> SameHolder(s.gate.admission, t.gate.admission)
    ensures ConnAcks(i, conn, t.gate.admission, t.jobs, owners')
  {
    AnswersFrame(i, conn.answered, s.jobs, t.jobs, l, owners, owners');
    if conn.reader.Responding? && conn.reader.message.Ack? {
      BackedFrame(i, |conn.answered|, conn.reader.message, s.jobs, t.jobs, l, owners, owners');
    }
  }

  // ---------------------------------------------------------------- the connection's own moves

  lemma ReadAcks(size: nat, i: nat, s: State, conn: Conn, owners: seq<Owner>, requestID: Text, event: Event)
    requires ConnAcks(i, conn, s.gate.admission, s.jobs, owners) && conn.reader.Reading?
    requires |conn.asked| == |conn.answered|
    ensures ConnAcks(i, NextConn(size, s, conn, ReadEvent(requestID, event)), s.gate.admission, s.jobs, owners)
  {}

  lemma RespondAcks(size: nat, i: nat, s: State, conn: Conn, owners: seq<Owner>)
    requires ConnAcks(i, conn, s.gate.admission, s.jobs, owners) && conn.reader.Responding?
    ensures ConnAcks(i, NextConn(size, s, conn, Respond), s.gate.admission, s.jobs, owners)
  {
    var next := NextConn(size, s, conn, Respond);
    var m := conn.reader.message;
    PushPlaces(conn.outbound.Sent(), conn.places, conn.answered, m, !conn.reader.last);
    assert conn.outbound.Push(m).Sent() == conn.outbound.Sent() + [m];
    if !conn.reader.last {
      assert AnswersBacked(i, conn.answered + [m], s.jobs, owners);
    }
  }

  /** Queueing a message, and recording it as a response unless it is the last error. */
  lemma PushPlaces(sent: seq<Message>, places: seq<nat>, answered: seq<Message>, m: Message, response: bool)
    requires PlacesFit(sent, places, answered) && (m.Ack? ==> response)
    ensures var answered' := if response then answered + [m] else answered;
      PlacesFit(sent + [m], places + [|answered|], answered') && PlacesFit(sent, places, answered')
  {}

  lemma ForwardAcks(size: nat, i: nat, s: State, conn: Conn, owners: seq<Owner>)
    requires ConnAcks(i, conn, s.gate.admission, s.jobs, owners) && conn.reader.Forwarding?
    ensures ConnAcks(i, NextConn(size, s, conn, Forward), s.gate.admission, s.jobs, owners)
  {
    var m := Delivery(conn.reader.event);
    PushPlaces(conn.outbound.Sent(), conn.places, conn.answered, m, false);
    assert conn.outbound.Push(m).Sent() == conn.outbound.Sent() + [m];
  }

  lemma WriteAcks(size: nat, i: nat, s: State, conn: Conn, owners: seq<Owner>)
    requires ConnAcks(i, conn, s.gate.admission, s.jobs, owners) && conn.pumping && conn.outbound.buffer != []
    ensures ConnAcks(i, NextConn(size, s, conn, Write), s.gate.admission, s.jobs, owners)
  {
    assert conn.outbound.Pop().Sent() == conn.outbound.Sent();
  }

  /** Moves that touch neither the records nor the pipeline. */
  lemma IdleAcks(size: nat, i: nat, s: State, conn: Conn, m: Move, owners: seq<Owner>)
    requires ConnAcks(i, conn, s.gate.admission, s.jobs, owners)
    requires AtMove(conn.reader, m) && MoveGuard(s, conn, m) && PipeLabel(conn.reader, i, m).None?
    requires !m.ReadEvent? && !m.Respond? && !m.Forward? && !m.Write?
    ensures ConnAcks(i, NextConn(size, s, conn, m), s.gate.admission, s.jobs, owners)
  {
    assert NextConn(size, s, conn, m).outbound.Sent() == conn.outbound.Sent();
  }

  lemma QuietAcks(size: nat, i: nat, s: State, conn: Conn, m: Move, owners: seq<Owner>)
    requires ConnAcks(i, conn, s.gate.admission, s.jobs, owners) && Counted(size, conn)
    requires AtMove(conn.reader, m) && MoveGuard(s, conn, m) && PipeLabel(conn.reader, i, m).None?
    ensures ConnAcks(i, NextConn(size, s, conn, m), s.gate.admission, s.jobs, owners)
  {
    match m
    case ReadEvent(requestID, event) => ReadAcks(size, i, s, conn, owners, requestID, event);
    case Respond => RespondAcks(size, i, s, conn, owners);
    case Forward => ForwardAcks(size, i, s, conn, owners);
    case Write => WriteAcks(size, i, s, conn, owners);
    case _ => IdleAcks(size, i, s, conn, m, owners);
  }

  /** Taking the lock, reading the flag and finding the queue full. */
  lemma GateAcks(c: Config, size: nat, i: nat, s: State, conn: Conn, m: Move, owners: seq<Owner>)
    requires ConnAcks(i, conn, s.gate.admission, s.jobs, owners) && Inv(c, s)
    requires (m.LockAdmission? || m.CheckAccepting? || m.QueueFull?) && AtMove(conn.reader, m)
    requires Enabled(c, s, PipeLabel(conn.reader, i, m).value)
    ensures var t := Apply(c, s, PipeLabel(conn.reader, i, m).value);
      ConnAcks(i, NextConn(size, s, conn, m), t.gate.admission, t.jobs, owners)
  {
    NoPanicStep(c, s, PipeLabel(conn.reader, i, m).value);
  }

  /** The job submitted carries the event of the message being answered. */
  lemma EnqueueAcks(c: Config, size: nat, i: nat, s: State, conn: Conn, owners: seq<Owner>)
    requires ConnAcks(i, conn, s.gate.admission, s.jobs, owners) && Inv(c, s) && |owners| == |s.jobs|
    requires conn.reader.Admitted? && Enabled(c, s, Admit(SubmitSend))
    ensures var t := Apply(c, s, Admit(SubmitSend));
      ConnAcks(i, NextConn(size, s, conn, Enqueue), t.gate.admission, t.jobs,
               owners + [Owner(i, conn.reader.requestID, |conn.answered|)])
  {
    var l := Admit(SubmitSend);
    NoPanicStep(c, s, l);
    PipeFrame(c, s, l);
    AnswersFrame(i, conn.answered, s.jobs, Apply(c, s, l).jobs, l, owners,
                 owners + [Owner(i, conn.reader.requestID, |conn.answered|)]);
  }

  /** The result taken backs the ack about to be queued. */
  lemma TakeAcks(c: Config, size: nat, i: nat, s: State, conn: Conn, owners: seq<Owner>)
    requires ConnAcks(i, conn, s.gate.admission, s.jobs, owners) && Inv(c, s) && |owners| == |s.jobs|
    requires conn.reader.Awaiting? && Enabled(c, s, TakeAck(conn.reader.job))
    ensures var t := Apply(c, s, TakeAck(conn.reader.job));
      ConnAcks(i, NextConn(size, s, conn, TakeResult), t.gate.admission, t.jobs, owners)
  {
    var j := conn.reader.job;
    var l := TakeAck(j);
    var t := Apply(c, s, l);
    NoPanicStep(c, s, l);
    PipeFrame(c, s, l);
    AnswersFrame(i, conn.answered, s.jobs, t.jobs, l, owners, owners);
    var outcome := s.jobs[j].ack.buffer[0];
    assert outcome in t.jobs[j].ack.Sent();
    if outcome.ok {
      var m := Ack(conn.reader.requestID, outcome.event.eventID);
      assert BackedBy(i, |conn.answered|, m, t.jobs, owners, j, outcome.event);
    }
  }

  lemma MonitorAcks(c: Config, size: nat, i: nat, s: State, conn: Conn, m: Move, owners: seq<Owner>)
    requires ConnAcks(i, conn, s.gate.admission, s.jobs, owners) && Inv(c, s)
    requires (m.Join? || m.Next? || m.Leave? || m.FinishLeave?) && AtMove(conn.reader, m)
    requires Enabled(c, s, PipeLabel(conn.reader, i, m).value)
    requires m.Next? ==> conn.reader.sub < |s.hub.subs| && s.hub.subs[conn.reader.sub].events.buffer != []
    ensures var t := Apply(c, s, PipeLabel(conn.reader, i, m).value);
      ConnAcks(i, NextConn(size, s, conn, m), t.gate.admission, t.jobs, owners)
  {
    NoPanicStep(c, s, PipeLabel(conn.reader, i, m).value);
  }

  lemma LabelAcks(c: Config, size: nat, i: nat, s: State, conn: Conn, m: Move, owners: seq<Owner>)
    requires ConnAcks(i, conn, s.gate.admission, s.jobs, owners) && Inv(c, s) && |owners| == |s.jobs|
    requires AtMove(conn.reader, m) && PipeLabel(conn.reader, i, m).Some?
    requires Enabled(c, s, PipeLabel(conn.reader, i, m).value)
    requires m.TakeResult? ==> conn.reader.job < |s.jobs| && s.jobs[conn.reader.job].ack.buffer != []
    requires m.Next? ==> conn.reader.sub < |s.hub.subs| && s.hub.subs[conn.reader.sub].events.buffer != []
    ensures var t := Apply(c, s, PipeLabel(conn.reader, i, m).value);
      ConnAcks(i, NextConn(size, s, conn, m), t.gate.admission, t.jobs,
               if m.Enqueue? then owners + [Owner(i, conn.reader.requestID, |conn.answered|)] else owners)
  {
    if m.Enqueue? {
      EnqueueAcks(c, size, i, s, conn, owners);
    } else if m.TakeResult? {
      TakeAcks(c, size, i, s, conn, owners);
    } else if m.LockAdmission? || m.CheckAccepting? || m.QueueFull? {
      GateAcks(c, size, i, s, conn, m, owners);
    } else {
      MonitorAcks(c, size, i, s, conn, m, owners);
    }
  }

  // ---------------------------------------------------------------- steps and runs

  /** The parts of a move. */
  lemma MoveParts(c: Config, size: nat, s: System, i: nat, m: Move)
    requires MoveEnabled(c, s, i, m) && !MovePanics(s.conns[i], m)
    requires m.TakeResult? ==> s.conns[i].reader.job < |s.pipe.jobs| && s.pipe.jobs[s.conns[i].reader.job].ack.buffer != []
    requires m.Next? ==> s.conns[i].reader.sub < |s.pipe.hub.subs|
                         && s.pipe.hub.subs[s.conns[i].reader.sub].events.buffer != []
    ensures
      var t := MoveStep(c, size, s, i, m);
      && t.conns == s.conns[i := NextConn(size, s.pipe, s.conns[i], m)]
      && t.pipe == (match PipeLabel(s.conns[i].reader, i, m) case None => s.pipe case Some(l) => Apply(c, s.pipe, l))
      && t.owners == if m.Enqueue? then s.owners + [Owner(i, s.conns[i].reader.requestID, |s.conns[i].answered|)]
                     else s.owners
  {}

  lemma MoverAcks(c: Config, size: nat, s: System, i: nat, m: Move)
    requires SysInv(c, size, s) && AckInv(s) && MoveEnabled(c, s, i, m) && !MovePanics(s.conns[i], m)
    ensures var t := MoveStep(c, size, s, i, m);
      ConnAcks(i, t.conns[i], t.pipe.gate.admission, t.pipe.jobs, t.owners)
  {
    var conn := s.conns[i];
    assert ConnFits(size, i, conn, s.pipe, s.owners, s.watchers);
    MoveReady(c, s, i, m);
    MoveParts(c, size, s, i, m);
    if PipeLabel(conn.reader, i, m).None? {
      QuietAcks(size, i, s.pipe, conn, m, s.owners);
    } else {
      LabelAcks(c, size, i, s.pipe, conn, m, s.owners);
    }
  }

  lemma OthersAcks(c: Config, size: nat, s: System, k: nat, m: Move, i: nat)
    requires SysInv(c, size, s) && AckInv(s) && MoveEnabled(c, s, k, m) && !MovePanics(s.conns[k], m)
    requires i < |s.conns| && i != k
    ensures var t := MoveStep(c, size, s, k, m);
      t.conns[i] == s.conns[i] && ConnAcks(i, s.conns[i], t.pipe.gate.admission, t.pipe.jobs, t.owners)
  {
    var t := MoveStep(c, size, s, k, m);
    assert ConnFits(size, i, s.conns[i], s.pipe, s.owners, s.watchers);
    assert ConnFits(size, k, s.conns[k], s.pipe, s.owners, s.watchers);
    MoveReady(c, s, k, m);
    MoveParts(c, size, s, k, m);
    match PipeLabel(s.conns[k].reader, k, m)
    case None =>
    case Some(l) =>
      MoveForeign(c, s.pipe, s.owners, s.watchers, i, s.conns[i].reader, k, s.conns[k].reader, m);
      ForeignAcks(c, i, s.conns[i], s.pipe, l, s.owners, t.owners);
  }

  lemma ForeignAcks(c: Config, i: nat, conn: Conn, s: State, l: Label, owners: seq<Owner>, owners': seq<Owner>)
    requires Inv(c, s) && Enabled(c, s, l) && ConnectionTheorems.Foreign(i, conn.reader, s, l) && OwnersGrow(i, owners, owners')
    requires ConnAcks(i, conn, s.gate.admission, s.jobs, owners) && |owners| == |s.jobs|
    ensures ConnAcks(i, conn, Apply(c, s, l).gate.admission, Apply(c, s, l).jobs, owners')
  {
    PipeFrame(c, s, l);
    PipeEvents(c, s, l);
    if conn.reader.Admitted? {
      GateFrame(c, s, l);
    }
    AcksFrame(i, conn, s, Apply(c, s, l), l, owners, owners');
  }

  /** A message is submitted only while it is the one being worked on, so not twice. */
  lemma MoveOwners(c: Config, size: nat, s: System, k: nat, m: Move)
    requires SysInv(c, size, s) && AckInv(s) && MoveEnabled(c, s, k, m) && !MovePanics(s.conns[k], m)
    ensures var t := MoveStep(c, size, s, k, m);
      DistinctOwners(t.owners) && forall j :: 0 <= j < |t.owners| ==> t.owners[j].conn < |t.conns|
  {
    MoveReady(c, s, k, m);
    MoveParts(c, size, s, k, m);
    assert ConnAcks(k, s.conns[k], s.pipe.gate.admission, s.pipe.jobs, s.owners);
  }

  lemma MoveAcks(c: Config, size: nat, s: System, k: nat, m: Move)
    requires SysInv(c, size, s) && AckInv(s) && MoveEnabled(c, s, k, m)
    ensures AckInv(MoveStep(c, size, s, k, m))
  {
    MoveNeverPanics(c, size, s, k, m);
    MoveOwners(c, size, s, k, m);
    var t := MoveStep(c, size, s, k, m);
    forall i | 0 <= i < |t.conns| ensures ConnAcks(i, t.conns[i], t.pipe.gate.admission, t.pipe.jobs, t.owners) {
      if i == k {
        MoverAcks(c, size, s, k, m);
      } else {
        OthersAcks(c, size, s, k, m, i);
      }
    }
  }

  lemma BackgroundAcks(c: Config, size: nat, s: System, l: Label)
    requires SysInv(c, size, s) && AckInv(s) && IsInternal(l) && Enabled(c, s.pipe, l)
    ensures AckInv(s.(pipe := Apply(c, s.pipe, l)))
  {
    forall i | 0 <= i < |s.conns|
      ensures ConnAcks(i, s.conns[i], Apply(c, s.pipe, l).gate.admission, Apply(c, s.pipe, l).jobs, s.owners)
    {
      InternalForeign(c, i, s.conns[i].reader, s.pipe, l);
      ForeignAcks(c, i, s.conns[i], s.pipe, l, s.owners, s.owners);
    }
  }

  lemma ConnectAcks(c: Config, size: nat, s: System, first: First)
    requires AckInv(s) && !s.panicked
    ensures AckInv(SysApply(c, size, s, Connect(first)))
  {
    if Handshake(first).Some? {
      var conn := NewConn(Handshake(first).value);
      assert conn.outbound.Sent() == [];
      assert ConnAcks(|s.conns|, conn, s.pipe.gate.admission, s.pipe.jobs, s.owners);
    }
  }

  lemma {:induction false} AckRun(c: Config, size: nat, es: seq<Step>, t: System)
    requires SysRun(c, size, es) == Pipeline.Some(t)
    ensures SysInv(c, size, t) && AckInv(t)
  {
    SysRunInv(c, size, es, t);
    if es != [] {
      var u := SysRun(c, size, es[..|es| - 1]).value;
      var e := es[|es| - 1];
      AckRun(c, size, es[..|es| - 1], u);
      match e
      case Connect(first) => ConnectAcks(c, size, u, first);
      case Background(l) => BackgroundAcks(c, size, u, l);
      case By(k, m) => MoveAcks(c, size, u, k, m);
    }
  }

  // ---------------------------------------------------------------- main results

  lemma ReachableAcks(c: Config, size: nat, s: System)
    requires SysReachable(c, size, s)
    ensures SysInv(c, size, s) && AckInv(s)
  {
    var es :| SysRun(c, size, es) == Pipeline.Some(s);
    AckRun(c, size, es, s);
  }

  /** The k-th response of a connection is an ack only if the job submitted for its k-th event message, which
      carries that message's event, has been stored and published under the acknowledged event ID. */
  lemma AckAnswersMessage(c: Config, size: nat, s: System, i: nat, k: nat) returns (j: nat, event: Event)
    requires SysReachable(c, size, s) && i < |s.conns|
    requires k < |s.conns[i].answered| && s.conns[i].answered[k].Ack?
    ensures k < |s.conns[i].asked| && j < |s.owners| && j < |s.pipe.jobs|
    ensures s.owners[j] == Owner(i, s.conns[i].asked[k].requestID, k) && s.pipe.jobs[j].event == s.conns[i].asked[k].event
    ensures event.eventID == s.conns[i].answered[k].eventID && EventResult(event, true) in s.pipe.jobs[j].ack.Sent()
    ensures Publication(j, event) in s.pipe.stored && Publication(j, event) in s.pipe.published
  {
    ReachableAcks(c, size, s);
    PipelineUnderConnections(c, size, s);
    var conn := s.conns[i];
    assert ConnFits(size, i, conn, s.pipe, s.owners, s.watchers);
    assert BackedAt(i, k, conn.answered[k], s.pipe.jobs, s.owners);
    j, event :| BackedBy(i, k, conn.answered[k], s.pipe.jobs, s.owners, j, event);
    ResultMeansStored(c, s.pipe, j, EventResult(event, true));
  }

  /** An ack queued on a connection is its k-th response for some k: it names the request of the k-th event
      message, whose event was submitted as a job that Store has accepted and Publish has finished with, under
      the acknowledged event ID. */
  lemma AckImpliesPersisted(c: Config, size: nat, s: System, i: nat, q: nat)
    returns (k: nat, j: nat, event: Event)
    requires SysReachable(c, size, s) && i < |s.conns| && q < |s.conns[i].outbound.Sent()|
    requires s.conns[i].outbound.Sent()[q].Ack?
    ensures k < |s.conns[i].answered| && s.conns[i].answered[k] == s.conns[i].outbound.Sent()[q]
    ensures k < |s.conns[i].asked| && s.conns[i].asked[k].requestID == s.conns[i].outbound.Sent()[q].requestID
    ensures j < |s.owners| && s.owners[j] == Owner(i, s.conns[i].asked[k].requestID, k)
    ensures j < |s.pipe.jobs| && s.pipe.jobs[j].event == s.conns[i].asked[k].event
    ensures event.eventID == s.conns[i].outbound.Sent()[q].eventID
    ensures Publication(j, event) in s.pipe.stored && Publication(j, event) in s.pipe.published
    ensures forall w :: 0 <= w < |s.pipe.workers| && s.pipe.workers[w].Publishing? ==> s.pipe.workers[w].job != j
  {
    ReachableAcks(c, size, s);
    PipelineUnderConnections(c, size, s);
    var conn := s.conns[i];
    assert PlacesFit(conn.outbound.Sent(), conn.places, conn.answered);
    k := conn.places[q];
    j, event := AckAnswersMessage(c, size, s, i, k);
    OneResponsePerEvent(c, size, s, i);
    NamedRequest(conn.asked[k].requestID, conn.answered[k]);
    NotPublishing(c, s.pipe, j, EventResult(event, true));
  }

  lemma NamedRequest(requestID: Text, m: Message)
    requires Answers(requestID, m) && m.Ack?
    ensures m.requestID == requestID
  {}

  lemma PublishingHolds(w: Worker, j: nat)
    ensures w.Publishing? ==> (HoldsJob(w, j) <==> w.job == j)
  {}

  lemma NotPublishing(c: Config, s: State, j: nat, r: EventResult)
    requires Reachable(c, s) && j < |s.jobs| && r in s.jobs[j].ack.Sent() && r.ok
    ensures forall w :: 0 <= w < |s.workers| && s.workers[w].Publishing? ==> s.workers[w].job != j
  {
    ResultMeansStored(c, s, j, r);
    forall w | 0 <= w < |s.workers| && s.workers[w].Publishing? ensures s.workers[w].job != j {
      PublishingHolds(s.workers[w], j);
    }
  }

  /** Two responses that acknowledge the same event ID, on any connections, are the same response. */
  lemma OneAckedResponse(c: Config, size: nat, s: System, i: nat, k: nat, i': nat, k': nat)
    requires SysReachable(c, size, s) && i < |s.conns| && i' < |s.conns|
    requires k < |s.conns[i].answered| && k' < |s.conns[i'].answered|
    requires s.conns[i].answered[k].Ack? && s.conns[i'].answered[k'].Ack?
    requires s.conns[i].answered[k].eventID == s.conns[i'].answered[k'].eventID
    ensures i == i' && k == k'
  {
    PipelineUnderConnections(c, size, s);
    var j, event := AckAnswersMessage(c, size, s, i, k);
    var j', event' := AckAnswersMessage(c, size, s, i', k');
    OneSuccessPerID(c, s.pipe, j, j', EventResult(event, true), EventResult(event', true));
  }

  /** Over all connections, no event ID is acknowledged twice: two queued acks with equal event IDs are the
      same message on the same connection. */
  lemma OneAckPerID(c: Config, size: nat, s: System, i: nat, q: nat, i': nat, q': nat)
    requires SysReachable(c, size, s) && i < |s.conns| && i' < |s.conns|
    requires q < |s.conns[i].outbound.Sent()| && q' < |s.conns[i'].outbound.Sent()|
    requires s.conns[i].outbound.Sent()[q].Ack? && s.conns[i'].outbound.Sent()[q'].Ack?
    requires s.conns[i].outbound.Sent()[q].eventID == s.conns[i'].outbound.Sent()[q'].eventID
    ensures i == i' && q == q'
  {
    ReachableAcks(c, size, s);
    var conn, conn' := s.conns[i], s.conns[i'];
    assert PlacesFit(conn.outbound.Sent(), conn.places, conn.answered);
    assert PlacesFit(conn'.outbound.Sent(), conn'.places, conn'.answered);
    OneAckedResponse(c, size, s, i, conn.places[q], i', conn'.places[q']);
  }
}

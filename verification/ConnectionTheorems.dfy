/** What every run of connections and pipeline together guarantees. */
module ConnectionTheorems {
  import opened Contracts
  import opened Texts
  import opened Pipeline
  import opened PipelineJobs
  import opened PipelineTheorems
  import opened Connections

  // ---------------------------------------------------------------- the invariant

  /** The acknowledged request is the connection's own, and its job's only result is error-free. */
  ghost predicate AckBacked(i: nat, requestID: Text, eventID: Text, s: State, owners: seq<Owner>) {
    exists j, event :: AckBackedBy(i, requestID, eventID, s, owners, j, event)
  }

  predicate OwnedBy(o: Owner, i: nat, requestID: Text) {
    o.conn == i && o.requestID == requestID
  }

  predicate AckBackedBy(i: nat, requestID: Text, eventID: Text, s: State, owners: seq<Owner>, j: nat, event: Event) {
    && j < |owners| && j < |s.jobs|
    && OwnedBy(owners[j], i, requestID)
    && event.eventID == eventID
    && EventResult(event, true) in s.jobs[j].ack.Sent()
  }

  ghost predicate MessageFits(i: nat, m: Message, s: State, owners: seq<Owner>) {
    m.Ack? ==> AckBacked(i, m.requestID, m.eventID, s, owners)
  }

  predicate Watches(i: nat, sub: nat, h: Hub, watchers: seq<nat>) {
    sub < |h.subs| && sub < |watchers| && watchers[sub] == i
  }

  ghost predicate ReaderFits(i: nat, r: Reader, s: State, owners: seq<Owner>, watchers: seq<nat>) {
    match r
    case Admitted(_) => (s.gate.admission.Submitting? || s.gate.admission.Admitting?) && s.gate.admission.caller == i
    case Awaiting(requestID, j) =>
      j < |s.jobs| && j < |owners| && OwnedBy(owners[j], i, requestID) && s.jobs[j].ack.received == []
    case Responding(m, last) => MessageFits(i, m, s, owners) && (last ==> m.Error?)
    case Streaming(sub) => Watches(i, sub, s.hub, watchers) && !s.hub.subs[sub].onceUsed
    case Forwarding(sub, _) => Watches(i, sub, s.hub, watchers) && !s.hub.subs[sub].onceUsed
    case Leaving(sub) => Watches(i, sub, s.hub, watchers) && !s.hub.subs[sub].onceUsed
    case LeavingLocked(sub) => Watches(i, sub, s.hub, watchers) && s.hub.closing == [sub]
    case _ => true
  }

  /** The reader still owes a response to the event message it read last. */
  predicate OwesResponse(r: Reader) {
    r.Offering? || r.Admitted? || r.Awaiting? || (r.Responding? && !r.last)
  }

  /** A response that fits a request: a blank request ID gets its own error, any other an ack or an error
      that names it. */
  predicate Answers(requestID: Text, m: Message) {
    if Blank(requestID) then m == Error([], MissingRequiredField)
    else !m.Delivery? && m.requestID == requestID
  }

  predicate AllAnswered(asked: seq<Asked>, answered: seq<Message>) {
    |answered| <= |asked| && forall k :: 0 <= k < |answered| ==> Answers(asked[k].requestID, answered[k])
  }

  /** The reader works on the request it read last. */
  predicate WorksOn(r: Reader, requestID: Text) {
    match r
    case Offering(id, _) => id == requestID && !Blank(id)
    case Admitted(id) => id == requestID && !Blank(id)
    case Awaiting(id, _) => id == requestID && !Blank(id)
    case Responding(m, last) => !last ==> Answers(requestID, m)
    case _ => true
  }

  predicate Counted(size: nat, conn: Conn) {
    && (conn.outbound.closed <==> conn.reader.Stopped?)
    && |conn.outbound.buffer| <= size
    && |conn.asked| == |conn.answered| + (if OwesResponse(conn.reader) then 1 else 0)
    && AllAnswered(conn.asked, conn.answered)
    && (OwesResponse(conn.reader) ==> WorksOn(conn.reader, conn.asked[|conn.asked| - 1].requestID))
  }

  ghost predicate SentFits(i: nat, sent: seq<Message>, s: State, owners: seq<Owner>) {
    forall k :: 0 <= k < |sent| ==> MessageFits(i, sent[k], s, owners)
  }

  ghost predicate ConnFits(size: nat, i: nat, conn: Conn, s: State, owners: seq<Owner>, watchers: seq<nat>) {
    && Counted(size, conn)
    && ReaderFits(i, conn.reader, s, owners, watchers)
    && SentFits(i, conn.outbound.Sent(), s, owners)
  }

  ghost predicate SysInv(c: Config, size: nat, s: System) {
    && !s.panicked
    && Inv(c, s.pipe)
    && |s.owners| == |s.pipe.jobs| && |s.watchers| == |s.pipe.hub.subs|
    && forall i :: 0 <= i < |s.conns| ==> ConnFits(size, i, s.conns[i], s.pipe, s.owners, s.watchers)
  }

  // ---------------------------------------------------------------- frames

  /** What a pipeline step may change of the parts connections rely on. */
  ghost predicate JobsGrow(jobs: seq<Job>, jobs': seq<Job>, l: Label) {
    && |jobs'| == |jobs| + (if l == Admit(SubmitSend) then 1 else 0)
    && (forall j :: 0 <= j < |jobs| ==>
          && jobs[j].ack.Sent() <= jobs'[j].ack.Sent()
          && (l != TakeAck(j) ==> jobs'[j].ack.received == jobs[j].ack.received))
  }

  ghost predicate HubFrame(h: Hub, h': Hub, l: Label) {
    && |h'.subs| == |h.subs| + (if l.Monitor? && l.h.Subscribe? then 1 else 0)
    && (forall i :: 0 <= i < |h.subs| && l != Monitor(Unsubscribe(i)) ==> h'.subs[i].onceUsed == h.subs[i].onceUsed)
    && (h'.closing == h.closing || (l.Monitor? && (l.h.UnsubscribeClose? || l.h.Unsubscribe?)))
  }

  predicate SameHolder(a: Admission, b: Admission) {
    (a.Submitting? || a.Admitting?) ==> (b.Submitting? || b.Admitting?) && b.caller == a.caller && b.event == a.event
  }

  lemma WorkJobsFrame(jobs: seq<Job>, w: Worker, a: Action)
    requires AtAction(w, a) && (a.Reply? || a.Release? ==> w.job < |jobs|)
    ensures forall v :: JobsGrow(jobs, WorkJobs(jobs, w, a), Work(v, a))
  {}

  lemma TakeJobsFrame(jobs: seq<Job>, j: nat)
    requires j < |jobs| && jobs[j].ack.buffer != []
    ensures JobsGrow(jobs, WithAck(jobs, j, jobs[j].ack.Pop()), TakeAck(j))
  {
    assert jobs[j].ack.Pop().Sent() == jobs[j].ack.Sent();
  }

  lemma PipeFrame(c: Config, s: State, l: Label)
    requires Inv(c, s) && Enabled(c, s, l)
    ensures JobsGrow(s.jobs, Apply(c, s, l).jobs, l)
  {
    NoPanicStep(c, s, l);
    match l
    case Work(w, a) => WorkJobsFrame(s.jobs, s.workers[w], a);
    case TakeAck(j) => TakeJobsFrame(s.jobs, j);
    case _ =>
  }

  lemma GateFrame(c: Config, s: State, l: Label)
    requires Inv(c, s) && Enabled(c, s, l) && (!l.Admit? || IsInternal(l))
    ensures SameHolder(s.gate.admission, Apply(c, s, l).gate.admission)
  {
    NoPanicStep(c, s, l);
  }

  lemma WorkHubFrame(bufferSize: nat, h: Hub, worker: Worker, w: nat, a: Action)
    requires AtAction(worker, a) && (a.PublishTo? ==> a.sub < |h.subs|)
    ensures HubFrame(h, WorkHub(bufferSize, h, worker, a), Work(w, a))
  {}

  lemma MonitorHubFrame(h: Hub, unread: bool, begun: nat, l: HubLabel)
    requires HubEnabled(h, unread, l)
    ensures HubFrame(h, HubNext(h, begun, l), Monitor(l))
  {}

  lemma PipeHubFrame(c: Config, s: State, l: Label)
    requires Inv(c, s) && Enabled(c, s, l)
    ensures HubFrame(s.hub, Apply(c, s, l).hub, l)
  {
    NoPanicStep(c, s, l);
    match l
    case Work(w, a) => WorkHubFrame(c.bufferSize, s.hub, s.workers[w], w, a);
    case Monitor(h) => MonitorHubFrame(s.hub, NoReader(s.workers), |s.published|, h);
    case _ =>
  }

  lemma MessageFrame(i: nat, m: Message, s: State, t: State, l: Label, owners: seq<Owner>, owners': seq<Owner>)
    requires MessageFits(i, m, s, owners) && JobsGrow(s.jobs, t.jobs, l) && owners <= owners'
    ensures MessageFits(i, m, t, owners')
  {
    if m.Ack? {
      var j, event :| AckBackedBy(i, m.requestID, m.eventID, s, owners, j, event);
      assert AckBackedBy(i, m.requestID, m.eventID, t, owners', j, event);
    }
  }

  lemma SentFrame(i: nat, sent: seq<Message>, s: State, t: State, l: Label, owners: seq<Owner>, owners': seq<Owner>)
    requires SentFits(i, sent, s, owners) && JobsGrow(s.jobs, t.jobs, l) && owners <= owners'
    ensures SentFits(i, sent, t, owners')
  {
    forall k | 0 <= k < |sent| ensures MessageFits(i, sent[k], t, owners') {
      MessageFrame(i, sent[k], s, t, l, owners, owners');
    }
  }

  /** The step does not belong to connection `i`. */
  ghost predicate Foreign(i: nat, r: Reader, s: State, l: Label) {
    && (r.Awaiting? ==> l != TakeAck(r.job))
    && (r.Streaming? || r.Forwarding? || r.Leaving? ==> l != Monitor(Unsubscribe(r.sub)))
    && (r.LeavingLocked? ==> l != Monitor(UnsubscribeClose))
    && (r.Admitted? ==> !l.Admit? || IsInternal(l))
  }

  lemma ReaderFrame(c: Config, i: nat, r: Reader, s: State, l: Label,
                    owners: seq<Owner>, owners': seq<Owner>, watchers: seq<nat>, watchers': seq<nat>)
    requires Inv(c, s) && Enabled(c, s, l) && owners <= owners' && watchers <= watchers'
    requires ReaderFits(i, r, s, owners, watchers) && Foreign(i, r, s, l)
    ensures ReaderFits(i, r, Apply(c, s, l), owners', watchers')
  {
    PipeFrame(c, s, l);
    PipeHubFrame(c, s, l);
    match r
    case Admitted(_) => GateFrame(c, s, l);
    case Responding(m, _) => MessageFrame(i, m, s, Apply(c, s, l), l, owners, owners');
    case LeavingLocked(sub) =>
      // The write lock is taken, so no other subscription can start to close.
      assert !(l.Monitor? && l.h.Unsubscribe?);
    case _ =>
  }

  /** A connection that does not take part in a pipeline step keeps its invariant. */
  lemma ConnFrame(c: Config, size: nat, i: nat, conn: Conn, s: State, l: Label,
                  owners: seq<Owner>, owners': seq<Owner>, watchers: seq<nat>, watchers': seq<nat>)
    requires Inv(c, s) && Enabled(c, s, l) && owners <= owners' && watchers <= watchers'
    requires ConnFits(size, i, conn, s, owners, watchers) && Foreign(i, conn.reader, s, l)
    ensures ConnFits(size, i, conn, Apply(c, s, l), owners', watchers')
  {
    ReaderFrame(c, i, conn.reader, s, l, owners, owners', watchers, watchers');
    PipeFrame(c, s, l);
    SentFrame(i, conn.outbound.Sent(), s, Apply(c, s, l), l, owners, owners');
  }

  /** Internal steps belong to no connection. */
  lemma InternalForeign(c: Config, i: nat, r: Reader, s: State, l: Label)
    requires IsInternal(l)
    ensures Foreign(i, r, s, l)
  {}

  /** The pipeline label of one connection's move is foreign to every other connection. */
  lemma MoveForeign(c: Config, s: State, owners: seq<Owner>, watchers: seq<nat>,
                    i: nat, r: Reader, k: nat, q: Reader, m: Move)
    requires i != k && AtMove(q, m) && PipeLabel(q, k, m).Some? && Enabled(c, s, PipeLabel(q, k, m).value)
    requires ReaderFits(i, r, s, owners, watchers) && ReaderFits(k, q, s, owners, watchers)
    ensures Foreign(i, r, s, PipeLabel(q, k, m).value)
  {}

  // ---------------------------------------------------------------- the moving connection

  /** The result a connection takes backs the ack it is about to queue. */
  lemma MoverTakes(c: Config, size: nat, s: System, i: nat)
    requires SysInv(c, size, s) && MoveEnabled(c, s, i, TakeResult)
    ensures
      var t := MoveStep(c, size, s, i, TakeResult);
      ReaderFits(i, t.conns[i].reader, t.pipe, t.owners, t.watchers)
  {
    var r := s.conns[i].reader;
    var t := MoveStep(c, size, s, i, TakeResult);
    assert ConnFits(size, i, s.conns[i], s.pipe, s.owners, s.watchers);
    NoPanicStep(c, s.pipe, TakeAck(r.job));
    var outcome := s.pipe.jobs[r.job].ack.buffer[0];
    assert t.pipe.jobs[r.job].ack.received == [outcome];
    if outcome.ok {
      assert AckBackedBy(i, r.requestID, outcome.event.eventID, t.pipe, t.owners, r.job, outcome.event);
    }
  }

  /** A move that stays inside the connection reaches a program point that fits. */
  lemma MoverQuiet(size: nat, i: nat, s: State, owners: seq<Owner>, watchers: seq<nat>, conn: Conn, m: Move)
    requires AtMove(conn.reader, m) && MoveGuard(s, conn, m) && PipeLabel(conn.reader, i, m).None?
    requires ReaderFits(i, conn.reader, s, owners, watchers)
    ensures ReaderFits(i, NextConn(size, s, conn, m).reader, s, owners, watchers)
  {}

  /** What a move's pipeline label guarantees about the channels it receives from. */
  lemma MoveReady(c: Config, s: System, i: nat, m: Move)
    requires MoveEnabled(c, s, i, m)
    ensures var r := s.conns[i].reader;
      && (m.TakeResult? ==> r.job < |s.pipe.jobs| && s.pipe.jobs[r.job].ack.buffer != [])
      && (m.Next? ==> r.sub < |s.pipe.hub.subs| && s.pipe.hub.subs[r.sub].events.buffer != [])
  {}

  /** A reader on its way into the queue. */
  lemma SubmitMove(c: Config, size: nat, i: nat, s: State, conn: Conn, m: Move, owners: seq<Owner>, watchers: seq<nat>)
    requires Inv(c, s) && (m.LockAdmission? || m.CheckAccepting? || m.QueueFull?)
    requires AtMove(conn.reader, m) && Enabled(c, s, PipeLabel(conn.reader, i, m).value)
    requires ReaderFits(i, conn.reader, s, owners, watchers)
    ensures ReaderFits(i, NextReader(size, s, conn, m), Apply(c, s, PipeLabel(conn.reader, i, m).value), owners, watchers)
  {
    NoPanicStep(c, s, PipeLabel(conn.reader, i, m).value);
  }

  lemma EnqueueMove(c: Config, size: nat, i: nat, s: State, conn: Conn, owners: seq<Owner>, watchers: seq<nat>)
    requires Inv(c, s) && conn.reader.Admitted? && Enabled(c, s, Admit(SubmitSend)) && |owners| == |s.jobs|
    ensures ReaderFits(i, NextReader(size, s, conn, Enqueue), Apply(c, s, Admit(SubmitSend)),
                       owners + [Owner(i, conn.reader.requestID, |conn.answered|)], watchers)
  {
    NoPanicStep(c, s, Admit(SubmitSend));
  }

  /** A reader that joins a subscription, or receives from it. */
  lemma JoinMove(c: Config, size: nat, i: nat, s: State, conn: Conn, owners: seq<Owner>, watchers: seq<nat>)
    requires Inv(c, s) && conn.reader.Joining? && Enabled(c, s, PipeLabel(conn.reader, i, Join).value)
    requires |watchers| == |s.hub.subs|
    ensures ReaderFits(i, NextReader(size, s, conn, Join), Apply(c, s, PipeLabel(conn.reader, i, Join).value),
                       owners, watchers + [i])
  {}

  lemma StreamMove(c: Config, size: nat, i: nat, s: State, conn: Conn, m: Move, owners: seq<Owner>, watchers: seq<nat>)
    requires Inv(c, s) && (m.Next? || m.Leave? || m.FinishLeave?)
    requires AtMove(conn.reader, m) && Enabled(c, s, PipeLabel(conn.reader, i, m).value)
    requires ReaderFits(i, conn.reader, s, owners, watchers)
    requires m.Next? ==> conn.reader.sub < |s.hub.subs| && s.hub.subs[conn.reader.sub].events.buffer != []
    ensures ReaderFits(i, NextReader(size, s, conn, m), Apply(c, s, PipeLabel(conn.reader, i, m).value), owners, watchers)
  {
    NoPanicStep(c, s, PipeLabel(conn.reader, i, m).value);
  }

  /** A move that performs a pipeline label other than taking a result. */
  lemma LabelMove(c: Config, size: nat, i: nat, s: State, conn: Conn, m: Move, owners: seq<Owner>, watchers: seq<nat>)
    requires Inv(c, s) && AtMove(conn.reader, m) && !m.TakeResult? && PipeLabel(conn.reader, i, m).Some?
    requires Enabled(c, s, PipeLabel(conn.reader, i, m).value) && ReaderFits(i, conn.reader, s, owners, watchers)
    requires |owners| == |s.jobs| && |watchers| == |s.hub.subs|
    requires m.Next? ==> conn.reader.sub < |s.hub.subs| && s.hub.subs[conn.reader.sub].events.buffer != []
    ensures ReaderFits(i, NextReader(size, s, conn, m), Apply(c, s, PipeLabel(conn.reader, i, m).value),
                       if m.Enqueue? then owners + [Owner(i, conn.reader.requestID, |conn.answered|)] else owners,
                       if m.Join? then watchers + [i] else watchers)
  {
    if m.Enqueue? {
      EnqueueMove(c, size, i, s, conn, owners, watchers);
    } else if m.Join? {
      JoinMove(c, size, i, s, conn, owners, watchers);
    } else if m.Next? || m.Leave? || m.FinishLeave? {
      StreamMove(c, size, i, s, conn, m, owners, watchers);
    } else {
      SubmitMove(c, size, i, s, conn, m, owners, watchers);
    }
  }

  /** The connection that moves reaches a program point that fits. */
  lemma MoverReader(c: Config, size: nat, s: System, i: nat, m: Move)
    requires SysInv(c, size, s) && MoveEnabled(c, s, i, m) && !MovePanics(s.conns[i], m)
    ensures
      var t := MoveStep(c, size, s, i, m);
      ReaderFits(i, t.conns[i].reader, t.pipe, t.owners, t.watchers)
  {
    var conn := s.conns[i];
    assert ConnFits(size, i, conn, s.pipe, s.owners, s.watchers);
    MoveReady(c, s, i, m);
    MoverNext(c, size, s, i, m);
    if m.TakeResult? {
      MoverTakes(c, size, s, i);
    } else if PipeLabel(conn.reader, i, m).None? {
      MoverQuiet(size, i, s.pipe, s.owners, s.watchers, conn, m);
    } else {
      LabelMove(c, size, i, s.pipe, conn, m, s.owners, s.watchers);
    }
  }

  lemma MoverNext(c: Config, size: nat, s: System, i: nat, m: Move)
    requires MoveEnabled(c, s, i, m) && !MovePanics(s.conns[i], m)
    requires m.TakeResult? ==> s.conns[i].reader.job < |s.pipe.jobs| && s.pipe.jobs[s.conns[i].reader.job].ack.buffer != []
    requires m.Next? ==> s.conns[i].reader.sub < |s.pipe.hub.subs|
                         && s.pipe.hub.subs[s.conns[i].reader.sub].events.buffer != []
    ensures MoveStep(c, size, s, i, m).conns[i].reader == NextReader(size, s.pipe, s.conns[i], m)
  {}

  lemma CountedRead(size: nat, s: State, conn: Conn, requestID: Text, event: Event)
    requires conn.reader.Reading? && Counted(size, conn)
    ensures Counted(size, NextConn(size, s, conn, ReadEvent(requestID, event)))
  {}

  lemma CountedRespond(size: nat, s: State, conn: Conn)
    requires conn.reader.Responding? && !conn.outbound.closed && Counted(size, conn)
    ensures Counted(size, NextConn(size, s, conn, Respond))
  {}

  lemma CountedOther(size: nat, s: State, conn: Conn, m: Move)
    requires AtMove(conn.reader, m) && MoveGuard(s, conn, m) && !MovePanics(conn, m) && Counted(size, conn)
    requires !m.ReadEvent? && !m.Respond?
    requires m.TakeResult? ==> conn.reader.job < |s.jobs| && s.jobs[conn.reader.job].ack.buffer != []
    requires m.Next? ==> conn.reader.sub < |s.hub.subs| && s.hub.subs[conn.reader.sub].events.buffer != []
    ensures Counted(size, NextConn(size, s, conn, m))
  {}

  lemma MoverCounted(size: nat, s: State, conn: Conn, m: Move)
    requires AtMove(conn.reader, m) && MoveGuard(s, conn, m) && !MovePanics(conn, m) && Counted(size, conn)
    requires m.TakeResult? ==> conn.reader.job < |s.jobs| && s.jobs[conn.reader.job].ack.buffer != []
    requires m.Next? ==> conn.reader.sub < |s.hub.subs| && s.hub.subs[conn.reader.sub].events.buffer != []
    ensures Counted(size, NextConn(size, s, conn, m))
  {
    match m
    case ReadEvent(requestID, event) => CountedRead(size, s, conn, requestID, event);
    case Respond => CountedRespond(size, s, conn);
    case _ => CountedOther(size, s, conn, m);
  }

  lemma MoverSent(size: nat, i: nat, s: State, owners: seq<Owner>, conn: Conn, m: Move)
    requires AtMove(conn.reader, m) && MoveGuard(s, conn, m)
    requires m.TakeResult? ==> conn.reader.job < |s.jobs| && s.jobs[conn.reader.job].ack.buffer != []
    requires m.Next? ==> conn.reader.sub < |s.hub.subs| && s.hub.subs[conn.reader.sub].events.buffer != []
    requires SentFits(i, conn.outbound.Sent(), s, owners)
    requires conn.reader.Responding? ==> MessageFits(i, conn.reader.message, s, owners)
    ensures SentFits(i, NextConn(size, s, conn, m).outbound.Sent(), s, owners)
  {
    if m.Write? {
      assert conn.outbound.Pop().Sent() == conn.outbound.Sent();
    } else if m.Respond? {
      assert conn.outbound.Push(conn.reader.message).Sent() == conn.outbound.Sent() + [conn.reader.message];
    } else if m.Forward? {
      var delivery := Delivery(conn.reader.event);
      assert conn.outbound.Push(delivery).Sent() == conn.outbound.Sent() + [delivery];
    }
  }

  lemma MoverSentFits(c: Config, i: nat, sent: seq<Message>, s: State, l: Option<Label>, owners: seq<Owner>, owners': seq<Owner>)
    requires SentFits(i, sent, s, owners) && owners <= owners'
    requires l.Some? ==> Inv(c, s) && Enabled(c, s, l.value)
    ensures SentFits(i, sent, if l.Some? then Apply(c, s, l.value) else s, owners')
  {
    if l.Some? {
      PipeFrame(c, s, l.value);
      SentFrame(i, sent, s, Apply(c, s, l.value), l.value, owners, owners');
    } else {
      forall k | 0 <= k < |sent| ensures MessageFits(i, sent[k], s, owners') {
        if sent[k].Ack? {
          var j, event :| AckBackedBy(i, sent[k].requestID, sent[k].eventID, s, owners, j, event);
          assert AckBackedBy(i, sent[k].requestID, sent[k].eventID, s, owners', j, event);
        }
      }
    }
  }

  lemma MoverConn(c: Config, size: nat, s: System, i: nat, m: Move)
    requires SysInv(c, size, s) && MoveEnabled(c, s, i, m) && !MovePanics(s.conns[i], m)
    ensures
      var t := MoveStep(c, size, s, i, m);
      ConnFits(size, i, t.conns[i], t.pipe, t.owners, t.watchers)
  {
    var conn := s.conns[i];
    var t := MoveStep(c, size, s, i, m);
    assert ConnFits(size, i, conn, s.pipe, s.owners, s.watchers);
    MoveReady(c, s, i, m);
    MoverReader(c, size, s, i, m);
    MoverCounted(size, s.pipe, conn, m);
    MoverSent(size, i, s.pipe, s.owners, conn, m);
    MoverSentFits(c, i, t.conns[i].outbound.Sent(), s.pipe, PipeLabel(conn.reader, i, m), s.owners, t.owners);
  }

  // ---------------------------------------------------------------- steps and runs

  /** A connection never sends on its outbound queue after closing it, and closes it once. */
  lemma MoveNeverPanics(c: Config, size: nat, s: System, i: nat, m: Move)
    requires SysInv(c, size, s) && MoveEnabled(c, s, i, m)
    ensures !MovePanics(s.conns[i], m)
  {
    assert ConnFits(size, i, s.conns[i], s.pipe, s.owners, s.watchers);
  }

  lemma MoveOthers(c: Config, size: nat, s: System, k: nat, m: Move, i: nat)
    requires SysInv(c, size, s) && MoveEnabled(c, s, k, m) && !MovePanics(s.conns[k], m)
    requires i < |s.conns| && i != k
    ensures
      var t := MoveStep(c, size, s, k, m);
      t.conns[i] == s.conns[i] && ConnFits(size, i, s.conns[i], t.pipe, t.owners, t.watchers)
  {
    assert ConnFits(size, i, s.conns[i], s.pipe, s.owners, s.watchers);
    assert ConnFits(size, k, s.conns[k], s.pipe, s.owners, s.watchers);
    var t := MoveStep(c, size, s, k, m);
    match PipeLabel(s.conns[k].reader, k, m)
    case None =>
    case Some(l) =>
      MoveForeign(c, s.pipe, s.owners, s.watchers, i, s.conns[i].reader, k, s.conns[k].reader, m);
      ConnFrame(c, size, i, s.conns[i], s.pipe, l, s.owners, t.owners, s.watchers, t.watchers);
  }

  lemma MoveInv(c: Config, size: nat, s: System, k: nat, m: Move)
    requires SysInv(c, size, s) && MoveEnabled(c, s, k, m)
    ensures SysInv(c, size, MoveStep(c, size, s, k, m))
  {
    MoveNeverPanics(c, size, s, k, m);
    var t := MoveStep(c, size, s, k, m);
    match PipeLabel(s.conns[k].reader, k, m) {
      case None =>
      case Some(l) =>
        StepInv(c, s.pipe, l);
        PipeFrame(c, s.pipe, l);
        PipeHubFrame(c, s.pipe, l);
    }
    forall i | 0 <= i < |t.conns| ensures ConnFits(size, i, t.conns[i], t.pipe, t.owners, t.watchers) {
      if i == k {
        MoverConn(c, size, s, k, m);
      } else {
        MoveOthers(c, size, s, k, m, i);
      }
    }
  }

  lemma BackgroundInv(c: Config, size: nat, s: System, l: Label)
    requires SysInv(c, size, s) && IsInternal(l) && Enabled(c, s.pipe, l)
    ensures SysInv(c, size, s.(pipe := Apply(c, s.pipe, l)))
  {
    StepInv(c, s.pipe, l);
    PipeFrame(c, s.pipe, l);
    PipeHubFrame(c, s.pipe, l);
    forall i | 0 <= i < |s.conns|
      ensures ConnFits(size, i, s.conns[i], Apply(c, s.pipe, l), s.owners, s.watchers)
    {
      InternalForeign(c, i, s.conns[i].reader, s.pipe, l);
      ConnFrame(c, size, i, s.conns[i], s.pipe, l, s.owners, s.owners, s.watchers, s.watchers);
    }
  }

  lemma NewConnFits(size: nat, i: nat, mode: Mode, s: State, owners: seq<Owner>, watchers: seq<nat>)
    ensures ConnFits(size, i, NewConn(mode), s, owners, watchers)
  {}

  lemma ConnectInv(c: Config, size: nat, s: System, first: First)
    requires SysInv(c, size, s)
    ensures SysInv(c, size, SysApply(c, size, s, Connect(first)))
  {
    var t := SysApply(c, size, s, Connect(first));
    forall i | 0 <= i < |t.conns| ensures ConnFits(size, i, t.conns[i], t.pipe, t.owners, t.watchers) {
      if i < |s.conns| {
        assert ConnFits(size, i, s.conns[i], s.pipe, s.owners, s.watchers);
      } else {
        NewConnFits(size, i, Handshake(first).value, s.pipe, s.owners, s.watchers);
      }
    }
  }

  lemma SysStepInv(c: Config, size: nat, s: System, e: Step)
    requires SysInv(c, size, s) && SysEnabled(c, s, e)
    ensures SysInv(c, size, SysApply(c, size, s, e))
  {
    match e
    case Connect(first) => ConnectInv(c, size, s, first);
    case Background(l) => BackgroundInv(c, size, s, l);
    case By(i, m) => MoveInv(c, size, s, i, m);
  }

  lemma {:induction false} SysRunInv(c: Config, size: nat, es: seq<Step>, t: System)
    requires SysRun(c, size, es) == Some(t)
    ensures SysInv(c, size, t)
  {
    if es == [] {
      InitInv(c);
    } else {
      var u := SysRun(c, size, es[..|es| - 1]).value;
      SysRunInv(c, size, es[..|es| - 1], u);
      SysStepInv(c, size, u, es[|es| - 1]);
    }
  }

  lemma SysReachableInv(c: Config, size: nat, s: System)
    requires SysReachable(c, size, s)
    ensures SysInv(c, size, s)
  {
    var es :| SysRun(c, size, es) == Some(s);
    SysRunInv(c, size, es, s);
  }

  // ---------------------------------------------------------------- projection

  /** The pipeline labels a run performs, in order. */
  function Labels(c: Config, size: nat, es: seq<Step>): seq<Label> {
    if es == [] then []
    else
      var before := Labels(c, size, es[..|es| - 1]);
      match SysRun(c, size, es[..|es| - 1])
      case None => before
      case Some(u) =>
        (match es[|es| - 1]
         case Connect(_) => before
         case Background(l) => before + [l]
         case By(i, m) =>
           if i < |u.conns| && AtMove(u.conns[i].reader, m) && PipeLabel(u.conns[i].reader, i, m).Some? then
             before + [PipeLabel(u.conns[i].reader, i, m).value]
           else before)
  }

  lemma RunAppend(c: Config, s: State, ls: seq<Label>, l: Label, t: State)
    requires Run(c, s, ls) == Some(t) && Enabled(c, t, l)
    ensures Run(c, s, ls + [l]) == Some(Apply(c, t, l))
  {
    assert (ls + [l])[..|ls|] == ls;
  }

  lemma {:induction false} Projects(c: Config, size: nat, es: seq<Step>, t: System)
    requires SysRun(c, size, es) == Some(t)
    ensures Run(c, Init(c), Labels(c, size, es)) == Some(t.pipe)
  {
    if es != [] {
      var u := SysRun(c, size, es[..|es| - 1]).value;
      var e := es[|es| - 1];
      Projects(c, size, es[..|es| - 1], u);
      SysRunInv(c, size, es[..|es| - 1], u);
      var ls := Labels(c, size, es[..|es| - 1]);
      match e
      case Connect(_) =>
      case Background(l) => RunAppend(c, Init(c), ls, l, u.pipe);
      case By(i, m) =>
        MoveNeverPanics(c, size, u, i, m);
        match PipeLabel(u.conns[i].reader, i, m)
        case None =>
        case Some(l) => RunAppend(c, Init(c), ls, l, u.pipe);
    }
  }

  /** Whatever connections do, the pipeline below them only reaches states of its own runs, so every
      theorem about the pipeline holds with connections on top. */
  lemma PipelineUnderConnections(c: Config, size: nat, s: System)
    requires SysReachable(c, size, s)
    ensures Reachable(c, s.pipe)
  {
    var es :| SysRun(c, size, es) == Some(s);
    Projects(c, size, es, s);
  }

  // ---------------------------------------------------------------- main results

  /** The k-th event message read gets exactly one response attempt, the k-th, which names its request, and
      no event is read while one is owed; the outbound queue stays within its size, is closed exactly when
      the reader has stopped, and is never sent to or closed again after that. */
  lemma OneResponsePerEvent(c: Config, size: nat, s: System, i: nat)
    requires SysReachable(c, size, s) && i < |s.conns|
    ensures var conn := s.conns[i];
      && |conn.asked| == |conn.answered| + (if OwesResponse(conn.reader) then 1 else 0)
      && (forall k :: 0 <= k < |conn.answered| ==> Answers(conn.asked[k].requestID, conn.answered[k]))
      && |conn.outbound.buffer| <= size
      && (conn.outbound.closed <==> conn.reader.Stopped?)
    ensures !s.panicked && forall m :: MoveEnabled(c, s, i, m) ==> !MovePanics(s.conns[i], m)
  {
    SysReachableInv(c, size, s);
    assert ConnFits(size, i, s.conns[i], s.pipe, s.owners, s.watchers);
    forall m | MoveEnabled(c, s, i, m) ensures !MovePanics(s.conns[i], m) {
      MoveNeverPanics(c, size, s, i, m);
    }
  }

  lemma NoClosedAck(c: Config, s: State, j: nat)
    requires Reachable(c, s) && j < |s.jobs| && s.jobs[j].ack.received == []
    ensures s.jobs[j].ack.closed ==> s.jobs[j].ack.buffer != []
  {
    Conservation(c, s, j);
  }

  lemma NoEndedStream(c: Config, s: State, i: nat)
    requires Inv(c, s) && i < |s.hub.subs| && !s.hub.subs[i].onceUsed
    ensures !s.hub.subs[i].events.closed
  {}

  /** Two branches of the connection are dead: an ack channel is never found closed before its result
      is taken, and a monitor's stream never ends before the monitor itself closes it. */
  lemma DeadBranches(c: Config, size: nat, s: System, i: nat)
    requires SysReachable(c, size, s)
    ensures !SysEnabled(c, s, By(i, ResultClosed))
    ensures !SysEnabled(c, s, By(i, StreamEnd))
  {
    SysReachableInv(c, size, s);
    if i < |s.conns| {
      var r := s.conns[i].reader;
      assert ConnFits(size, i, s.conns[i], s.pipe, s.owners, s.watchers);
      if r.Awaiting? {
        PipelineUnderConnections(c, size, s);
        NoClosedAck(c, s.pipe, r.job);
      } else if r.Streaming? {
        NoEndedStream(c, s.pipe, r.sub);
      }
    }
  }
}

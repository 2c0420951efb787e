/** What a producer connection can always do next: submit, and answer. */
module ConnectionProgress {
  import opened Channels
  import opened Pipeline
  import opened PipelineTheorems
  import opened Connections
  import opened ConnectionTheorems
  import opened ConnectionAcks

  /** The system after a connection's move. */
  function After(c: Config, size: nat, s: System, i: nat, m: Move): System
    requires SysEnabled(c, s, By(i, m))
  {
    SysApply(c, size, s, By(i, m))
  }

  /** With the admission mutex free, a connection that offers an event can take the lock and read the flag:
      it stays in the section if and only if the flag is up, and is refused otherwise. */
  lemma AdmissionDecides(c: Config, size: nat, s: System, i: nat)
    requires SysReachable(c, size, s) && i < |s.conns| && s.conns[i].reader.Offering? && s.pipe.gate.admission.Free?
    ensures SysEnabled(c, s, By(i, LockAdmission))
    ensures var t := After(c, size, s, i, LockAdmission);
      && SysEnabled(c, t, By(i, CheckAccepting))
      && var u := After(c, size, t, i, CheckAccepting);
         var requestID := s.conns[i].reader.requestID;
         && u.pipe.jobs == s.pipe.jobs && u.pipe.queue == s.pipe.queue && u.owners == s.owners
         && u.conns[i].reader == (if s.pipe.gate.accepting then Admitted(requestID)
                                  else Responding(Error(requestID, StorageUnavailable), false))
  {
    SysReachableInv(c, size, s);
    assert ConnFits(size, i, s.conns[i], s.pipe, s.owners, s.watchers);
  }

  /** Inside the section, the event is queued if there is room, as the connection's own job, and refused if and
      only if there is none. */
  lemma QueueDecides(c: Config, size: nat, s: System, i: nat)
    requires SysReachable(c, size, s) && i < |s.conns| && s.conns[i].reader.Admitted? && s.pipe.gate.admission.Admitting?
    ensures SysEnabled(c, s, By(i, Enqueue)) <==> |s.pipe.queue| < c.queueSize
    ensures SysEnabled(c, s, By(i, QueueFull)) <==> |s.pipe.queue| == c.queueSize
    ensures SysEnabled(c, s, By(i, Enqueue)) ==>
      var conn, t := s.conns[i], After(c, size, s, i, Enqueue);
      var n := |conn.answered|;
      && n < |conn.asked|
      && t.pipe.jobs == s.pipe.jobs + [Job(conn.asked[n].event, Open())]
      && t.pipe.queue == s.pipe.queue + [|s.pipe.jobs|]
      && t.owners == s.owners + [Owner(i, conn.reader.requestID, n)]
      && t.conns[i].reader == Awaiting(conn.reader.requestID, |s.pipe.jobs|)
    ensures SysEnabled(c, s, By(i, QueueFull)) ==>
      var t := After(c, size, s, i, QueueFull);
      t.pipe.jobs == s.pipe.jobs
      && t.conns[i].reader == Responding(Error(s.conns[i].reader.requestID, StorageUnavailable), false)
  {
    ReachableAcks(c, size, s);
    var conn := s.conns[i];
    assert ConnFits(size, i, conn, s.pipe, s.owners, s.watchers);
    assert ConnAcks(i, conn, s.pipe.gate.admission, s.pipe.jobs, s.owners);
    SendOrFull(c, s.pipe);
    if |s.pipe.queue| < c.queueSize {
      EnqueueEffect(c, size, s, i);
    } else {
      FullEffect(c, size, s, i);
    }
  }

  /** The select of Submit, with a live context. */
  lemma SendOrFull(c: Config, s: State)
    requires Inv(c, s) && s.gate.admission.Admitting?
    ensures Enabled(c, s, Admit(SubmitSend)) <==> |s.queue| < c.queueSize
    ensures Enabled(c, s, Admit(SubmitFull)) <==> |s.queue| == c.queueSize
  {}

  lemma EnqueueEffect(c: Config, size: nat, s: System, i: nat)
    requires Inv(c, s.pipe) && i < |s.conns| && s.conns[i].reader.Admitted? && s.pipe.gate.admission.Admitting?
    requires !s.panicked && Enabled(c, s.pipe, Admit(SubmitSend))
    ensures SysEnabled(c, s, By(i, Enqueue))
    ensures var conn, t := s.conns[i], After(c, size, s, i, Enqueue);
      && t.pipe.jobs == s.pipe.jobs + [Job(s.pipe.gate.admission.event, Open())]
      && t.pipe.queue == s.pipe.queue + [|s.pipe.jobs|]
      && t.owners == s.owners + [Owner(i, conn.reader.requestID, |conn.answered|)]
      && t.conns[i].reader == Awaiting(conn.reader.requestID, |s.pipe.jobs|)
  {
    NoPanicStep(c, s.pipe, Admit(SubmitSend));
  }

  lemma FullEffect(c: Config, size: nat, s: System, i: nat)
    requires Inv(c, s.pipe) && i < |s.conns| && s.conns[i].reader.Admitted?
    requires !s.panicked && Enabled(c, s.pipe, Admit(SubmitFull))
    ensures SysEnabled(c, s, By(i, QueueFull))
    ensures var t := After(c, size, s, i, QueueFull);
      t.pipe.jobs == s.pipe.jobs
      && t.conns[i].reader == Responding(Error(s.conns[i].reader.requestID, StorageUnavailable), false)
  {
    NoPanicStep(c, s.pipe, Admit(SubmitFull));
  }

  /** A connection whose result is there can take it and respond: with an ack for the stored event if it is
      error-free, and with the mapped error otherwise; and the response is queued if there is room. */
  lemma ResultIsAnswered(c: Config, size: nat, s: System, i: nat)
    requires SysReachable(c, size, s) && i < |s.conns| && s.conns[i].reader.Awaiting?
    requires s.conns[i].reader.job < |s.pipe.jobs| && s.pipe.jobs[s.conns[i].reader.job].ack.buffer != []
    ensures SysEnabled(c, s, By(i, TakeResult))
    ensures var conn, t := s.conns[i], After(c, size, s, i, TakeResult);
      var r := s.pipe.jobs[conn.reader.job].ack.buffer[0];
      var m := if r.ok then Ack(conn.reader.requestID, r.event.eventID) else Error(conn.reader.requestID, Mapped);
      && SysEnabled(c, t, By(i, Respond))
      && var u := After(c, size, t, i, Respond);
         && u.conns[i].answered == conn.answered + [m] && u.conns[i].reader == Reading
         && u.conns[i].outbound.Sent()
            == conn.outbound.Sent() + (if |conn.outbound.buffer| < size then [m] else [])
  {
    SysReachableInv(c, size, s);
    var conn := s.conns[i];
    assert ConnFits(size, i, conn, s.pipe, s.owners, s.watchers);
    NoPanicStep(c, s.pipe, TakeAck(conn.reader.job));
    var t := After(c, size, s, i, TakeResult);
    RespondMoves(c, size, t, i);
  }

  lemma RespondMoves(c: Config, size: nat, s: System, i: nat)
    requires !s.panicked && i < |s.conns| && s.conns[i].reader.Responding? && !s.conns[i].outbound.closed
    ensures SysEnabled(c, s, By(i, Respond))
    ensures var conn, t := s.conns[i], After(c, size, s, i, Respond);
      && t.conns[i].answered == conn.answered + (if conn.reader.last then [] else [conn.reader.message])
      && t.conns[i].reader == (if conn.reader.last then Closing else Reading)
      && t.conns[i].outbound.Sent()
         == conn.outbound.Sent() + (if |conn.outbound.buffer| < size then [conn.reader.message] else [])
  {
    var conn := s.conns[i];
    assert conn.outbound.Push(conn.reader.message).Sent() == conn.outbound.Sent() + [conn.reader.message];
  }
}

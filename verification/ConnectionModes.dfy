/** Which side of the protocol a connection is on follows from its hello. */
module ConnectionModes {
  import opened Contracts
  import opened Texts
  import opened Pipeline
  import opened Connections
  import opened ConnectionTheorems

  // ---------------------------------------------------------------- one hello

  lemma ModesDiffer()
    ensures Lit("producer") != Lit("monitor")
  {
    assert |Lit("producer")| == 8 && |Lit("monitor")| == 7;
  }

  /** A hello with a client name that is not blank: a producer connection can read event messages and no
      subscription, a monitor connection a subscription and no event message.  Any other first message opens
      no connection. */
  lemma HelloDecides(c: Config, size: nat, s: System, first: First)
    requires !s.panicked
    ensures var t := SysApply(c, size, s, Connect(first));
      var i := |s.conns|;
      && t.pipe == s.pipe
      && (first.Hello? && !Blank(first.client) && first.mode == Lit("producer") ==>
            && |t.conns| == i + 1
            && (forall requestID, event :: SysEnabled(c, t, By(i, ReadEvent(requestID, event))))
            && (forall filter :: !SysEnabled(c, t, By(i, ReadSubscribe(filter)))))
      && (first.Hello? && !Blank(first.client) && first.mode == Lit("monitor") ==>
            && |t.conns| == i + 1
            && (forall filter :: SysEnabled(c, t, By(i, ReadSubscribe(filter))))
            && (forall requestID, event :: !SysEnabled(c, t, By(i, ReadEvent(requestID, event)))))
      && (!Welcome(first) ==> t == s)
  {
    ModesDiffer();
  }

  /** The first messages that open a connection. */
  predicate Welcome(first: First) {
    first.Hello? && !Blank(first.client) && (first.mode == Lit("producer") || first.mode == Lit("monitor"))
  }

  // ---------------------------------------------------------------- over runs

  /** The hellos of a run that opened a connection, in order. */
  function Hellos(es: seq<Step>): seq<First> {
    if es == [] then []
    else
      var e := es[|es| - 1];
      Hellos(es[..|es| - 1]) + (if e.Connect? && Welcome(e.first) then [e.first] else [])
  }

  /** A producer's reader never subscribes, and a monitor's never reads events. */
  predicate KeepsTo(mode: Text, conn: Conn) {
    if mode == Lit("producer") then
      && conn.joined == [] && conn.wanted == []
      && (conn.reader.Reading? || conn.reader.Offering? || conn.reader.Admitted? || conn.reader.Awaiting?
          || conn.reader.Responding? || conn.reader.Closing? || conn.reader.Stopped?)
    else
      && conn.asked == [] && conn.answered == []
      && (conn.reader.Subscribing? || conn.reader.Joining? || conn.reader.Streaming? || conn.reader.Forwarding?
          || conn.reader.Leaving? || conn.reader.LeavingLocked? || (conn.reader.Responding? && conn.reader.last)
          || conn.reader.Closing? || conn.reader.Stopped?)
  }

  lemma MoveKeepsTo(size: nat, s: State, mode: Text, conn: Conn, m: Move)
    requires KeepsTo(mode, conn) && AtMove(conn.reader, m) && MoveGuard(s, conn, m)
    requires m.TakeResult? ==> conn.reader.job < |s.jobs| && s.jobs[conn.reader.job].ack.buffer != []
    requires m.Next? ==> conn.reader.sub < |s.hub.subs| && s.hub.subs[conn.reader.sub].events.buffer != []
    ensures KeepsTo(mode, NextConn(size, s, conn, m))
  {}

  ghost predicate ModeInv(hellos: seq<First>, conns: seq<Conn>) {
    && |hellos| == |conns|
    && forall i :: 0 <= i < |conns| ==> Welcome(hellos[i]) && KeepsTo(hellos[i].mode, conns[i])
  }

  lemma HelloStarts(first: First)
    requires Welcome(first)
    ensures Handshake(first).Some? && KeepsTo(first.mode, NewConn(Handshake(first).value))
  {
    ModesDiffer();
  }

  lemma ConnectModes(c: Config, size: nat, hellos: seq<First>, s: System, first: First)
    requires ModeInv(hellos, s.conns) && !s.panicked
    ensures ModeInv(hellos + (if Welcome(first) then [first] else []), SysApply(c, size, s, Connect(first)).conns)
  {
    if Welcome(first) {
      HelloStarts(first);
    }
  }

  lemma MoveModes(c: Config, size: nat, hellos: seq<First>, s: System, i: nat, m: Move)
    requires ModeInv(hellos, s.conns) && MoveEnabled(c, s, i, m)
    ensures ModeInv(hellos, MoveStep(c, size, s, i, m).conns)
  {
    if !MovePanics(s.conns[i], m) {
      MoveReady(c, s, i, m);
      MoveKeepsTo(size, s.pipe, hellos[i].mode, s.conns[i], m);
    }
  }

  lemma {:induction false} ModeRun(c: Config, size: nat, es: seq<Step>, t: System)
    requires SysRun(c, size, es) == Pipeline.Some(t)
    ensures ModeInv(Hellos(es), t.conns)
  {
    if es != [] {
      var u := SysRun(c, size, es[..|es| - 1]).value;
      var e := es[|es| - 1];
      ModeRun(c, size, es[..|es| - 1], u);
      var hellos := Hellos(es[..|es| - 1]);
      assert hellos + [] == hellos;
      match e
      case Connect(first) => ConnectModes(c, size, hellos, u, first);
      case Background(_) =>
      case By(i, m) => MoveModes(c, size, hellos, u, i, m);
    }
  }

  /** Over whole runs, the connections are those of the welcome hellos, in order; one that has read an event
      message said it was a producer, and one that has subscribed said it was a monitor. */
  lemma SidesFollowHellos(c: Config, size: nat, es: seq<Step>, t: System, i: nat)
    requires SysRun(c, size, es) == Pipeline.Some(t) && i < |t.conns|
    ensures |Hellos(es)| == |t.conns| && Hellos(es)[i].Hello? && !Blank(Hellos(es)[i].client)
    ensures t.conns[i].asked != [] ==> Hellos(es)[i].mode == Lit("producer")
    ensures t.conns[i].joined != [] || t.conns[i].wanted != [] ==> Hellos(es)[i].mode == Lit("monitor")
  {
    ModeRun(c, size, es, t);
  }
}

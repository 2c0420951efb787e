/** What a monitor connection forwards, compared with what its subscription received. */
module ConnectionStream {
  import opened Contracts
  import opened Pipeline
  import opened PipelineStream
  import opened PipelineRecords
  import opened PipelineSubs
  import opened PipelineTheorems
  import opened Connections
  import opened ConnectionTheorems

  /** The events among the messages queued on a connection. */
  function Deliveries(messages: seq<Message>): seq<Event> {
    if messages == [] then []
    else
      var n := |messages| - 1;
      Deliveries(messages[..n]) + (if messages[n].Delivery? then [messages[n].event] else [])
  }

  lemma DeliveriesStep(messages: seq<Message>, m: Message)
    ensures Deliveries(messages + [m]) == Deliveries(messages) + (if m.Delivery? then [m.event] else [])
  {
    assert (messages + [m])[..|messages|] == messages;
  }

  lemma EventsStep(ps: seq<Publication>, p: Publication)
    ensures Events(ps + [p]) == Events(ps) + [p.event]
  {}

  /** All but possibly the last. */
  predicate Behind(forwarded: seq<Event>, received: seq<Event>) {
    forwarded <= received && |received| <= |forwarded| + 1
  }

  /** How far a monitor has forwarded what it received from its subscription. */
  predicate Follows(r: Reader, sub: nat, forwarded: seq<Event>, received: seq<Event>) {
    match r
    case Streaming(own) => own == sub && forwarded == received
    case Forwarding(own, event) => own == sub && forwarded + [event] == received
    case Leaving(own) => own == sub && Behind(forwarded, received)
    case LeavingLocked(own) => own == sub && Behind(forwarded, received)
    case Closing => Behind(forwarded, received)
    case Stopped => Behind(forwarded, received)
    case _ => false
  }

  predicate HasStream(r: Reader) {
    r.Streaming? || r.Forwarding? || r.Leaving? || r.LeavingLocked?
  }

  /** A connection that never subscribed forwards nothing. */
  predicate Silent(conn: Conn) {
    && Deliveries(conn.outbound.Sent()) == []
    && !HasStream(conn.reader)
    && (conn.reader.Responding? ==> !conn.reader.message.Delivery?)
  }

  predicate StreamFits(i: nat, conn: Conn, subs: seq<Subscription>, watchers: seq<nat>) {
    && |conn.joined| <= 1
    && (conn.reader.Subscribing? ==> conn.wanted == [])
    && (conn.reader.Joining? ==> conn.wanted == [conn.reader.filter])
    && (conn.joined == [] ==> Silent(conn))
    && (conn.joined != [] ==>
          var sub := conn.joined[0];
          && sub < |subs| && sub < |watchers| && watchers[sub] == i && conn.wanted == [subs[sub].filter]
          && Follows(conn.reader, sub, Deliveries(conn.outbound.Sent()), Events(subs[sub].events.received)))
  }

  ghost predicate StreamInv(s: System) {
    forall i :: 0 <= i < |s.conns| ==> StreamFits(i, s.conns[i], s.pipe.hub.subs, s.watchers)
  }

  // ---------------------------------------------------------------- frames

  /** Filters do not change, and only a subscription's own receive changes what was received from it. */
  ghost predicate ReceivedFrame(subs: seq<Subscription>, subs': seq<Subscription>, l: Label) {
    && |subs| <= |subs'|
    && (forall k :: 0 <= k < |subs| ==> subs'[k].filter == subs[k].filter)
    && (forall k :: 0 <= k < |subs| && l != Monitor(Receive(k)) ==>
          subs'[k].events.received == subs[k].events.received)
  }

  lemma HubReceived(h: Hub, unread: bool, begun: nat, l: HubLabel)
    requires HubEnabled(h, unread, l)
    ensures ReceivedFrame(h.subs, HubNext(h, begun, l).subs, Monitor(l))
  {}

  lemma WorkReceived(bufferSize: nat, h: Hub, worker: Worker, w: nat, a: Action)
    requires AtAction(worker, a) && (a.PublishTo? ==> a.sub < |h.subs|)
    ensures ReceivedFrame(h.subs, WorkHub(bufferSize, h, worker, a).subs, Work(w, a))
  {}

  lemma PipeReceived(c: Config, s: State, l: Label)
    requires Inv(c, s) && Enabled(c, s, l)
    ensures ReceivedFrame(s.hub.subs, Apply(c, s, l).hub.subs, l)
  {
    NoPanicStep(c, s, l);
    match l
    case Work(w, a) => WorkReceived(c.bufferSize, s.hub, s.workers[w], w, a);
    case Monitor(h) => HubReceived(s.hub, NoReader(s.workers), |s.published|, h);
    case _ =>
  }

  lemma StreamFrame(i: nat, conn: Conn, subs: seq<Subscription>, subs': seq<Subscription>, l: Label,
                    watchers: seq<nat>, watchers': seq<nat>)
    requires StreamFits(i, conn, subs, watchers) && ReceivedFrame(subs, subs', l) && watchers <= watchers'
    requires conn.joined != [] ==> l != Monitor(Receive(conn.joined[0]))
    ensures StreamFits(i, conn, subs', watchers')
  {}

  // ---------------------------------------------------------------- moves of the connection itself

  lemma PushDeliveries(size: nat, conn: Conn, m: Message)
    ensures Deliveries(Push(size, conn, m).outbound.Sent())
         == Deliveries(conn.outbound.Sent())
            + (if m.Delivery? && |conn.outbound.buffer| < size then [m.event] else [])
  {
    assert conn.outbound.Push(m).Sent() == conn.outbound.Sent() + [m];
    DeliveriesStep(conn.outbound.Sent(), m);
  }

  lemma RespondEffect(size: nat, s: State, conn: Conn)
    requires conn.reader.Responding?
    ensures var next := NextConn(size, s, conn, Respond);
      && next.outbound == Push(size, conn, conn.reader.message).outbound
      && next.joined == conn.joined && next.wanted == conn.wanted && (next.reader.Closing? || next.reader.Reading?)
  {}

  lemma RespondStream(size: nat, i: nat, s: State, conn: Conn, watchers: seq<nat>)
    requires conn.reader.Responding? && StreamFits(i, conn, s.hub.subs, watchers)
    ensures StreamFits(i, NextConn(size, s, conn, Respond), s.hub.subs, watchers)
  {
    RespondEffect(size, s, conn);
    PushDeliveries(size, conn, conn.reader.message);
  }

  lemma ForwardStream(size: nat, i: nat, s: State, conn: Conn, watchers: seq<nat>)
    requires conn.reader.Forwarding? && StreamFits(i, conn, s.hub.subs, watchers)
    ensures StreamFits(i, NextConn(size, s, conn, Forward), s.hub.subs, watchers)
  {
    PushDeliveries(size, conn.(reader := NextReader(size, s, conn, Forward)), Delivery(conn.reader.event));
  }

  lemma WriteStream(size: nat, i: nat, s: State, conn: Conn, watchers: seq<nat>)
    requires conn.outbound.buffer != [] && StreamFits(i, conn, s.hub.subs, watchers)
    ensures StreamFits(i, conn.(outbound := conn.outbound.Pop()), s.hub.subs, watchers)
  {
    assert conn.outbound.Pop().Sent() == conn.outbound.Sent();
  }

  /** A move that neither sends nor writes nor touches the pipeline queues nothing. */
  lemma IdleEffect(size: nat, i: nat, s: State, conn: Conn, m: Move)
    requires AtMove(conn.reader, m) && MoveGuard(s, conn, m) && PipeLabel(conn.reader, i, m).None?
    requires !m.Respond? && !m.Forward? && !m.Write?
    ensures var next := NextConn(size, s, conn, m);
      && next.outbound.Sent() == conn.outbound.Sent() && next.joined == conn.joined
      && next.wanted == (if m.ReadSubscribe? then conn.wanted + [m.filter] else conn.wanted)
      && next.reader == NextReader(size, s, conn, m)
  {}

  lemma IdleStream(size: nat, i: nat, s: State, conn: Conn, m: Move, watchers: seq<nat>)
    requires AtMove(conn.reader, m) && MoveGuard(s, conn, m) && PipeLabel(conn.reader, i, m).None?
    requires !m.Respond? && !m.Forward? && !m.Write?
    requires StreamFits(i, conn, s.hub.subs, watchers)
    ensures StreamFits(i, NextConn(size, s, conn, m), s.hub.subs, watchers)
  {
    IdleEffect(size, i, s, conn, m);
    if conn.joined == [] {
      assert Silent(NextConn(size, s, conn, m));
    }
  }

  /** A move without a pipeline label. */
  lemma QuietStream(size: nat, i: nat, s: State, conn: Conn, m: Move, watchers: seq<nat>)
    requires AtMove(conn.reader, m) && MoveGuard(s, conn, m) && PipeLabel(conn.reader, i, m).None?
    requires StreamFits(i, conn, s.hub.subs, watchers)
    ensures StreamFits(i, NextConn(size, s, conn, m), s.hub.subs, watchers)
  {
    match m
    case Respond => RespondStream(size, i, s, conn, watchers);
    case Forward => ForwardStream(size, i, s, conn, watchers);
    case Write => WriteStream(size, i, s, conn, watchers);
    case _ => IdleStream(size, i, s, conn, m, watchers);
  }

  /** Joining starts a stream at the new, still empty subscription. */
  lemma JoinStream(size: nat, i: nat, s: State, conn: Conn, begun: nat, watchers: seq<nat>)
    requires conn.reader.Joining? && StreamFits(i, conn, s.hub.subs, watchers) && |watchers| == |s.hub.subs|
    requires HubEnabled(s.hub, true, HubLabel.Subscribe(conn.reader.filter))
    ensures StreamFits(i, NextConn(size, s, conn, Join),
                       HubNext(s.hub, begun, HubLabel.Subscribe(conn.reader.filter)).subs, watchers + [i])
  {}

  /** Receiving puts the event into the reader's hand. */
  lemma NextStream(size: nat, i: nat, s: State, conn: Conn, begun: nat, watchers: seq<nat>)
    requires conn.reader.Streaming? && StreamFits(i, conn, s.hub.subs, watchers)
    requires conn.reader.sub < |s.hub.subs| && s.hub.subs[conn.reader.sub].events.buffer != []
    ensures StreamFits(i, NextConn(size, s, conn, Next), HubNext(s.hub, begun, Receive(conn.reader.sub)).subs, watchers)
  {
    var sub := conn.reader.sub;
    EventsStep(s.hub.subs[sub].events.received, s.hub.subs[sub].events.buffer[0]);
  }

  lemma OtherLabelStream(size: nat, i: nat, s: State, conn: Conn, m: Move, subs': seq<Subscription>,
                         watchers: seq<nat>, l: Label)
    requires AtMove(conn.reader, m) && MoveGuard(s, conn, m) && PipeLabel(conn.reader, i, m) == Pipeline.Some(l)
    requires !m.Join? && !m.Next? && (m.TakeResult? ==> conn.reader.job < |s.jobs| && s.jobs[conn.reader.job].ack.buffer != [])
    requires StreamFits(i, conn, s.hub.subs, watchers) && ReceivedFrame(s.hub.subs, subs', l)
    ensures StreamFits(i, NextConn(size, s, conn, m), subs', watchers)
  {}

  lemma MoverStream(c: Config, size: nat, s: System, i: nat, m: Move)
    requires SysInv(c, size, s) && StreamInv(s) && MoveEnabled(c, s, i, m) && !MovePanics(s.conns[i], m)
    ensures var t := MoveStep(c, size, s, i, m);
      StreamFits(i, t.conns[i], t.pipe.hub.subs, t.watchers)
  {
    var conn := s.conns[i];
    MoveReady(c, s, i, m);
    match PipeLabel(conn.reader, i, m)
    case None => QuietStream(size, i, s.pipe, conn, m, s.watchers);
    case Some(l) =>
      NoPanicStep(c, s.pipe, l);
      PipeReceived(c, s.pipe, l);
      if m.Join? {
        JoinStream(size, i, s.pipe, conn, |s.pipe.published|, s.watchers);
      } else if m.Next? {
        NextStream(size, i, s.pipe, conn, |s.pipe.published|, s.watchers);
      } else {
        OtherLabelStream(size, i, s.pipe, conn, m, Apply(c, s.pipe, l).hub.subs, s.watchers, l);
      }
  }

  /** The move of one connection leaves another connection's stream alone. */
  lemma OthersStream(c: Config, size: nat, s: System, k: nat, m: Move, i: nat)
    requires SysInv(c, size, s) && StreamInv(s) && MoveEnabled(c, s, k, m) && !MovePanics(s.conns[k], m)
    requires i < |s.conns| && i != k
    ensures var t := MoveStep(c, size, s, k, m);
      t.conns[i] == s.conns[i] && StreamFits(i, s.conns[i], t.pipe.hub.subs, t.watchers)
  {
    var t := MoveStep(c, size, s, k, m);
    assert StreamFits(i, s.conns[i], s.pipe.hub.subs, s.watchers);
    assert StreamFits(k, s.conns[k], s.pipe.hub.subs, s.watchers);
    match PipeLabel(s.conns[k].reader, k, m)
    case None =>
    case Some(l) =>
      PipeReceived(c, s.pipe, l);
      StreamFrame(i, s.conns[i], s.pipe.hub.subs, t.pipe.hub.subs, l, s.watchers, t.watchers);
  }

  lemma BackgroundStream(c: Config, size: nat, s: System, l: Label)
    requires SysInv(c, size, s) && StreamInv(s) && IsInternal(l) && Enabled(c, s.pipe, l)
    ensures StreamInv(s.(pipe := Apply(c, s.pipe, l)))
  {
    PipeReceived(c, s.pipe, l);
    forall i | 0 <= i < |s.conns|
      ensures StreamFits(i, s.conns[i], Apply(c, s.pipe, l).hub.subs, s.watchers)
    {
      StreamFrame(i, s.conns[i], s.pipe.hub.subs, Apply(c, s.pipe, l).hub.subs, l, s.watchers, s.watchers);
    }
  }

  lemma MoveStream(c: Config, size: nat, s: System, k: nat, m: Move)
    requires SysInv(c, size, s) && StreamInv(s) && MoveEnabled(c, s, k, m)
    ensures StreamInv(MoveStep(c, size, s, k, m))
  {
    MoveNeverPanics(c, size, s, k, m);
    var t := MoveStep(c, size, s, k, m);
    forall i | 0 <= i < |t.conns| ensures StreamFits(i, t.conns[i], t.pipe.hub.subs, t.watchers) {
      if i == k {
        MoverStream(c, size, s, k, m);
      } else {
        OthersStream(c, size, s, k, m, i);
      }
    }
  }

  lemma ConnectStream(c: Config, size: nat, s: System, first: First)
    requires StreamInv(s) && !s.panicked
    ensures StreamInv(SysApply(c, size, s, Connect(first)))
  {
    if Handshake(first).Some? {
      assert Silent(NewConn(Handshake(first).value));
    }
  }

  lemma StreamStep(c: Config, size: nat, s: System, e: Step)
    requires SysInv(c, size, s) && StreamInv(s) && SysEnabled(c, s, e)
    ensures StreamInv(SysApply(c, size, s, e))
  {
    match e
    case Connect(first) => ConnectStream(c, size, s, first);
    case Background(l) => BackgroundStream(c, size, s, l);
    case By(k, m) => MoveStream(c, size, s, k, m);
  }

  lemma {:induction false} StreamRun(c: Config, size: nat, es: seq<Step>, t: System)
    requires SysRun(c, size, es) == Pipeline.Some(t)
    ensures SysInv(c, size, t) && StreamInv(t)
  {
    SysRunInv(c, size, es, t);
    if es != [] {
      var u := SysRun(c, size, es[..|es| - 1]).value;
      StreamRun(c, size, es[..|es| - 1], u);
      StreamStep(c, size, u, es[|es| - 1]);
    }
  }

  /** A connection forwards the events it received from its one subscription, which has the filter the
      client asked for, in order and without gaps; at most the last is missing, while it is in the reader's
      hand or because the outbound queue was full and the monitor was dropped. */
  lemma MonitorForwards(c: Config, size: nat, s: System, i: nat)
    requires SysReachable(c, size, s) && i < |s.conns|
    ensures var conn := s.conns[i];
      var forwarded := Deliveries(conn.outbound.Sent());
      && |conn.joined| <= 1
      && (conn.joined == [] ==> forwarded == [])
      && (conn.joined != [] ==>
            && conn.joined[0] < |s.pipe.hub.subs|
            && conn.wanted == [s.pipe.hub.subs[conn.joined[0]].filter]
            && Behind(forwarded, Events(s.pipe.hub.subs[conn.joined[0]].events.received))
            && (conn.reader.Streaming? ==> forwarded == Events(s.pipe.hub.subs[conn.joined[0]].events.received)))
  {
    var es :| SysRun(c, size, es) == Pipeline.Some(s);
    StreamRun(c, size, es, s);
    assert StreamFits(i, s.conns[i], s.pipe.hub.subs, s.watchers);
  }

  lemma {:induction false} MatchingMember(filter: EventFilter, ps: seq<Publication>, p: Publication)
    requires p in Matching(filter, ps)
    ensures p in ps && Selects(filter, p.event)
  {
    var n := |ps| - 1;
    if p in Matching(filter, ps[..n]) {
      MatchingMember(filter, ps[..n], p);
    }
  }

  /** What a subscriber was sent was published, and matches its filter. */
  lemma SentWasPublished(i: nat, sub: Subscription, ws: seq<Worker>, published: seq<Publication>,
                         bufferSize: nat, p: Publication)
    requires SubFits(bufferSize, sub, |published|) && CountInv(i, sub, ws, published)
    requires p in sub.events.Sent()
    ensures p in published && Selects(sub.filter, p.event)
  {
    assert p in multiset(sub.events.Sent());
    assert p in multiset(sub.offered);
    assert p in multiset(Matching(sub.filter, Window(sub, published)));
    MatchingMember(sub.filter, Window(sub, published), p);
  }

  /** A monitor is only ever sent events that the store has accepted and that match the filter it asked for. */
  lemma ForwardedWasStored(c: Config, size: nat, s: System, i: nat, k: nat) returns (p: Publication)
    requires SysReachable(c, size, s) && i < |s.conns|
    requires k < |Deliveries(s.conns[i].outbound.Sent())|
    ensures p in s.pipe.stored && p.event == Deliveries(s.conns[i].outbound.Sent())[k]
    ensures |s.conns[i].wanted| == 1 && Selects(s.conns[i].wanted[0], p.event)
  {
    MonitorForwards(c, size, s, i);
    SysReachableInv(c, size, s);
    var j := s.conns[i].joined[0];
    var sub := s.pipe.hub.subs[j];
    p := sub.events.received[k];
    assert p == sub.events.Sent()[k];
    SentWasPublished(j, sub, s.pipe.workers, s.pipe.published, c.bufferSize, p);
    PublishedAreStored(s.pipe, p);
  }
}

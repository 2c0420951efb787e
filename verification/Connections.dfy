/**
  Producer and monitor connections on top of the pipeline.  Every connection has a reader goroutine, a
  write pump and a bounded outbound queue; both loops use the dispatcher only through pipeline labels.
  */
module Connections {
  import opened Contracts
  import opened Channels
  import opened Texts
  import opened Pipeline

  datatype Mode = Producer | Watcher

  /** The first message of a connection, already decoded. */
  datatype First = Unreadable | NotHello | Hello(mode: Text, client: Text)

  /** performHandshake: the mode the connection continues in, or none if it is turned away. */
  function Handshake(first: First): Option<Mode> {
    if !first.Hello? || Blank(first.client) then None
    else if first.mode == Lit("producer") then Some(Producer)
    else if first.mode == Lit("monitor") then Some(Watcher)
    else None
  }

  datatype Code = MissingRequiredField | StorageUnavailable | Internal | InvalidMessage | Mapped

  datatype Message =
    | Ack(requestID: Text, eventID: Text)
    | Error(requestID: Text, code: Code)
    | Delivery(event: Event)

  /** The program points of the reader.  `Responding` is about to call send; `last` says that the read
      loop returns afterwards. */
  datatype Reader =
    | Reading
    | Offering(requestID: Text, event: Event)
    | Admitted(requestID: Text)              // inside Submit's critical section
    | Awaiting(requestID: Text, job: nat)
    | Responding(message: Message, last: bool)
    | Subscribing
    | Joining(filter: EventFilter)
    | Streaming(sub: nat)
    | Forwarding(sub: nat, event: Event)
    | Leaving(sub: nat)
    | LeavingLocked(sub: nat)
    | Closing
    | Stopped

  /** An event message. */
  datatype Asked = Asked(requestID: Text, event: Event)

  /** `asked` lists the event messages read, `answered` the responses attempted for them, `places` how many
      had been attempted before each message queued, `wanted` the filters subscribed with, and `joined` the
      subscriptions opened. */
  datatype Conn = Conn(
    reader: Reader,
    outbound: Chan<Message>,
    pumping: bool,
    asked: seq<Asked>,
    answered: seq<Message>,
    places: seq<nat>,
    wanted: seq<EventFilter>,
    joined: seq<nat>)

  /** Who submitted a job, and for which of its event messages. */
  datatype Owner = Owner(conn: nat, requestID: Text, number: nat)

  datatype System = System(pipe: State, conns: seq<Conn>, owners: seq<Owner>, watchers: seq<nat>, panicked: bool)

  function Start(c: Config): System {
    System(Init(c), [], [], [], false)
  }

  datatype Move =
    | ReadEvent(requestID: Text, event: Event)
    | ReadSubscribe(filter: EventFilter)
    | ReadFail(code: Code)
    | LockAdmission
    | CheckAccepting
    | Enqueue
    | QueueFull
    | TakeResult
    | ResultClosed
    | Timeout
    | Respond
    | Join
    | Next
    | StreamEnd
    | Forward
    | Leave
    | FinishLeave
    | CloseOutbound
    | Write
    | StopPump

  datatype Step =
    | Connect(first: First)
    | Background(l: Label)
    | By(conn: nat, m: Move)

  /** The pipeline labels that no connection performs. */
  predicate IsInternal(l: Label) {
    match l
    case Work(_, _) => true
    case Admit(g) => g.StopEnter? || g.StopLock? || g.StopFlag? || g.StopClose? || g.StopUnlock?
    case ReturnDrained => true
    case ReturnDeadline => true
    case _ => false
  }

  predicate AtMove(r: Reader, m: Move) {
    match m
    case ReadEvent(_, _) => r.Reading?
    case ReadSubscribe(_) => r.Subscribing?
    case ReadFail(_) => r.Reading? || r.Subscribing?
    case LockAdmission => r.Offering?
    case CheckAccepting => r.Admitted?
    case Enqueue => r.Admitted?
    case QueueFull => r.Admitted?
    case TakeResult => r.Awaiting?
    case ResultClosed => r.Awaiting?
    case Timeout => r.Awaiting?
    case Respond => r.Responding?
    case Join => r.Joining?
    case Next => r.Streaming?
    case StreamEnd => r.Streaming?
    case Forward => r.Forwarding?
    case Leave => r.Leaving?
    case FinishLeave => r.LeavingLocked?
    case CloseOutbound => r.Closing?
    case Write => true
    case StopPump => true
  }

  /** The pipeline label a move performs, if any. */
  function PipeLabel(r: Reader, conn: nat, m: Move): Option<Label>
    requires AtMove(r, m)
  {
    match m
    case LockAdmission => Some(Admit(SubmitLock(conn, r.event)))
    case CheckAccepting => Some(Admit(SubmitCheck))
    case Enqueue => Some(Admit(SubmitSend))
    case QueueFull => Some(Admit(SubmitFull))
    case TakeResult => Some(TakeAck(r.job))
    case Join => Some(Monitor(Subscribe(r.filter)))
    case Next => Some(Monitor(Receive(r.sub)))
    case Leave => Some(Monitor(Unsubscribe(r.sub)))
    case FinishLeave => Some(Monitor(UnsubscribeClose))
    case _ => None
  }

  /** The conditions of a move that do not come from its pipeline label. */
  predicate MoveGuard(s: State, conn: Conn, m: Move)
    requires AtMove(conn.reader, m)
  {
    match m
    case ResultClosed => var j := conn.reader.job;
      j < |s.jobs| && s.jobs[j].ack.closed && s.jobs[j].ack.buffer == []
    case StreamEnd => var i := conn.reader.sub;
      i < |s.hub.subs| && s.hub.subs[i].events.closed && s.hub.subs[i].events.buffer == []
    case Write => conn.pumping && conn.outbound.buffer != []
    case StopPump => conn.pumping
    case _ => true
  }

  predicate MoveEnabled(c: Config, s: System, i: nat, m: Move) {
    && i < |s.conns|
    && AtMove(s.conns[i].reader, m)
    && MoveGuard(s.pipe, s.conns[i], m)
    && match PipeLabel(s.conns[i].reader, i, m)
       case None => true
       case Some(l) => Enabled(c, s.pipe, l)
  }

  /** send: the message is queued, or lost when the queue is full. */
  function Push(size: nat, conn: Conn, message: Message): Conn {
    if |conn.outbound.buffer| < size then
      conn.(outbound := conn.outbound.Push(message), places := conn.places + [|conn.answered|])
    else conn
  }

  /** The reader's next program point; `s` is the pipeline before the move. */
  function NextReader(size: nat, s: State, conn: Conn, m: Move): Reader
    requires AtMove(conn.reader, m)
    requires m.TakeResult? ==> conn.reader.job < |s.jobs| && s.jobs[conn.reader.job].ack.buffer != []
    requires m.Next? ==> conn.reader.sub < |s.hub.subs| && s.hub.subs[conn.reader.sub].events.buffer != []
  {
    var r := conn.reader;
    match m
    case ReadEvent(requestID, event) =>
      if Blank(requestID) then Responding(Error([], MissingRequiredField), false) else Offering(requestID, event)
    case ReadSubscribe(filter) => Joining(filter)
    case ReadFail(code) => Responding(Error([], code), true)
    case LockAdmission => Admitted(r.requestID)
    case CheckAccepting =>
      if s.gate.accepting then r else Responding(Error(r.requestID, StorageUnavailable), false)
    case Enqueue => Awaiting(r.requestID, |s.jobs|)
    case QueueFull => Responding(Error(r.requestID, StorageUnavailable), false)
    case TakeResult =>
      var outcome := s.jobs[r.job].ack.buffer[0];
      if outcome.ok then Responding(Ack(r.requestID, outcome.event.eventID), false)
      else Responding(Error(r.requestID, Mapped), false)
    case ResultClosed => Responding(Error(r.requestID, Internal), false)
    case Timeout => Responding(Error(r.requestID, Internal), false)
    case Respond => if r.last then Closing else Reading
    case Join => Streaming(|s.hub.subs|)
    case Next => Forwarding(r.sub, s.hub.subs[r.sub].events.buffer[0].event)
    case StreamEnd => Leaving(r.sub)
    case Forward => if |conn.outbound.buffer| < size then Streaming(r.sub) else Leaving(r.sub)
    case Leave => LeavingLocked(r.sub)
    case FinishLeave => Closing
    case CloseOutbound => Stopped
    case Write => r
    case StopPump => r
  }

  function NextConn(size: nat, s: State, conn: Conn, m: Move): Conn
    requires AtMove(conn.reader, m) && MoveGuard(s, conn, m)
    requires m.TakeResult? ==> conn.reader.job < |s.jobs| && s.jobs[conn.reader.job].ack.buffer != []
    requires m.Next? ==> conn.reader.sub < |s.hub.subs| && s.hub.subs[conn.reader.sub].events.buffer != []
  {
    var moved := conn.(reader := NextReader(size, s, conn, m));
    match m
    case ReadEvent(requestID, event) => moved.(asked := conn.asked + [Asked(requestID, event)])
    case ReadSubscribe(filter) => moved.(wanted := conn.wanted + [filter])
    case Respond =>
      var sent := Push(size, moved, conn.reader.message);
      if conn.reader.last then sent else sent.(answered := conn.answered + [conn.reader.message])
    case Join => moved.(joined := conn.joined + [|s.hub.subs|])
    case Forward => Push(size, moved, Delivery(conn.reader.event))
    case CloseOutbound => moved.(outbound := conn.outbound.Shut())
    case Write => moved.(outbound := conn.outbound.Pop())
    case StopPump => moved.(pumping := false)
    case _ => moved
  }

  /** Sending on, or closing, a closed outbound queue. */
  predicate MovePanics(conn: Conn, m: Move) {
    (m.Respond? || m.Forward? || m.CloseOutbound?) && conn.outbound.closed
  }

  function MoveStep(c: Config, size: nat, s: System, i: nat, m: Move): System
    requires MoveEnabled(c, s, i, m)
  {
    var conn := s.conns[i];
    if MovePanics(conn, m) then s.(panicked := true)
    else
      System(
        match PipeLabel(conn.reader, i, m) case None => s.pipe case Some(l) => Apply(c, s.pipe, l),
        s.conns[i := NextConn(size, s.pipe, conn, m)],
        if m.Enqueue? then s.owners + [Owner(i, conn.reader.requestID, |conn.answered|)] else s.owners,
        if m.Join? then s.watchers + [i] else s.watchers,
        false)
  }

  predicate SysEnabled(c: Config, s: System, e: Step) {
    !s.panicked &&
    match e
    case Connect(_) => true
    case Background(l) => IsInternal(l) && Enabled(c, s.pipe, l)
    case By(i, m) => MoveEnabled(c, s, i, m)
  }

  function NewConn(mode: Mode): Conn {
    Conn(if mode.Producer? then Reading else Subscribing, Open(), true, [], [], [], [], [])
  }

  function SysApply(c: Config, size: nat, s: System, e: Step): System
    requires SysEnabled(c, s, e)
  {
    match e
    case Connect(first) =>
      (match Handshake(first)
       case None => s
       case Some(mode) => s.(conns := s.conns + [NewConn(mode)]))
    case Background(l) => s.(pipe := Apply(c, s.pipe, l))
    case By(i, m) => MoveStep(c, size, s, i, m)
  }

  /** `size` is the outbound queue size newConnection uses. */
  function SysRun(c: Config, size: nat, es: seq<Step>): Option<System> {
    if es == [] then Some(Start(c))
    else match SysRun(c, size, es[..|es| - 1])
      case None => None
      case Some(t) =>
        if SysEnabled(c, t, es[|es| - 1]) then Some(SysApply(c, size, t, es[|es| - 1])) else None
  }

  ghost predicate SysReachable(c: Config, size: nat, s: System) {
    exists es :: SysRun(c, size, es) == Some(s)
  }
}

/**
  The dispatcher, its workers, the event store as they see it, and the publisher, as one labelled
  transition system.  A label is one atomic action of one goroutine; a run is a sequence of labels.
  Sending on or closing a closed channel does not disable a label: it sets `panicked`, as in Go.
  */
module Pipeline {
  import opened Contracts
  import opened Channels

  datatype Config = Config(queueSize: nat, workerCount: nat, bufferSize: nat)

  /** The arguments NewDispatcher accepts, and the positive buffer size NewEventPublisher falls back to. */
  predicate ValidConfig(c: Config) {
    c.queueSize > 0 && c.workerCount > 0 && c.bufferSize > 0
  }

  datatype EventResult = EventResult(event: Event, ok: bool)

  /** A processed event tagged with the job it came from. */
  datatype Publication = Publication(job: nat, event: Event)

  /** A job, identified by its position in acceptance order, and its one-slot ack channel. */
  datatype Job = Job(event: Event, ack: Chan<EventResult>)

  // ---------------------------------------------------------------- admission

  /** Who holds the admission mutex, and how far it has got. */
  datatype Admission =
    | Free
    | Submitting(caller: nat, event: Event)  // lock held, flag not read yet
    | Admitting(caller: nat, event: Event)   // flag read as true
    | Stopping                               // once body, flag still true
    | Flagged                                // flag cleared, channel still open
    | Shut                                   // channel closed, lock still held

  datatype Once = Unused | Entered | Running | Done

  datatype Gate = Gate(admission: Admission, accepting: bool, once: Once, jobsClosed: bool)

  datatype GateLabel =
    | SubmitLock(caller: nat, event: Event)
    | SubmitCheck
    | SubmitSend
    | SubmitCancel
    | SubmitFull
    | StopEnter
    | StopLock
    | StopFlag
    | StopClose
    | StopUnlock

  /** `room` says whether the job channel has a free slot. */
  predicate GateEnabled(g: Gate, room: bool, l: GateLabel) {
    match l
    case SubmitLock(_, _) => g.admission.Free?
    case SubmitCheck => g.admission.Submitting?
    case SubmitSend => g.admission.Admitting? && (room || g.jobsClosed)
    case SubmitCancel => g.admission.Admitting?
    case SubmitFull => g.admission.Admitting? && !room
    case StopEnter => g.once.Unused?
    case StopLock => g.once.Entered? && g.admission.Free?
    case StopFlag => g.admission.Stopping?
    case StopClose => g.admission.Flagged?
    case StopUnlock => g.admission.Shut?
  }

  function GateNext(g: Gate, l: GateLabel): Gate
    requires l.SubmitCheck? ==> g.admission.Submitting?
  {
    match l
    case SubmitLock(caller, event) => g.(admission := Submitting(caller, event))
    case SubmitCheck =>
      g.(admission := if g.accepting then Admitting(g.admission.caller, g.admission.event) else Free)
    case SubmitSend => g.(admission := Free)
    case SubmitCancel => g.(admission := Free)
    case SubmitFull => g.(admission := Free)
    case StopEnter => g.(once := Entered)
    case StopLock => g.(once := Running, admission := Stopping)
    case StopFlag => g.(accepting := false, admission := Flagged)
    case StopClose => g.(jobsClosed := true, admission := Shut)
    case StopUnlock => g.(admission := Free, once := Done)
  }

  // ---------------------------------------------------------------- publisher

  /** `offered` lists the matching publications Publish brought here; `since` and `until` delimit the
      publications begun while the subscription was in the publisher's map. */
  datatype Subscription = Subscription(
    filter: EventFilter,
    events: Chan<Publication>,
    onceUsed: bool,
    since: nat,
    until: nat,
    offered: seq<Publication>,
    dropped: seq<Publication>)

  /** Subscriptions are named by creation order; `live` is the publisher's map, and `closing` is the
      subscription whose Close holds the write lock between the delete and the close. */
  datatype Hub = Hub(subs: seq<Subscription>, live: set<nat>, closing: seq<nat>)

  datatype HubLabel =
    | Subscribe(filter: EventFilter)
    | Unsubscribe(sub: nat)
    | UnsubscribeClose
    | Receive(sub: nat)

  /** `unread` says that no worker holds the publisher's read lock. */
  predicate HubEnabled(h: Hub, unread: bool, l: HubLabel) {
    match l
    case Subscribe(_) => h.closing == [] && unread
    case Unsubscribe(sub) => sub < |h.subs| && !h.subs[sub].onceUsed && h.closing == [] && unread
    case UnsubscribeClose => h.closing != [] && h.closing[0] < |h.subs|
    case Receive(sub) => sub < |h.subs| && h.subs[sub].events.buffer != []
  }

  function NewSubscription(filter: EventFilter, since: nat): Subscription {
    Subscription(filter, Open(), false, since, since, [], [])
  }

  /** `begun` is the number of publications begun so far. */
  function HubNext(h: Hub, begun: nat, l: HubLabel): Hub
    requires HubEnabled(h, true, l) || HubEnabled(h, false, l)
  {
    match l
    case Subscribe(filter) => h.(subs := h.subs + [NewSubscription(filter, begun)], live := h.live + {|h.subs|})
    case Unsubscribe(sub) =>
      Hub(h.subs[sub := h.subs[sub].(onceUsed := true, until := begun)], h.live - {sub}, [sub])
    case UnsubscribeClose =>
      var sub := h.closing[0];
      h.(subs := h.subs[sub := h.subs[sub].(events := h.subs[sub].events.Shut())], closing := [])
    case Receive(sub) => h.(subs := h.subs[sub := h.subs[sub].(events := h.subs[sub].events.Pop())])
  }

  /** One iteration of Publish's loop: a full buffer loses the event instead of blocking. */
  function Offer(bufferSize: nat, sub: Subscription, p: Publication): Subscription {
    if !Selects(sub.filter, p.event) then sub
    else if |sub.events.buffer| < bufferSize then
      sub.(events := sub.events.Push(p), offered := sub.offered + [p])
    else
      sub.(offered := sub.offered + [p], dropped := sub.dropped + [p])
  }

  // ---------------------------------------------------------------- workers

  datatype Worker =
    | Idle
    | Processing(job: nat)
    | Storing(job: nat, event: Event)
    | Persisted(job: nat, event: Event)
    | Publishing(job: nat, event: Event, pending: set<nat>)
    | Replying(job: nat, result: EventResult)
    | Releasing(job: nat)
    | Exited

  datatype Action =
    | Dequeue
    | Process(processed: Event, ok: bool)
    | Store(ok: bool)
    | PublishBegin
    | PublishTo(sub: nat)
    | PublishEnd
    | Reply
    | Release
    | Exit

  predicate Busy(w: Worker) {
    !w.Idle? && !w.Exited?
  }

  /** The program point an action starts from. */
  predicate AtAction(w: Worker, a: Action) {
    match a
    case Dequeue => w.Idle?
    case Process(_, _) => w.Processing?
    case Store(_) => w.Storing?
    case PublishBegin => w.Persisted?
    case PublishTo(sub) => w.Publishing? && sub in w.pending
    case PublishEnd => w.Publishing? && w.pending == {}
    case Reply => w.Replying?
    case Release => w.Releasing?
    case Exit => w.Idle?
  }

  /** The next program point; `next` is the job at the head of the queue. */
  function Advance(w: Worker, a: Action, next: nat, live: set<nat>): Worker
    requires AtAction(w, a)
  {
    match a
    case Dequeue => Processing(next)
    case Process(processed, ok) =>
      if ok then Storing(w.job, processed) else Replying(w.job, EventResult(processed, false))
    case Store(ok) =>
      if ok then Persisted(w.job, w.event) else Replying(w.job, EventResult(w.event, false))
    case PublishBegin => Publishing(w.job, w.event, live)
    case PublishTo(sub) => w.(pending := w.pending - {sub})
    case PublishEnd => Replying(w.job, EventResult(w.event, true))
    case Reply => Releasing(w.job)
    case Release => Idle
    case Exit => Exited
  }

  // ---------------------------------------------------------------- the whole system

  datatype State = State(
    gate: Gate,
    queue: seq<nat>,
    workers: seq<Worker>,
    jobs: seq<Job>,
    stored: seq<Publication>,
    published: seq<Publication>,
    replies: seq<nat>,
    hub: Hub,
    panicked: bool)

  function Init(c: Config): State {
    State(Gate(Free, true, Unused, false), [], seq(c.workerCount, _ => Idle), [], [], [], [], Hub([], {}, []), false)
  }

  datatype Label =
    | Admit(g: GateLabel)
    | Work(w: nat, a: Action)
    | Monitor(h: HubLabel)
    | TakeAck(job: nat)
    | ReturnDrained
    | ReturnDeadline

  /** What any EventStore promises about an accepted event: its ID is non-empty and new. */
  predicate Storable(stored: seq<Publication>, event: Event) {
    event.eventID != [] && forall k :: 0 <= k < |stored| ==> stored[k].event.eventID != event.eventID
  }

  predicate WorkEnabled(s: State, w: nat, a: Action) {
    w < |s.workers| && AtAction(s.workers[w], a) &&
    match a
    case Dequeue => s.queue != []
    case Store(ok) => ok ==> Storable(s.stored, s.workers[w].event)
    case PublishBegin => s.hub.closing == []
    case PublishTo(sub) => sub < |s.hub.subs|
    case Reply => var j := s.workers[w].job;
      j < |s.jobs| && (s.jobs[j].ack.buffer == [] || s.jobs[j].ack.closed)
    case Release => s.workers[w].job < |s.jobs|
    case Exit => s.queue == [] && s.gate.jobsClosed
    case _ => true
  }

  /** No worker holds the publisher's read lock. */
  predicate NoReader(workers: seq<Worker>) {
    forall w :: 0 <= w < |workers| ==> !workers[w].Publishing?
  }

  predicate AllExited(workers: seq<Worker>) {
    forall w :: 0 <= w < |workers| ==> workers[w].Exited?
  }

  predicate Enabled(c: Config, s: State, l: Label) {
    !s.panicked &&
    match l
    case Admit(g) => GateEnabled(s.gate, |s.queue| < c.queueSize, g)
    case Work(w, a) => WorkEnabled(s, w, a)
    case Monitor(h) => HubEnabled(s.hub, NoReader(s.workers), h)
    case TakeAck(job) => job < |s.jobs| && s.jobs[job].ack.buffer != []
    case ReturnDrained => s.gate.once.Done? && AllExited(s.workers)
    case ReturnDeadline => s.gate.once.Done?
  }

  /** The enabled actions that send on, or close, a closed channel. */
  predicate Panics(c: Config, s: State, l: Label)
    requires Enabled(c, s, l)
  {
    match l
    case Admit(g) => (g.SubmitSend? || g.StopClose?) && s.gate.jobsClosed
    case Work(w, a) =>
      (match a
       case PublishTo(sub) =>
         s.hub.subs[sub].events.closed && Selects(s.hub.subs[sub].filter, s.workers[w].event)
       case Reply => s.jobs[s.workers[w].job].ack.closed
       case Release => s.jobs[s.workers[w].job].ack.closed
       case _ => false)
    case Monitor(h) => h.UnsubscribeClose? && s.hub.subs[s.hub.closing[0]].events.closed
    case _ => false
  }

  function WithAck(jobs: seq<Job>, j: nat, ack: Chan<EventResult>): seq<Job>
    requires j < |jobs|
  {
    jobs[j := jobs[j].(ack := ack)]
  }

  function WorkQueue(queue: seq<nat>, a: Action): seq<nat>
    requires a.Dequeue? ==> queue != []
  {
    if a.Dequeue? then queue[1..] else queue
  }

  function WorkJobs(jobs: seq<Job>, w: Worker, a: Action): seq<Job>
    requires AtAction(w, a) && (a.Reply? || a.Release? ==> w.job < |jobs|)
  {
    if a.Reply? then WithAck(jobs, w.job, jobs[w.job].ack.Push(w.result))
    else if a.Release? then WithAck(jobs, w.job, jobs[w.job].ack.Shut())
    else jobs
  }

  /** What an action adds to the store. */
  function StoreDelta(w: Worker, a: Action): seq<Publication>
    requires AtAction(w, a)
  {
    if a.Store? && a.ok then [Publication(w.job, w.event)] else []
  }

  /** What an action adds to the log of begun publications. */
  function PublishDelta(w: Worker, a: Action): seq<Publication>
    requires AtAction(w, a)
  {
    if a.PublishBegin? then [Publication(w.job, w.event)] else []
  }

  function WorkHub(bufferSize: nat, h: Hub, w: Worker, a: Action): Hub
    requires AtAction(w, a) && (a.PublishTo? ==> a.sub < |h.subs|)
  {
    if a.PublishTo? then
      h.(subs := h.subs[a.sub := Offer(bufferSize, h.subs[a.sub], Publication(w.job, w.event))])
    else h
  }

  function WorkStep(c: Config, s: State, w: nat, a: Action): State
    requires WorkEnabled(s, w, a)
  {
    var worker := s.workers[w];
    s.(workers := s.workers[w := Advance(worker, a, if a.Dequeue? then s.queue[0] else 0, s.hub.live)],
       queue := WorkQueue(s.queue, a),
       jobs := WorkJobs(s.jobs, worker, a),
       stored := s.stored + StoreDelta(worker, a),
       published := s.published + PublishDelta(worker, a),
       replies := if a.Reply? then s.replies + [worker.job] else s.replies,
       hub := WorkHub(c.bufferSize, s.hub, worker, a))
  }

  function AdmitStep(s: State, g: GateLabel): State
    requires g.SubmitCheck? ==> s.gate.admission.Submitting?
    requires g.SubmitSend? ==> s.gate.admission.Admitting?
  {
    if g.SubmitSend? then
      s.(gate := GateNext(s.gate, g),
         queue := s.queue + [|s.jobs|],
         jobs := s.jobs + [Job(s.gate.admission.event, Open())])
    else s.(gate := GateNext(s.gate, g))
  }

  function Apply(c: Config, s: State, l: Label): State
    requires Enabled(c, s, l)
  {
    if Panics(c, s, l) then s.(panicked := true)
    else match l
      case Admit(g) => AdmitStep(s, g)
      case Work(w, a) => WorkStep(c, s, w, a)
      case Monitor(h) => s.(hub := HubNext(s.hub, |s.published|, h))
      case TakeAck(job) => s.(jobs := WithAck(s.jobs, job, s.jobs[job].ack.Pop()))
      case ReturnDrained => s
      case ReturnDeadline => s
  }

  datatype Option<T> = None | Some(value: T)

  /** The state a sequence of labels leads to, if each label is enabled in turn. */
  function Run(c: Config, s: State, ls: seq<Label>): Option<State> {
    if ls == [] then Some(s)
    else match Run(c, s, ls[..|ls| - 1])
      case None => None
      case Some(t) =>
        if Enabled(c, t, ls[|ls| - 1]) then Some(Apply(c, t, ls[|ls| - 1])) else None
  }

  ghost predicate Reachable(c: Config, s: State) {
    exists ls :: Run(c, Init(c), ls) == Some(s)
  }
}

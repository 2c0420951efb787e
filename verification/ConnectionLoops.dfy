/** A connection as an object: its outbound queue and the loops of its reader. */
module ConnectionLoops {
  import opened Contracts
  import opened Channels
  import opened Texts
  import opened Pipeline
  import opened PipelineTheorems
  import opened Connections
  import opened ConnectionTheorems
  import opened ConnectionStream
  import opened Publisher
  import opened Dispatcher
  import PipelineStream

  /** What happens while the connection waits for a result: whether worker `w` gets to run, and whether the
      timer has fired by then.  `process` stands for the processor, `cancelled` for the jobs' contexts. */
  datatype Wait = Wait(w: nat, process: Event -> (Event, bool), cancelled: nat -> bool, served: bool, expired: bool)

  /** One decoded message, or the way reading goes wrong. */
  datatype Incoming = EventIn(requestID: Text, event: Event, wait: Wait) | Unexpected | Broken(code: Code)

  /** A worker that gets to run is one that is free to. */
  predicate Ready(d: Dispatcher, wait: Wait)
    reads d
  {
    wait.served ==> wait.w < |d.workers| && d.workers[wait.w].Idle?
  }

  /** An ack is for the processed event, which the processor accepted and the store holds. */
  ghost predicate AckHolds(m: Message, event: Event, process: Event -> (Event, bool), contents: seq<Event>) {
    m.Ack? ==>
      && process(event).1 && process(event).0 in contents
      && process(event).0.eventID == m.eventID
  }

  class Connection {
    const size: nat
    var outbound: Chan<Message>
    /** Every message the reader tried to send. */
    ghost var attempts: seq<Message>

    ghost predicate Valid()
      reads this
    {
      |outbound.buffer| <= size && Subsequence(outbound.Sent(), attempts)
    }

    constructor (size: nat)
      ensures Valid() && this.size == size && outbound == Open() && attempts == []
    {
      this.size := size;
      outbound := Open();
      attempts := [];
    }

    /** A full queue loses the message. */
    method Send(m: Message) returns (ok: bool)
      requires Valid() && !outbound.closed
      modifies this`outbound, this`attempts
      ensures Valid() && attempts == old(attempts) + [m]
      ensures ok <==> |old(outbound).buffer| < size
      ensures outbound == if ok then old(outbound).Push(m) else old(outbound)
    {
      attempts := attempts + [m];
      if |outbound.buffer| < size {
        SubsequenceKeep(outbound.Sent(), old(attempts), m);
        assert outbound.Push(m).Sent() == outbound.Sent() + [m];
        outbound := outbound.Push(m);
        return true;
      }
      SubsequenceSkip(outbound.Sent(), old(attempts), m);
      ok := false;
    }

    /** handleEvent: submit, wait, and attempt exactly one response. */
    method HandleEvent(d: Dispatcher, requestID: Text, event: Event, wait: Wait) returns (m: Message)
      requires Valid() && !outbound.closed && d.Valid() && Ready(d, wait)
      modifies this`outbound, this`attempts
      modifies d`jobs, d`accepted, d`workers, d`stored, d`published, d`replies
      modifies d.store`events, d.store`order, d.publisher.subscriptions
      ensures Valid() && !outbound.closed && d.Valid() && d.workers == old(d.workers)
      ensures old(d.store.Contents()) <= d.store.Contents()
      ensures attempts == old(attempts) + [m]
      ensures Answers(requestID, m) && AckHolds(m, event, wait.process, d.store.Contents())
      ensures ResponseFits(d, requestID, wait, m, |old(d.accepted)|,
                           !Blank(requestID) && d.accepting && |old(d.jobs)| < d.queueSize, wait.process(event).0)
    {
      m := Decide(d, requestID, event, wait);
      var ok := Send(m);
    }

    /** The loop of readProducerMessages, up to the message that ends it. */
    method HandleEvents(d: Dispatcher, inputs: seq<Incoming>) returns (n: nat)
      requires Valid() && !outbound.closed && d.Valid() && AllReady(d, inputs)
      modifies this`outbound, this`attempts
      modifies d`jobs, d`accepted, d`workers, d`stored, d`published, d`replies
      modifies d.store`events, d.store`order, d.publisher.subscriptions
      ensures Valid() && !outbound.closed && d.Valid()
      ensures n == Handled(inputs) <= |inputs|
      ensures old(attempts) <= attempts && |attempts| == |old(attempts)| + n
      ensures RespondedTo(inputs, n, attempts[|old(attempts)|..], d.store.Contents())
    {
      n := 0;
      ghost var before, responses: seq<Message> := attempts, [];
      while n < |inputs| && inputs[n].EventIn?
        invariant n <= |inputs| && Valid() && !outbound.closed && d.Valid() && d.workers == old(d.workers)
        invariant attempts == before + responses && |responses| == n
        invariant n + Handled(inputs[n..]) == Handled(inputs)
        invariant RespondedTo(inputs, n, responses, d.store.Contents())
      {
        HandledStep(inputs, n);
        ghost var contents := d.store.Contents();
        var m := HandleEvent(d, inputs[n].requestID, inputs[n].event, inputs[n].wait);
        OneMoreResponse(inputs, n, responses, contents, m, d.store.Contents());
        responses := responses + [m];
        n := n + 1;
      }
      assert attempts[|before|..] == responses;
    }

    /** readProducerMessages, for the messages that arrive before reading fails with `last`.  Every event
        message handled gets one response, in order; whatever ends the loop gets one error. */
    method ReadProducerMessages(d: Dispatcher, inputs: seq<Incoming>, last: Code)
      requires Valid() && !outbound.closed && d.Valid() && AllReady(d, inputs)
      modifies this`outbound, this`attempts
      modifies d`jobs, d`accepted, d`workers, d`stored, d`published, d`replies
      modifies d.store`events, d.store`order, d.publisher.subscriptions
      ensures Valid() && outbound.closed && d.Valid()
      ensures old(attempts) <= attempts && |attempts| == |old(attempts)| + Handled(inputs) + 1
      ensures Handled(inputs) <= |inputs| && RespondedTo(inputs, Handled(inputs), attempts[|old(attempts)|..], d.store.Contents())
      ensures attempts[|attempts| - 1] == Error([], Ending(inputs, last))
    {
      var n := HandleEvents(d, inputs);
      ghost var before, responses := old(attempts), attempts[|old(attempts)|..];
      var code := last;
      if n < |inputs| {
        code := if inputs[n].Broken? then inputs[n].code else InvalidMessage;
      }
      HandledEnds(inputs);
      StillResponded(inputs, n, before, responses, Error([], code), d.store.Contents());
      End(code);
    }

    /** The last error, and the deferred close. */
    method End(code: Code)
      requires Valid() && !outbound.closed
      modifies this`outbound, this`attempts
      ensures Valid() && outbound.closed && attempts == old(attempts) + [Error([], code)]
    {
      var ok := Send(Error([], code));
      outbound := outbound.Shut();
    }

    /** The loop of handleSubscribe over what is buffered: every event received is forwarded in order, except
        the last when the outbound queue was full, which ends the loop. */
    method ForwardBuffered(publisher: EventPublisher, s: EventSubscription, ghost i: nat) returns (ok: bool)
      requires Valid() && !outbound.closed
      requires publisher.Valid() && i < |publisher.created| && publisher.created[i] == s
      modifies this`outbound, this`attempts, s
      ensures Valid() && publisher.Valid() && !outbound.closed
      ensures old(s.events.received) <= s.events.received && s.events.Sent() == old(s.events.Sent())
      ensures ok ==> s.events.buffer == []
      ensures Forwarded(ok, Deliveries(old(outbound.Sent())), Deliveries(outbound.Sent()),
                        s.events.received[|old(s.events.received)|..])
    {
      ghost var start, sent := s.events.received, Deliveries(outbound.Sent());
      ok := true;
      while ok && s.events.buffer != []
        invariant Valid() && publisher.Valid() && !outbound.closed
        invariant start <= s.events.received && s.events.Sent() == old(s.events.Sent())
        invariant Forwarded(ok, sent, Deliveries(outbound.Sent()), s.events.received[|start|..])
        decreases |s.events.buffer|
      {
        ghost var before, queued := s.events, outbound;
        var p := publisher.Receive(s, i);
        TakeOne(before, |start|);
        ok := Send(Delivery(p.event));
        ForwardOne(sent, queued.Sent(), before.received[|start|..], p);
        assert queued.Push(Delivery(p.event)).Sent() == queued.Sent() + [Delivery(p.event)];
      }
    }
  }

  /** The response is an ack if and only if the event was submitted, the result came in time and the store
      accepted the processed event for this very job; and the errors are those of the other cases. */
  ghost predicate ResponseFits(d: Dispatcher, requestID: Text, wait: Wait, m: Message, job: nat, submitted: bool, processed: Event)
    reads d
  {
    && (submitted <==> |d.accepted| == job + 1)
    && (m.Ack? <==> submitted && wait.served && !wait.expired && Publication(job, processed) in d.stored)
    && (!Blank(requestID) && !submitted ==> m == Error(requestID, StorageUnavailable))
    && (submitted && (wait.expired || !wait.served) ==> m == Error(requestID, Internal))
  }

  /** The response handleEvent decides on. */
  method Decide(d: Dispatcher, requestID: Text, event: Event, wait: Wait) returns (m: Message)
    requires d.Valid() && Ready(d, wait)
    modifies d`jobs, d`accepted, d`workers, d`stored, d`published, d`replies
    modifies d.store`events, d.store`order, d.publisher.subscriptions
    ensures d.Valid() && d.workers == old(d.workers)
    ensures old(d.store.Contents()) <= d.store.Contents()
    ensures Answers(requestID, m) && AckHolds(m, event, wait.process, d.store.Contents())
    ensures ResponseFits(d, requestID, wait, m, |old(d.accepted)|,
                         !Blank(requestID) && d.accepting && |old(d.jobs)| < d.queueSize, wait.process(event).0)
  {
    if Blank(requestID) {
      return Error([], MissingRequiredField);
    }
    var submission := d.Submit(event, false, true);
    if !submission.Accepted? {
      return Error(requestID, StorageUnavailable);
    }
    m := Await(d, requestID, event, submission.job, wait);
  }

  /** The select of handleEvent: the result of the job, or the timer. */
  method Await(d: Dispatcher, requestID: Text, event: Event, job: nat, wait: Wait) returns (m: Message)
    requires d.Valid() && Ready(d, wait) && !d.jobsClosed && !Blank(requestID)
    requires job == |d.accepted| - 1 && d.accepted[job] == Job(event, Open()) && d.jobs != []
    modifies d`jobs, d`accepted, d`workers, d`stored, d`published, d`replies
    modifies d.store`events, d.store`order, d.publisher.subscriptions
    ensures d.Valid() && d.workers == old(d.workers) && |d.accepted| == |old(d.accepted)|
    ensures old(d.store.Contents()) <= d.store.Contents()
    ensures Answers(requestID, m) && AckHolds(m, event, wait.process, d.store.Contents())
    ensures m.Ack? <==> wait.served && !wait.expired && Publication(job, wait.process(event).0) in d.stored
    ensures wait.expired || !wait.served ==> m == Error(requestID, Internal)
  {
    if wait.served {
      d.Work(wait.w, wait.process, wait.cancelled);
    }
    if d.accepted[job].ack.buffer == [] || wait.expired {
      return Error(requestID, Internal);
    }
    ghost var s := d.View();
    var result := d.TakeResult(job);
    ResultMeansStored(d.Cfg(), s, job, result);
    if !result.ok {
      return Error(requestID, Mapped);
    }
    m := Ack(requestID, result.event.eventID);
  }

  /** What has been forwarded of the events taken: all, or all but the last when a send failed. */
  ghost predicate Forwarded(ok: bool, before: seq<Event>, now: seq<Event>, taken: seq<Publication>) {
    var es := PipelineStream.Events(taken);
    now == before + (if ok || es == [] then es else es[..|es| - 1])
  }

  lemma TakeOne(events: Chan<Publication>, n: nat)
    requires events.buffer != [] && n <= |events.received|
    ensures events.Pop().Sent() == events.Sent()
    ensures events.Pop().received[n..] == events.received[n..] + [events.buffer[0]]
  {}

  /** One more event taken, and forwarded or lost. */
  lemma ForwardOne(before: seq<Event>, queued: seq<Message>, taken: seq<Publication>, p: Publication)
    requires Forwarded(true, before, Deliveries(queued), taken)
    ensures Forwarded(true, before, Deliveries(queued + [Delivery(p.event)]), taken + [p])
    ensures Forwarded(false, before, Deliveries(queued), taken + [p])
  {
    EventsStep(taken, p);
    DeliveriesStep(queued, Delivery(p.event));
    var es := PipelineStream.Events(taken);
    assert (es + [p.event])[..|es|] == es;
  }

  /** The event messages before the first message that ends the loop. */
  function Handled(inputs: seq<Incoming>): nat {
    if inputs != [] && inputs[0].EventIn? then 1 + Handled(inputs[1..]) else 0
  }

  /** The error that ends the loop. */
  function Ending(inputs: seq<Incoming>, last: Code): Code {
    if inputs == [] then last
    else match inputs[0]
      case EventIn(_, _, _) => Ending(inputs[1..], last)
      case Unexpected => InvalidMessage
      case Broken(code) => code
  }

  lemma HandledStep(inputs: seq<Incoming>, n: nat)
    requires n < |inputs| && inputs[n].EventIn?
    ensures Handled(inputs[n..]) == 1 + Handled(inputs[n + 1..])
  {
    assert inputs[n..][1..] == inputs[n + 1..];
  }

  lemma {:induction false} HandledEnds(inputs: seq<Incoming>)
    ensures var n := Handled(inputs);
      && n <= |inputs|
      && (n < |inputs| ==> !inputs[n].EventIn?)
      && forall last :: Ending(inputs, last) ==
           if n == |inputs| then last else if inputs[n].Broken? then inputs[n].code else InvalidMessage
  {
    if inputs != [] && inputs[0].EventIn? {
      HandledEnds(inputs[1..]);
    }
  }

  predicate AllReady(d: Dispatcher, inputs: seq<Incoming>)
    reads d
  {
    forall k :: 0 <= k < |inputs| && inputs[k].EventIn? ==> Ready(d, inputs[k].wait)
  }

  /** The response names the request, and an ack is backed by the store. */
  ghost predicate Responded(input: Incoming, m: Message, contents: seq<Event>) {
    input.EventIn? && Answers(input.requestID, m) && AckHolds(m, input.event, input.wait.process, contents)
  }

  /** The first `n` inputs have been responded to, in order. */
  ghost predicate RespondedTo(inputs: seq<Incoming>, n: nat, responses: seq<Message>, contents: seq<Event>) {
    n <= |inputs| && n <= |responses| && forall k :: 0 <= k < n ==> Responded(inputs[k], responses[k], contents)
  }

  lemma StillResponded(inputs: seq<Incoming>, n: nat, before: seq<Message>, responses: seq<Message>, m: Message,
                       contents: seq<Event>)
    requires RespondedTo(inputs, n, responses, contents)
    ensures before + responses + [m] == before + (responses + [m])
    ensures (before + responses + [m])[|before|..] == responses + [m]
    ensures RespondedTo(inputs, n, responses + [m], contents)
  {}

  lemma OneMoreResponse(inputs: seq<Incoming>, n: nat, responses: seq<Message>, contents: seq<Event>,
                        m: Message, contents': seq<Event>)
    requires n < |inputs| && |responses| == n && RespondedTo(inputs, n, responses, contents)
    requires contents <= contents' && Responded(inputs[n], m, contents')
    ensures RespondedTo(inputs, n + 1, responses + [m], contents')
  {
    forall k | 0 <= k < n ensures Responded(inputs[k], responses[k], contents') {
      assert Responded(inputs[k], responses[k], contents);
      assert forall e :: e in contents ==> e in contents';
    }
  }
}

/** The JSON Lines store compared with the memory store. */
module StorageRefinement {
  import opened Contracts
  import opened StorePort
  import opened Directory
  import opened Sorting
  import opened JsonStorage
  import opened StorageTheorems
  import Framing
  import MemoryStore

  ghost predicate Succeeds(cfg: Settings, d: Disk, op: Op)
    requires ValidSettings(cfg)
  {
    op.StoreOp? && StoreStep(cfg, d, op.cancelled, op.event, op.now, op.writable).1.Ok?
  }

  /** The events whose Store succeeded in a run from the opening of `files`, in order. */
  ghost function Successes(cfg: Settings, files: seq<File>, ops: seq<Op>): seq<Event>
    requires ValidSettings(cfg)
  {
    if ops == [] then []
    else
      var before, op := ops[..|ops| - 1], ops[|ops| - 1];
      Successes(cfg, files, before)
      + (if Succeeds(cfg, RunOps(cfg, files, before), op) then [op.event] else [])
  }

  /** The accepted IDs are new and different, and the index holds them and those found at the start. */
  predicate AcceptedOnce(log: seq<Event>, es: seq<Event>, known: set<Text>) {
    && UniqueIDs(es)
    && (forall k :: 0 <= k < |es| ==> es[k].eventID !in IDs(log))
    && known == IDs(log) + IDs(es)
  }

  lemma AcceptOne(log: seq<Event>, es: seq<Event>, known: set<Text>, e: Event)
    requires AcceptedOnce(log, es, known) && e.eventID != [] && e.eventID !in known
    ensures AcceptedOnce(log, es + [e], known + {e.eventID})
  {
    IDsConcat(es, [e]);
    assert [e][0].eventID in IDs([e]);
    assert IDs([e]) == {e.eventID};
    forall k | 0 <= k < |es| ensures es[k].eventID != e.eventID {
      assert es[k].eventID in IDs(es);
    }
  }

  lemma StepKnown(cfg: Settings, d: Disk, op: Op)
    requires ValidSettings(cfg) && !op.RestartOp?
    ensures Step(cfg, d, op).known == if Succeeds(cfg, d, op) then d.known + {op.event.eventID} else d.known
    ensures Succeeds(cfg, d, op) ==> op.event.eventID != [] && op.event.eventID !in d.known
  {}

  /** Over the lifetime of one store instance, whatever is rotated away, no ID is accepted twice and none
      that was on disk at the start is accepted at all. */
  lemma {:induction false} OneAcceptancePerID(cfg: Settings, files: seq<File>, ops: seq<Op>)
    requires ValidSettings(cfg) && Readable(cfg.codec, files)
    requires forall k :: 0 <= k < |ops| ==> !ops[k].RestartOp?
    ensures AcceptedOnce(DiskLog(cfg.codec, files), Successes(cfg, files, ops), RunOps(cfg, files, ops).known)
  {
    if ops == [] {
      assert IDs([]) == {};
    } else {
      var before, op := ops[..|ops| - 1], ops[|ops| - 1];
      var d, es := RunOps(cfg, files, before), Successes(cfg, files, before);
      OneAcceptancePerID(cfg, files, before);
      StepKnown(cfg, d, op);
      if Succeeds(cfg, d, op) {
        AcceptOne(DiskLog(cfg.codec, files), es, d.known, op.event);
      } else {
        assert es + [] == es;
      }
    }
  }

  lemma {:induction false} SuccessesEncodable(cfg: Settings, ops: seq<Op>)
    requires ValidSettings(cfg)
    ensures Framing.Encodable(cfg.codec, Successes(cfg, [], ops))
  {
    if ops != [] {
      SuccessesEncodable(cfg, ops[..|ops| - 1]);
    }
  }

  lemma AllAsReadSnoc(c: Framing.Codec, es: seq<Event>, e: Event)
    requires Framing.ValidCodec(c) && Framing.Encodable(c, es) && c.encode(e).Some?
    ensures Framing.Encodable(c, es + [e])
    ensures Framing.AllAsRead(c, es + [e]) == Framing.AllAsRead(c, es) + [Framing.AsRead(c, e)]
  {
    assert forall i :: 0 <= i < |es| ==> (es + [e])[i] == es[i];
  }

  ghost predicate SameEvents(c: Framing.Codec, log: seq<Event>, es: seq<Event>)
    requires Framing.ValidCodec(c)
  {
    Framing.Encodable(c, es) && multiset(log) == multiset(Framing.AllAsRead(c, es))
  }

  ghost predicate SameCounts(log: seq<Event>, es: seq<Event>) {
    forall id :: CountID(log, id) == CountID(es, id)
  }

  /** What the runs of both stores share: the same events on disk, as read, and the same ID counts. */
  ghost predicate LogMirrors(c: Framing.Codec, log: seq<Event>, es: seq<Event>)
    requires Framing.ValidCodec(c)
  {
    SameEvents(c, log, es) && SameCounts(log, es) && UniqueIDs(es)
  }

  ghost predicate Mirrors(cfg: Settings, dir: seq<File>, es: seq<Event>)
    requires ValidSettings(cfg)
  {
    LogMirrors(cfg.codec, DiskLog(cfg.codec, dir), es)
  }

  lemma MirrorEvents(c: Framing.Codec, before: seq<Event>, after: seq<Event>, es: seq<Event>, event: Event)
    requires Framing.ValidCodec(c) && c.encode(event).Some? && SameEvents(c, before + after, es)
    ensures SameEvents(c, before + [Framing.AsRead(c, event)] + after, es + [event])
  {
    var e := Framing.AsRead(c, event);
    AllAsReadSnoc(c, es, event);
    assert multiset(before + [e] + after) == multiset(before + after) + multiset{e};
  }

  lemma MirrorCounts(before: seq<Event>, after: seq<Event>, es: seq<Event>, event: Event, e: Event)
    requires SameCounts(before + after, es) && e.eventID == event.eventID
    ensures SameCounts(before + [e] + after, es + [event])
  {
    forall id ensures CountID(before + [e] + after, id) == CountID(es + [event], id) {
      assert CountID(before + after, id) == CountID(es, id);
      CountConcat(before, after, id);
      CountConcat(before + [e], after, id);
      CountConcat(before, [e], id);
      CountConcat(es, [event], id);
      CountOne(event, id);
      CountOne(e, id);
    }
  }

  lemma MirrorNew(cfg: Settings, d: Disk, es: seq<Event>, event: Event)
    requires Indexed(cfg, d) && SameCounts(DiskLog(cfg.codec, d.dir), es)
    requires event.eventID != [] && event.eventID !in d.known
    ensures NewID(es, event)
  {
    var id := event.eventID;
    assert CountID(DiskLog(cfg.codec, d.dir), id) == CountID(es, id);
    CountCarries(es, id);
  }

  lemma UniqueSnoc(es: seq<Event>, event: Event)
    requires UniqueIDs(es) && NewID(es, event)
    ensures UniqueIDs(es + [event])
  {}

  lemma MirrorInsert(c: Framing.Codec, before: seq<Event>, after: seq<Event>, es: seq<Event>, event: Event)
    requires Framing.ValidCodec(c) && c.encode(event).Some?
    requires LogMirrors(c, before + after, es) && NewID(es, event)
    ensures LogMirrors(c, before + [Framing.AsRead(c, event)] + after, es + [event])
  {
    MirrorEvents(c, before, after, es, event);
    MirrorCounts(before, after, es, event, Framing.AsRead(c, event));
    UniqueSnoc(es, event);
  }

  lemma MirrorAppend(cfg: Settings, dir: seq<File>, es: seq<Event>, event: Event, name: string, now: int)
    requires ValidSettings(cfg) && AllComplete(dir) && cfg.codec.encode(event).Some?
    requires Mirrors(cfg, dir, es) && NewID(es, event)
    ensures Mirrors(cfg, Append(dir, name, Record(cfg.codec, event), now), es + [event])
  {
    var before, after := AppendInserts(cfg.codec, dir, name, event, now);
    MirrorInsert(cfg.codec, before, after, es, event);
  }

  lemma MirrorStore(cfg: Settings, d: Disk, es: seq<Event>, event: Event, now: int)
    requires ValidSettings(cfg) && IndexInv(cfg, d) && Mirrors(cfg, d.dir, es)
    requires StoreStep(cfg, d, false, event, now, true).1.Ok?
    ensures Mirrors(cfg, StoreStep(cfg, d, false, event, now, true).0.dir, es + [event])
    ensures NewID(es, event)
  {
    var name := StoreShape(cfg, d, event, now);
    MirrorNew(cfg, d, es, event);
    MirrorAppend(cfg, d.dir, es, event, name, now);
  }

  lemma MirrorQuiet(cfg: Settings, d: Disk, op: Op)
    requires ValidSettings(cfg) && Lossless(cfg, d, op)
    requires !Succeeds(cfg, d, op)
    ensures Step(cfg, d, op).dir == d.dir
  {}

  lemma {:induction false} MirrorsInEveryRun(cfg: Settings, ops: seq<Op>)
    requires ValidSettings(cfg) && LosslessRun(cfg, [], ops)
    ensures Mirrors(cfg, RunOps(cfg, [], ops).dir, Successes(cfg, [], ops))
  {
    if ops != [] {
      var before, op := ops[..|ops| - 1], ops[|ops| - 1];
      var d := RunOps(cfg, [], before);
      MirrorsInEveryRun(cfg, before);
      IndexInEveryRun(cfg, [], before);
      if Succeeds(cfg, d, op) {
        MirrorStore(cfg, d, Successes(cfg, [], before), op.event, op.now);
      } else {
        MirrorQuiet(cfg, d, op);
        assert Successes(cfg, [], before) + [] == Successes(cfg, [], before);
      }
    }
  }

  /** A memory store given the same events accepts them all and holds exactly them, in order. */
  method ReplayInMemory(es: seq<Event>) returns (store: MemoryStore.MemoryEventStore)
    requires UniqueIDs(es)
    ensures fresh(store) && store.Valid() && !store.closed && store.Contents() == es
  {
    store := new MemoryStore.MemoryEventStore();
    for i := 0 to |es|
      invariant fresh(store) && store.Valid() && !store.closed && store.Contents() == es[..i]
    {
      assert NewID(es[..i], es[i]);
      var outcome := store.Store(false, es[i]);
      assert outcome.Ok?;
      assert es[..i + 1] == es[..i] + [es[i]];
    }
    assert es[..|es|] == es;
  }

  lemma {:induction false} SelectAsRead(c: Framing.Codec, filter: EventFilter, es: seq<Event>)
    requires Framing.ValidCodec(c) && Framing.Encodable(c, es)
    ensures Framing.Encodable(c, Select(filter, es))
    ensures Select(filter, Framing.AllAsRead(c, es)) == Framing.AllAsRead(c, Select(filter, es))
  {
    if es != [] {
      var init, e := es[..|es| - 1], es[|es| - 1];
      assert es == init + [e];
      SelectAsRead(c, filter, init);
      AllAsReadSnoc(c, init, e);
      SelectStep(filter, init, e);
      SelectStep(filter, Framing.AllAsRead(c, init), Framing.AsRead(c, e));
      if Selects(filter, e) {
        AllAsReadSnoc(c, Select(filter, init), e);
      } else {
        assert Select(filter, init) + [] == Select(filter, init);
      }
    }
  }

  lemma {:induction false} SelectStrict(filter: EventFilter, es: seq<Event>)
    requires StrictlyInOrder(es)
    ensures StrictlyInOrder(Select(filter, es))
    ensures forall i :: 0 <= i < |Select(filter, es)| ==> Select(filter, es)[i] in es
  {
    if es != [] {
      SelectStrict(filter, es[..|es| - 1]);
    }
  }

  lemma AsReadStrict(c: Framing.Codec, es: seq<Event>)
    requires Framing.ValidCodec(c) && Framing.Encodable(c, es) && StrictlyInOrder(es)
    ensures StrictlyInOrder(Framing.AllAsRead(c, es))
  {
    var rs := Framing.AllAsRead(c, es);
    forall i | 0 <= i < |es| ensures rs[i].timestamp.instant == es[i].timestamp.instant {}
  }

  lemma LimitSnoc(c: Framing.Codec, es: seq<Event>, e: Event)
    requires Framing.Encodable(c, es) && c.encode(e).Some?
    ensures Framing.Encodable(c, es + [e])
    ensures Framing.WithinLimit(c, es + [e]) <==> Framing.WithinLimit(c, es) && |c.encode(e).value| < Framing.MAX_TOKEN
  {
    assert (es + [e])[..|es|] == es;
    assert forall i :: 0 <= i < |es| ==> (es + [e])[i] == es[i];
    Framing.WithinLimitStep(c, es + [e]);
  }

  /** When a query, and a restart, can read the disk after a run that deletes nothing: if and only if every
      record accepted is within the scanner's limit. */
  lemma {:induction false} ReadableExactly(cfg: Settings, ops: seq<Op>)
    requires ValidSettings(cfg) && LosslessRun(cfg, [], ops)
    ensures Framing.Encodable(cfg.codec, Successes(cfg, [], ops))
    ensures Readable(cfg.codec, RunOps(cfg, [], ops).dir) <==> Framing.WithinLimit(cfg.codec, Successes(cfg, [], ops))
  {
    SuccessesEncodable(cfg, ops);
    if ops != [] {
      var before, op := ops[..|ops| - 1], ops[|ops| - 1];
      var d := RunOps(cfg, [], before);
      ReadableExactly(cfg, before);
      IndexInEveryRun(cfg, [], before);
      if Succeeds(cfg, d, op) {
        var name := StoreShape(cfg, d, op.event, op.now);
        AppendReadable(cfg.codec, d.dir, name, op.event, op.now);
        LimitSnoc(cfg.codec, Successes(cfg, [], before), op.event);
      } else {
        MirrorQuiet(cfg, d, op);
        assert Successes(cfg, [], before) + [] == Successes(cfg, [], before);
      }
    }
  }

  /** After the same successful stores, with nothing rotated away, the JSON query is ordered by timestamp,
      stable with respect to file order, the selection of the stable sort of the whole disk, and has the
      same events as the memory query; and if the events were stored with strictly increasing timestamps
      both queries return the same sequence, wherever first fit placed the records. */
  lemma QueryRefinesMemory(cfg: Settings, ops: seq<Op>, filter: EventFilter)
    requires ValidSettings(cfg) && LosslessRun(cfg, [], ops)
    ensures var log := DiskLog(cfg.codec, RunOps(cfg, [], ops).dir);
      var json := StableSort(Select(filter, log));
      var memory := Select(filter, Successes(cfg, [], ops));
      && IsStableSort(Select(filter, log), json)
      && json == Select(filter, StableSort(log))
      && UniqueIDs(Successes(cfg, [], ops))
      && Framing.Encodable(cfg.codec, memory)
      && multiset(json) == multiset(Framing.AllAsRead(cfg.codec, memory))
      && (StrictlyInOrder(Successes(cfg, [], ops)) ==> json == Framing.AllAsRead(cfg.codec, memory))
  {
    var es := Successes(cfg, [], ops);
    var log := DiskLog(cfg.codec, RunOps(cfg, [], ops).dir);
    MirrorsInEveryRun(cfg, ops);
    StableSortIsStableSort(Select(filter, log));
    SortSelectCommute(filter, log);
    SortBag(Select(filter, log));
    SelectSameBag(filter, log, Framing.AllAsRead(cfg.codec, es));
    SelectAsRead(cfg.codec, filter, es);
    if StrictlyInOrder(es) {
      SelectStrict(filter, es);
      AsReadStrict(cfg.codec, Select(filter, es));
      SortOfPermutation(Select(filter, log), Framing.AllAsRead(cfg.codec, Select(filter, es)));
    }
  }

  /** Success of the JSON store implies what every store promises the dispatcher, as the memory store's
      contract does: the ID is non-empty and new among the events accepted since the store was opened, on
      whatever files it was opened and whatever was rotated away since; and it was not in those files. */
  lemma {:induction false} JsonStoreKeepsPort(cfg: Settings, files: seq<File>, ops: seq<Op>, event: Event, now: int)
    requires ValidSettings(cfg) && Readable(cfg.codec, files)
    requires forall k :: 0 <= k < |ops| ==> !ops[k].RestartOp?
    requires StoreStep(cfg, RunOps(cfg, files, ops), false, event, now, true).1.Ok?
    ensures NewID(Successes(cfg, files, ops), event)
    ensures !Carries(DiskLog(cfg.codec, files), event.eventID)
  {
    var d, es, log := RunOps(cfg, files, ops), Successes(cfg, files, ops), DiskLog(cfg.codec, files);
    OneAcceptancePerID(cfg, files, ops);
    var name := StoreShape(cfg, d, event, now);
    forall k | 0 <= k < |es| ensures es[k].eventID != event.eventID {
      assert es[k].eventID in IDs(es);
    }
    if Carries(log, event.eventID) {
      CarriedIsID(log, event.eventID);
    }
  }

  lemma CarriedIsID(events: seq<Event>, id: Text)
    requires Carries(events, id) && id != []
    ensures id in IDs(events)
  {
    var k :| 0 <= k < |events| && events[k].eventID == id;
    assert events[k].eventID in IDs(events);
  }

  /** Restarts keep the promise as long as no file is deleted. */
  lemma RestartsKeepPort(cfg: Settings, ops: seq<Op>, event: Event, now: int)
    requires ValidSettings(cfg) && LosslessRun(cfg, [], ops)
    requires StoreStep(cfg, RunOps(cfg, [], ops), false, event, now, true).1.Ok?
    ensures NewID(Successes(cfg, [], ops), event)
  {
    MirrorsInEveryRun(cfg, ops);
    IndexInEveryRun(cfg, [], ops);
    MirrorStore(cfg, RunOps(cfg, [], ops), Successes(cfg, [], ops), event, now);
  }
}

/** Runs of the JSON Lines store: its index, its gets and its restarts. */
module StorageTheorems {
  import opened Contracts
  import opened StorePort
  import opened Directory
  import opened Naming
  import opened JsonStorage
  import Framing

  // ---------------------------------------------------------------- counting IDs

  function CountID(events: seq<Event>, id: Text): nat {
    if events == [] then 0
    else CountID(events[..|events| - 1], id) + (if events[|events| - 1].eventID == id then 1 else 0)
  }

  lemma {:induction false} CountConcat(a: seq<Event>, b: seq<Event>, id: Text)
    ensures CountID(a + b, id) == CountID(a, id) + CountID(b, id)
  {
    if b == [] {
      assert a + b == a;
    } else {
      var n := |b| - 1;
      assert (a + b)[..|a| + n] == a + b[..n];
      CountConcat(a, b[..n], id);
    }
  }

  lemma CountOne(e: Event, id: Text)
    ensures CountID([e], id) == if e.eventID == id then 1 else 0
  {
    assert [e][..0] == [];
  }

  lemma {:induction false} CountCarries(events: seq<Event>, id: Text)
    ensures CountID(events, id) > 0 <==> Carries(events, id)
  {
    if events != [] {
      var n := |events| - 1;
      CountCarries(events[..n], id);
      if Carries(events[..n], id) {
        var k :| 0 <= k < n && events[..n][k].eventID == id;
        assert events[k].eventID == id;
      }
      if Carries(events, id) && events[n].eventID != id {
        var k :| 0 <= k < |events| && events[k].eventID == id;
        assert events[..n][k].eventID == id;
      }
    }
  }

  // ---------------------------------------------------------------- the log under directory operations

  lemma {:induction false} LogConcat(c: Framing.Codec, a: seq<File>, b: seq<File>)
    ensures DiskLog(c, a + b) == DiskLog(c, a) + DiskLog(c, b)
  {
    if b == [] {
      assert a + b == a;
      assert DiskLog(c, b) == [];
    } else {
      var init, f := b[..|b| - 1], b[|b| - 1];
      LogConcat(c, a, init);
      assert b == init + [f];
      assert a + b == (a + init) + [f];
      LogSnoc(c, init, f);
      LogSnoc(c, a + init, f);
      ConcatAssociates(DiskLog(c, a), DiskLog(c, init), Framing.Log(c, f.data));
    }
  }

  lemma ConcatAssociates(x: seq<Event>, y: seq<Event>, z: seq<Event>)
    ensures (x + y) + z == x + (y + z)
  {
  }

  lemma LogSnoc(c: Framing.Codec, dir: seq<File>, f: File)
    ensures DiskLog(c, dir + [f]) == DiskLog(c, dir) + Framing.Log(c, f.data)
  {
    assert (dir + [f])[..|dir|] == dir;
  }

  lemma LogOne(c: Framing.Codec, f: File)
    ensures DiskLog(c, [f]) == Framing.Log(c, f.data)
  {
    assert [f][..0] == [];
  }

  lemma LogCons(c: Framing.Codec, f: File, dir: seq<File>)
    ensures DiskLog(c, [f] + dir) == Framing.Log(c, f.data) + DiskLog(c, dir)
  {
    LogConcat(c, [f], dir);
    LogOne(c, f);
  }

  ghost predicate AllComplete(dir: seq<File>) {
    forall i :: 0 <= i < |dir| ==> Framing.Complete(dir[i].data)
  }

  function Record(c: Framing.Codec, e: Event): Bytes
    requires c.encode(e).Some?
  {
    c.encode(e).value + [Framing.NEWLINE]
  }

  /** Appending a record inserts the event somewhere in the log and changes nothing else. */
  lemma {:induction false} AppendInserts(c: Framing.Codec, dir: seq<File>, name: string, e: Event, now: int)
    returns (before: seq<Event>, after: seq<Event>)
    requires Framing.ValidCodec(c) && c.encode(e).Some? && AllComplete(dir)
    ensures DiskLog(c, dir) == before + after
    ensures DiskLog(c, Append(dir, name, Record(c, e), now)) == before + [Framing.AsRead(c, e)] + after
  {
    var record := Record(c, e);
    if dir == [] || Less(name, dir[0].name) {
      before, after := [], DiskLog(c, dir);
      Framing.LogAppend(c, [], e);
      assert [] + c.encode(e).value + [Framing.NEWLINE] == record;
      LogCons(c, File(name, record, now), dir);
    } else {
      var f, rest := dir[0], dir[1..];
      assert dir == [f] + rest;
      LogCons(c, f, rest);
      if f.name == name {
        before, after := Framing.Log(c, f.data), DiskLog(c, rest);
        Framing.LogAppend(c, f.data, e);
        assert f.data + c.encode(e).value + [Framing.NEWLINE] == f.data + record;
        LogCons(c, File(name, f.data + record, now), rest);
      } else {
        before, after := AppendInserts(c, rest, name, e, now);
        LogCons(c, f, Append(rest, name, record, now));
        var head := Framing.Log(c, f.data);
        ConcatAssociates(head, before, after);
        ConcatAssociates(head, before, [Framing.AsRead(c, e)]);
        ConcatAssociates(head, before + [Framing.AsRead(c, e)], after);
        before := head + before;
      }
    }
  }

  lemma {:induction false} AppendComplete(dir: seq<File>, name: string, record: Bytes, now: int)
    requires AllComplete(dir) && Framing.Complete(record) && record != []
    ensures AllComplete(Append(dir, name, record, now))
  {
    if dir != [] && !Less(name, dir[0].name) && dir[0].name != name {
      AppendComplete(dir[1..], name, record, now);
    }
  }

  lemma ReadableCons(c: Framing.Codec, f: File, dir: seq<File>)
    ensures Readable(c, [f] + dir) <==> Framing.ReadData(c, f.data).Read? && Readable(c, dir)
  {
    var all := [f] + dir;
    if Readable(c, all) {
      assert all[0] == f;
      forall i | 0 <= i < |dir| ensures Framing.ReadData(c, dir[i].data).Read? {
        assert all[i + 1] == dir[i];
      }
    }
  }

  /** After a record is appended the directory can be read if and only if it could be read before and
      the record is within the scanner's limit. */
  lemma {:induction false} AppendReadable(c: Framing.Codec, dir: seq<File>, name: string, e: Event, now: int)
    requires Framing.ValidCodec(c) && c.encode(e).Some? && AllComplete(dir)
    ensures Readable(c, Append(dir, name, Record(c, e), now))
       <==> Readable(c, dir) && |c.encode(e).value| < Framing.MAX_TOKEN
  {
    var record := Record(c, e);
    if dir == [] || Less(name, dir[0].name) {
      Framing.FramingRoundTrip(c, [], e);
      assert [] + c.encode(e).value + [Framing.NEWLINE] == record;
      ReadableCons(c, File(name, record, now), dir);
    } else {
      var f, rest := dir[0], dir[1..];
      assert dir == [f] + rest;
      ReadableCons(c, f, rest);
      if f.name == name {
        Framing.FramingRoundTrip(c, f.data, e);
        assert f.data + c.encode(e).value + [Framing.NEWLINE] == f.data + record;
        ReadableCons(c, File(name, f.data + record, now), rest);
      } else {
        AppendReadable(c, rest, name, e, now);
        ReadableCons(c, f, Append(rest, name, record, now));
      }
    }
  }

  lemma {:induction false} SurvivorsCount(c: Framing.Codec, dir: seq<File>, cutoff: int, id: Text)
    ensures CountID(DiskLog(c, Survivors(dir, cutoff)), id) <= CountID(DiskLog(c, dir), id)
  {
    if dir != [] {
      var f, rest := dir[0], dir[1..];
      assert dir == [f] + rest;
      SurvivorsCount(c, rest, cutoff, id);
      LogCons(c, f, rest);
      CountConcat(Framing.Log(c, f.data), DiskLog(c, rest), id);
      if f.modified >= cutoff {
        LogCons(c, f, Survivors(rest, cutoff));
        CountConcat(Framing.Log(c, f.data), DiskLog(c, Survivors(rest, cutoff)), id);
      } else {
        assert Survivors(dir, cutoff) == Survivors(rest, cutoff);
      }
    }
  }

  lemma {:induction false} SurvivorsComplete(dir: seq<File>, cutoff: int)
    requires AllComplete(dir)
    ensures AllComplete(Survivors(dir, cutoff))
  {
    forall i | 0 <= i < |Survivors(dir, cutoff)| ensures Framing.Complete(Survivors(dir, cutoff)[i].data) {
      var k := SurvivorsAmong(dir, cutoff, i);
    }
  }

  // ---------------------------------------------------------------- runs

  datatype Op =
    | StoreOp(cancelled: bool, event: Event, now: int, writable: bool)
    | RotateOp(cancelled: bool, now: int)
    | CloseOp
    | RestartOp

  /** A store that fails to restart serves nothing. */
  ghost function Step(cfg: Settings, d: Disk, op: Op): Disk
    requires ValidSettings(cfg)
  {
    match op
    case StoreOp(cancelled, event, now, writable) => StoreStep(cfg, d, cancelled, event, now, writable).0
    case RotateOp(cancelled, now) => RotateStep(cfg, d, cancelled, now).0
    case CloseOp => d.(closed := true)
    case RestartOp => OpenStep(cfg, d.dir).0
  }

  /** A run from the opening of a directory that holds `files`. */
  ghost function RunOps(cfg: Settings, files: seq<File>, ops: seq<Op>): Disk
    requires ValidSettings(cfg)
  {
    if ops == [] then OpenStep(cfg, files).0
    else Step(cfg, RunOps(cfg, files, ops[..|ops| - 1]), ops[|ops| - 1])
  }

  /** Listing order, terminated records, and each non-empty ID at most once on disk. */
  ghost predicate DirInv(cfg: Settings, dir: seq<File>) {
    && Sorted(dir)
    && AllComplete(dir)
    && forall id :: id != [] ==> CountID(DiskLog(cfg.codec, dir), id) <= 1
  }

  /** Every ID on disk is in the index. */
  ghost predicate Indexed(cfg: Settings, d: Disk) {
    [] !in d.known && forall id :: id != [] && CountID(DiskLog(cfg.codec, d.dir), id) > 0 ==> id in d.known
  }

  /** The index is exactly the set of IDs on disk. */
  ghost predicate Agrees(cfg: Settings, d: Disk) {
    forall id :: id in d.known <==> id != [] && CountID(DiskLog(cfg.codec, d.dir), id) > 0
  }

  ghost predicate IndexInv(cfg: Settings, d: Disk) {
    DirInv(cfg, d.dir) && (!d.closed ==> Indexed(cfg, d))
  }

  lemma OpenAgrees(cfg: Settings, dir: seq<File>)
    requires DirInv(cfg, dir)
    ensures IndexInv(cfg, OpenStep(cfg, dir).0)
    ensures Readable(cfg.codec, dir) ==> Agrees(cfg, OpenStep(cfg, dir).0)
  {
    var log := DiskLog(cfg.codec, dir);
    forall id ensures id in IDs(log) <==> id != [] && CountID(log, id) > 0 {
      CountCarries(log, id);
    }
  }

  lemma AppendCounts(c: Framing.Codec, dir: seq<File>, name: string, event: Event, now: int, id: Text)
    requires Framing.ValidCodec(c) && c.encode(event).Some? && AllComplete(dir)
    ensures CountID(DiskLog(c, Append(dir, name, Record(c, event), now)), id)
         == CountID(DiskLog(c, dir), id) + (if event.eventID == id then 1 else 0)
  {
    var before, after := AppendInserts(c, dir, name, event, now);
    var e := Framing.AsRead(c, event);
    CountConcat(before, after, id);
    CountConcat(before + [e], after, id);
    CountConcat(before, [e], id);
    CountOne(e, id);
  }

  /** A successful store, spelled out. */
  lemma StoreShape(cfg: Settings, d: Disk, event: Event, now: int) returns (name: string)
    requires ValidSettings(cfg) && StoreStep(cfg, d, false, event, now, true).1.Ok?
    ensures cfg.codec.encode(event).Some? && !d.closed && event.eventID != [] && event.eventID !in d.known
    ensures var record := Record(cfg.codec, event);
      name == FileName(cfg.stamp, WeekOf(now), FirstFit(cfg, d.dir, WeekOf(now), |record|, 0))
    ensures StoreStep(cfg, d, false, event, now, true).0
         == Disk(Append(d.dir, name, Record(cfg.codec, event), now), d.known + {event.eventID}, false)
  {
    name := FileName(cfg.stamp, WeekOf(now), FirstFit(cfg, d.dir, WeekOf(now), |Record(cfg.codec, event)|, 0));
  }

  /** Appending a record with a new ID keeps the directory in order. */
  lemma AppendDirInv(cfg: Settings, dir: seq<File>, name: string, event: Event, now: int)
    requires ValidSettings(cfg) && cfg.codec.encode(event).Some? && DirInv(cfg, dir)
    requires CountID(DiskLog(cfg.codec, dir), event.eventID) == 0
    ensures DirInv(cfg, Append(dir, name, Record(cfg.codec, event), now))
  {
    AppendSorted(dir, name, Record(cfg.codec, event), now);
    AppendComplete(dir, name, Record(cfg.codec, event), now);
    forall id | id != [] ensures CountID(DiskLog(cfg.codec, Append(dir, name, Record(cfg.codec, event), now)), id) <= 1 {
      AppendCounts(cfg.codec, dir, name, event, now, id);
    }
  }

  lemma StoreIndex(cfg: Settings, d: Disk, event: Event, now: int)
    requires ValidSettings(cfg) && IndexInv(cfg, d) && StoreStep(cfg, d, false, event, now, true).1.Ok?
    ensures IndexInv(cfg, StoreStep(cfg, d, false, event, now, true).0)
    ensures Agrees(cfg, d) ==> Agrees(cfg, StoreStep(cfg, d, false, event, now, true).0)
  {
    var name := StoreShape(cfg, d, event, now);
    var dir' := Append(d.dir, name, Record(cfg.codec, event), now);
    AppendDirInv(cfg, d.dir, name, event, now);
    forall id
      ensures CountID(DiskLog(cfg.codec, dir'), id)
           == CountID(DiskLog(cfg.codec, d.dir), id) + (if event.eventID == id then 1 else 0)
    {
      AppendCounts(cfg.codec, d.dir, name, event, now, id);
    }
  }

  lemma StepIndex(cfg: Settings, d: Disk, op: Op)
    requires ValidSettings(cfg) && IndexInv(cfg, d)
    ensures IndexInv(cfg, Step(cfg, d, op))
  {
    match op
    case StoreOp(cancelled, event, now, writable) =>
      if StoreStep(cfg, d, cancelled, event, now, writable).1.Ok? {
        StoreIndex(cfg, d, event, now);
      }
    case RotateOp(cancelled, now) =>
      if !cancelled && !d.closed {
        var cutoff := Cutoff(cfg, now);
        SurvivorsSorted(d.dir, cutoff);
        SurvivorsComplete(d.dir, cutoff);
        forall id
          ensures CountID(DiskLog(cfg.codec, Survivors(d.dir, cutoff)), id) <= CountID(DiskLog(cfg.codec, d.dir), id)
        {
          SurvivorsCount(cfg.codec, d.dir, cutoff, id);
        }
      }
    case CloseOp =>
    case RestartOp => OpenAgrees(cfg, d.dir);
  }

  /** In every run of stores, rotations, closes and restarts, each ID is on disk at most once, and while
      the store serves, every ID on disk is in the index. */
  lemma {:induction false} IndexInEveryRun(cfg: Settings, files: seq<File>, ops: seq<Op>)
    requires ValidSettings(cfg) && DirInv(cfg, files)
    ensures IndexInv(cfg, RunOps(cfg, files, ops))
  {
    if ops == [] {
      OpenAgrees(cfg, files);
    } else {
      IndexInEveryRun(cfg, files, ops[..|ops| - 1]);
      StepIndex(cfg, RunOps(cfg, files, ops[..|ops| - 1]), ops[|ops| - 1]);
    }
  }

  /** The step deletes no file, and if it restarts, the restart succeeds. */
  ghost predicate Lossless(cfg: Settings, d: Disk, op: Op) {
    && (op.RotateOp? ==> Survivors(d.dir, Cutoff(cfg, op.now)) == d.dir)
    && (op.RestartOp? ==> Readable(cfg.codec, d.dir))
  }

  ghost predicate LosslessRun(cfg: Settings, files: seq<File>, ops: seq<Op>)
    requires ValidSettings(cfg)
  {
    ops == []
    || (LosslessRun(cfg, files, ops[..|ops| - 1])
        && Lossless(cfg, RunOps(cfg, files, ops[..|ops| - 1]), ops[|ops| - 1]))
  }

  /** Index and disk agree exactly after opening, until Rotate deletes a file; and a successful restart
      makes them agree again, whatever happened before. */
  lemma {:induction false} AgreementUntilDeletion(cfg: Settings, files: seq<File>, ops: seq<Op>)
    requires ValidSettings(cfg) && DirInv(cfg, files) && Readable(cfg.codec, files) && LosslessRun(cfg, files, ops)
    ensures Agrees(cfg, RunOps(cfg, files, ops))
  {
    if ops == [] {
      OpenAgrees(cfg, files);
    } else {
      var before, op := ops[..|ops| - 1], ops[|ops| - 1];
      var d := RunOps(cfg, files, before);
      AgreementUntilDeletion(cfg, files, before);
      IndexInEveryRun(cfg, files, before);
      LosslessStep(cfg, d, op);
    }
  }

  /** Rotations that delete nothing, and closes, leave files and index alone. */
  lemma QuietStep(cfg: Settings, d: Disk, op: Op)
    requires ValidSettings(cfg) && Lossless(cfg, d, op) && (op.RotateOp? || op.CloseOp?)
    ensures Step(cfg, d, op).dir == d.dir && Step(cfg, d, op).known == d.known
  {}

  lemma LosslessStep(cfg: Settings, d: Disk, op: Op)
    requires ValidSettings(cfg) && IndexInv(cfg, d) && Agrees(cfg, d) && Lossless(cfg, d, op)
    ensures Agrees(cfg, Step(cfg, d, op))
  {
    match op
    case StoreOp(cancelled, event, now, writable) =>
      if StoreStep(cfg, d, cancelled, event, now, writable).1.Ok? {
        StoreIndex(cfg, d, event, now);
      }
    case RestartOp => OpenAgrees(cfg, d.dir);
    case _ => QuietStep(cfg, d, op);
  }

  lemma RestartRestoresAgreement(cfg: Settings, files: seq<File>, ops: seq<Op>)
    requires ValidSettings(cfg) && DirInv(cfg, files) && Readable(cfg.codec, RunOps(cfg, files, ops).dir)
    ensures var d := RunOps(cfg, files, ops);
      var d' := RunOps(cfg, files, ops + [RestartOp]);
      d'.dir == d.dir && !d'.closed && Agrees(cfg, d')
  {
    assert (ops + [RestartOp])[..|ops|] == ops;
    IndexInEveryRun(cfg, files, ops);
    OpenAgrees(cfg, RunOps(cfg, files, ops).dir);
  }

  // ---------------------------------------------------------------- get

  lemma {:induction false} FirstWithCount(events: seq<Event>, id: Text)
    ensures FirstWith(events, id).Some? <==> CountID(events, id) > 0
    ensures FirstWith(events, id).Some? ==>
      FirstWith(events, id).value in events && FirstWith(events, id).value.eventID == id
  {
    if events != [] {
      assert events == [events[0]] + events[1..];
      CountConcat([events[0]], events[1..], id);
      CountOne(events[0], id);
      FirstWithCount(events[1..], id);
    }
  }

  /** On a readable disk a scan finds an event with the ID exactly when there is one. */
  lemma {:induction false} ScanCount(c: Framing.Codec, dir: seq<File>, id: Text)
    requires Readable(c, dir)
    ensures if CountID(DiskLog(c, dir), id) > 0
            then Scan(c, dir, id).Got? && Scan(c, dir, id).value in DiskLog(c, dir)
                 && Scan(c, dir, id).value.eventID == id
            else Scan(c, dir, id) == Failed(NotFound)
  {
    if dir != [] {
      var f, rest := dir[0], dir[1..];
      assert dir == [f] + rest;
      LogCons(c, f, rest);
      CountConcat(Framing.Log(c, f.data), DiskLog(c, rest), id);
      Framing.ReadIsLineEvents(c, Framing.Lines(f.data));
      FirstWithCount(Framing.Log(c, f.data), id);
      ScanCount(c, rest, id);
    }
  }

  /** A full scan for an ID that is not on disk fails: with `not found`, unless some file is unreadable. */
  lemma {:induction false} ScanAbsent(c: Framing.Codec, dir: seq<File>, id: Text)
    requires CountID(DiskLog(c, dir), id) == 0
    ensures Scan(c, dir, id) == Failed(if Readable(c, dir) then NotFound else ReadFailed)
  {
    if dir != [] {
      var f, rest := dir[0], dir[1..];
      assert dir == [f] + rest;
      ReadableCons(c, f, rest);
      LogCons(c, f, rest);
      CountConcat(Framing.Log(c, f.data), DiskLog(c, rest), id);
      if Framing.ReadData(c, f.data).Read? {
        Framing.ReadIsLineEvents(c, Framing.Lines(f.data));
        FirstWithCount(Framing.Log(c, f.data), id);
        ScanAbsent(c, rest, id);
      }
    }
  }

  /** For a non-empty ID in any run, the index-guarded Get equals a full scan if and only if the ID is in the
      index or every file is readable: for an unknown ID the index hides an unreadable file. */
  lemma GetEqualsScan(cfg: Settings, files: seq<File>, ops: seq<Op>, id: Text)
    requires ValidSettings(cfg) && DirInv(cfg, files) && id != [] && !RunOps(cfg, files, ops).closed
    ensures var d := RunOps(cfg, files, ops);
      var guarded := if id !in d.known then Failed(NotFound) else Scan(cfg.codec, d.dir, id);
      guarded == Scan(cfg.codec, d.dir, id) <==> id in d.known || Readable(cfg.codec, d.dir)
  {
    var d := RunOps(cfg, files, ops);
    IndexInEveryRun(cfg, files, ops);
    if id !in d.known {
      ScanAbsent(cfg.codec, d.dir, id);
    }
  }

  lemma {:induction false} OnlyCarrier(events: seq<Event>, a: Event, b: Event)
    requires a in events && b in events && a.eventID == b.eventID && CountID(events, a.eventID) <= 1
    ensures a == b
  {
    var n := |events| - 1;
    var id := a.eventID;
    assert events == events[..n] + [events[n]];
    CountCarries(events[..n], id);
    if events[n].eventID == id {
      assert forall k :: 0 <= k < n ==> events[..n][k].eventID != id;
    } else {
      OnlyCarrier(events[..n], a, b);
    }
  }

  /** What was stored can be fetched, and all other files still read, if and only if the encoded record is
      within the scanner's limit; Store itself accepts records of any size. */
  lemma StoreThenGet(cfg: Settings, files: seq<File>, ops: seq<Op>, event: Event, now: int)
    requires ValidSettings(cfg) && DirInv(cfg, files)
    requires var d := RunOps(cfg, files, ops);
      Readable(cfg.codec, d.dir) && StoreStep(cfg, d, false, event, now, true).1.Ok?
    ensures var d' := StoreStep(cfg, RunOps(cfg, files, ops), false, event, now, true).0;
      var fits := |cfg.codec.encode(event).value| < 1_048_576;
      && (Readable(cfg.codec, d'.dir) <==> fits)
      && (OpenStep(cfg, d'.dir).1.Ok? <==> fits)
      && (fits ==> event.eventID in d'.known
                   && Scan(cfg.codec, d'.dir, event.eventID) == Got(Framing.AsRead(cfg.codec, event)))
  {
    var d := RunOps(cfg, files, ops);
    var d' := StoreStep(cfg, d, false, event, now, true).0;
    IndexInEveryRun(cfg, files, ops);
    StoreIndex(cfg, d, event, now);
    var name := StoreShape(cfg, d, event, now);
    AppendReadable(cfg.codec, d.dir, name, event, now);
    if |cfg.codec.encode(event).value| < Framing.MAX_TOKEN {
      var before, after := AppendInserts(cfg.codec, d.dir, name, event, now);
      var e := Framing.AsRead(cfg.codec, event);
      var log := DiskLog(cfg.codec, d'.dir);
      assert log[|before|] == e;
      AppendCounts(cfg.codec, d.dir, name, event, now, event.eventID);
      ScanCount(cfg.codec, d'.dir, event.eventID);
      OnlyCarrier(log, e, Scan(cfg.codec, d'.dir, event.eventID).value);
    }
  }
}

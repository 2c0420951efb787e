/** What rotation deletes, and how long a stored event stays. */
module Retention {
  import opened Contracts
  import opened StorePort
  import opened Directory
  import Framing
  import opened Naming
  import opened JsonStorage
  import opened StorageTheorems

  /** A file outlives a rotation if and only if it was written to within the retention period, counted in days
      of 24 hours; a cancelled or late rotation deletes nothing. */
  lemma RotateKeepsExactly(cfg: Settings, d: Disk, cancelled: bool, now: int, f: File)
    ensures f in RotateStep(cfg, d, cancelled, now).0.dir <==>
      f in d.dir && (cancelled || d.closed || now - f.modified <= cfg.retentionDays * 86_400_000_000_000)
    ensures RotateStep(cfg, d, cancelled, now).0.known == d.known && RotateStep(cfg, d, cancelled, now).0.closed == d.closed
  {
    SurvivorsExactly(d.dir, Cutoff(cfg, now), f);
  }

  // ---------------------------------------------------------------- a stored event over a run

  predicate HeldBy(c: Framing.Codec, f: File, e: Event, since: int) {
    f.modified >= since && e in Framing.Log(c, f.data)
  }

  /** Some file written to since then holds the event. */
  ghost predicate Held(c: Framing.Codec, dir: seq<File>, e: Event, since: int) {
    exists f :: f in dir && HeldBy(c, f, e, since)
  }

  lemma {:induction false} HeldIsLogged(c: Framing.Codec, dir: seq<File>, e: Event, since: int)
    requires Held(c, dir, e, since)
    ensures e in DiskLog(c, dir)
  {
    var f, rest := dir[0], dir[1..];
    assert dir == [f] + rest;
    LogCons(c, f, rest);
    if !HeldBy(c, f, e, since) {
      assert Held(c, rest, e, since);
      HeldIsLogged(c, rest, e, since);
    }
  }

  /** The record is written to a file that is modified now. */
  lemma {:induction false} AppendHolds(c: Framing.Codec, dir: seq<File>, name: string, event: Event, now: int)
    requires Framing.ValidCodec(c) && c.encode(event).Some? && AllComplete(dir)
    ensures Held(c, Append(dir, name, Record(c, event), now), Framing.AsRead(c, event), now)
  {
    var record := Record(c, event);
    if dir == [] || Less(name, dir[0].name) {
      Framing.LogAppend(c, [], event);
      assert [] + c.encode(event).value + [Framing.NEWLINE] == record;
      assert HeldBy(c, File(name, record, now), Framing.AsRead(c, event), now);
    } else if dir[0].name == name {
      var f := dir[0];
      Framing.LogAppend(c, f.data, event);
      assert f.data + c.encode(event).value + [Framing.NEWLINE] == f.data + record;
      assert HeldBy(c, File(name, f.data + record, now), Framing.AsRead(c, event), now);
    } else {
      AppendHolds(c, dir[1..], name, event, now);
      var f :| f in Append(dir[1..], name, record, now) && HeldBy(c, f, Framing.AsRead(c, event), now);
      assert f in Append(dir, name, record, now);
    }
  }

  /** Later records leave it there. */
  lemma {:induction false} AppendKeepsHeld(c: Framing.Codec, dir: seq<File>, name: string, event: Event, now: int,
                                           e: Event, since: int)
    requires Framing.ValidCodec(c) && c.encode(event).Some? && AllComplete(dir)
    requires Held(c, dir, e, since) && now >= since
    ensures Held(c, Append(dir, name, Record(c, event), now), e, since)
  {
    var record := Record(c, event);
    var dir' := Append(dir, name, record, now);
    var f :| f in dir && HeldBy(c, f, e, since);
    if dir == [] || Less(name, dir[0].name) {
      assert f in dir';
    } else if dir[0].name == name {
      if f == dir[0] {
        Framing.LogAppend(c, f.data, event);
        assert f.data + c.encode(event).value + [Framing.NEWLINE] == f.data + record;
        assert dir'[0] == File(name, f.data + record, now);
        assert HeldBy(c, dir'[0], e, since);
      } else {
        assert f in dir[1..];
        assert f in dir';
      }
    } else if f == dir[0] {
      assert f == dir'[0];
    } else {
      assert f in dir[1..];
      AppendKeepsHeld(c, dir[1..], name, event, now, e, since);
      var g :| g in Append(dir[1..], name, record, now) && HeldBy(c, g, e, since);
      assert g in dir';
    }
  }

  /** The operation comes after the store, and if it is a rotation, within the retention period of it. */
  predicate WithinRetention(cfg: Settings, op: Op, stored: int) {
    && (op.StoreOp? ==> op.now >= stored)
    && (op.RotateOp? ==> op.now - stored <= cfg.retentionDays * 86_400_000_000_000)
  }

  lemma StepKeepsHeld(cfg: Settings, d: Disk, op: Op, e: Event, stored: int)
    requires ValidSettings(cfg) && AllComplete(d.dir) && Held(cfg.codec, d.dir, e, stored) && WithinRetention(cfg, op, stored)
    ensures Held(cfg.codec, Step(cfg, d, op).dir, e, stored)
  {
    match op
    case StoreOp(cancelled, event, now, writable) =>
      if StoreStep(cfg, d, cancelled, event, now, writable).1.Ok? {
        var name := StoreShape(cfg, d, event, now);
        AppendKeepsHeld(cfg.codec, d.dir, name, event, now, e, stored);
      }
    case RotateOp(cancelled, now) =>
      var f :| f in d.dir && HeldBy(cfg.codec, f, e, stored);
      RotateKeepsExactly(cfg, d, cancelled, now, f);
    case _ =>
  }

  lemma {:induction false} HeldOnward(cfg: Settings, files: seq<File>, start: seq<Op>, after: seq<Op>, e: Event, stored: int)
    requires ValidSettings(cfg) && DirInv(cfg, files) && Held(cfg.codec, RunOps(cfg, files, start).dir, e, stored)
    requires forall k :: 0 <= k < |after| ==> WithinRetention(cfg, after[k], stored)
    ensures Held(cfg.codec, RunOps(cfg, files, start + after).dir, e, stored)
  {
    if after == [] {
      assert start + after == start;
    } else {
      var n := |after| - 1;
      HeldOnward(cfg, files, start, after[..n], e, stored);
      HeldOneMore(cfg, files, start + after[..n], after[n], e, stored);
      SnocOp(start, after);
    }
  }

  lemma SnocOp(start: seq<Op>, after: seq<Op>)
    requires after != []
    ensures (start + after[..|after| - 1]) + [after[|after| - 1]] == start + after
  {}

  lemma HeldInEveryRun(cfg: Settings, files: seq<File>, before: seq<Op>, after: seq<Op>, event: Event, now: int)
    requires ValidSettings(cfg) && DirInv(cfg, files)
    requires StoreStep(cfg, RunOps(cfg, files, before), false, event, now, true).1.Ok?
    requires forall k :: 0 <= k < |after| ==> WithinRetention(cfg, after[k], now)
    ensures cfg.codec.encode(event).Some?
    ensures var ops := before + [StoreOp(false, event, now, true)] + after;
      Held(cfg.codec, RunOps(cfg, files, ops).dir, Framing.AsRead(cfg.codec, event), now)
  {
    HeldAfterStore(cfg, files, before, event, now);
    HeldOnward(cfg, files, before + [StoreOp(false, event, now, true)], after, Framing.AsRead(cfg.codec, event), now);
  }

  lemma HeldAfterStore(cfg: Settings, files: seq<File>, before: seq<Op>, event: Event, now: int)
    requires ValidSettings(cfg) && DirInv(cfg, files)
    requires StoreStep(cfg, RunOps(cfg, files, before), false, event, now, true).1.Ok?
    ensures cfg.codec.encode(event).Some?
    ensures Held(cfg.codec, RunOps(cfg, files, before + [StoreOp(false, event, now, true)]).dir,
                 Framing.AsRead(cfg.codec, event), now)
  {
    var d := RunOps(cfg, files, before);
    var name := StoreShape(cfg, d, event, now);
    IndexInEveryRun(cfg, files, before);
    RunStep(cfg, files, before, StoreOp(false, event, now, true));
    AppendHolds(cfg.codec, d.dir, name, event, now);
  }

  lemma HeldOneMore(cfg: Settings, files: seq<File>, ops: seq<Op>, op: Op, e: Event, stored: int)
    requires ValidSettings(cfg) && DirInv(cfg, files) && WithinRetention(cfg, op, stored)
    requires Held(cfg.codec, RunOps(cfg, files, ops).dir, e, stored)
    ensures Held(cfg.codec, RunOps(cfg, files, ops + [op]).dir, e, stored)
  {
    IndexInEveryRun(cfg, files, ops);
    RunStep(cfg, files, ops, op);
    StepKeepsHeld(cfg, RunOps(cfg, files, ops), op, e, stored);
  }

  lemma RunStep(cfg: Settings, files: seq<File>, ops: seq<Op>, op: Op)
    requires ValidSettings(cfg)
    ensures RunOps(cfg, files, ops + [op]) == Step(cfg, RunOps(cfg, files, ops), op)
  {
    assert (ops + [op])[..|ops|] == ops;
  }

  /** A stored event is found by Get as long as the store serves, its files are readable and every rotation
      since comes within the retention period: whatever else is stored, refused, rotated away or restarted. */
  lemma StoredEventsStay(cfg: Settings, files: seq<File>, before: seq<Op>, after: seq<Op>, event: Event, now: int)
    requires ValidSettings(cfg) && DirInv(cfg, files)
    requires StoreStep(cfg, RunOps(cfg, files, before), false, event, now, true).1.Ok?
    requires forall k :: 0 <= k < |after| ==> WithinRetention(cfg, after[k], now)
    requires var d := RunOps(cfg, files, before + [StoreOp(false, event, now, true)] + after);
      !d.closed && Readable(cfg.codec, d.dir)
    ensures cfg.codec.encode(event).Some?
    ensures var d := RunOps(cfg, files, before + [StoreOp(false, event, now, true)] + after);
      event.eventID in d.known && Scan(cfg.codec, d.dir, event.eventID) == Got(Framing.AsRead(cfg.codec, event))
  {
    var ops := before + [StoreOp(false, event, now, true)] + after;
    var d := RunOps(cfg, files, ops);
    HeldInEveryRun(cfg, files, before, after, event, now);
    var name := StoreShape(cfg, RunOps(cfg, files, before), event, now);
    HeldIsLogged(cfg.codec, d.dir, Framing.AsRead(cfg.codec, event), now);
    IndexInEveryRun(cfg, files, ops);
    LoggedIsFound(cfg, d, Framing.AsRead(cfg.codec, event));
  }

  lemma LoggedIsFound(cfg: Settings, d: Disk, e: Event)
    requires ValidSettings(cfg) && IndexInv(cfg, d) && !d.closed && Readable(cfg.codec, d.dir)
    requires e in DiskLog(cfg.codec, d.dir) && e.eventID != []
    ensures e.eventID in d.known && Scan(cfg.codec, d.dir, e.eventID) == Got(e)
  {
    var log := DiskLog(cfg.codec, d.dir);
    var k :| 0 <= k < |log| && log[k] == e;
    CountCarries(log, e.eventID);
    ScanCount(cfg.codec, d.dir, e.eventID);
    OnlyCarrier(log, e, Scan(cfg.codec, d.dir, e.eventID).value);
  }

  // ---------------------------------------------------------------- where a record goes

  /** A record goes to a file of the week that holds the clock reading, and nowhere else. */
  lemma StoredInItsWeek(cfg: Settings, d: Disk, event: Event, now: int) returns (week: Week, index: nat)
    requires ValidSettings(cfg) && Sorted(d.dir) && StoreStep(cfg, d, false, event, now, true).1.Ok?
    ensures week <= now < week + 604_800_000_000_000 && Weekday(week) == 1
    ensures cfg.codec.encode(event).Some?
    ensures var d' := StoreStep(cfg, d, false, event, now, true).0;
      var name := FileName(cfg.stamp, week, index);
      && DataOf(d'.dir, name) == DataOf(d.dir, name) + Record(cfg.codec, event)
      && forall other :: other != name ==>
           (Has(d'.dir, other) <==> Has(d.dir, other)) && DataOf(d'.dir, other) == DataOf(d.dir, other)
  {
    var name := StoreShape(cfg, d, event, now);
    week := WeekOf(now);
    WeekStart(now);
    index := FirstFit(cfg, d.dir, week, |Record(cfg.codec, event)|, 0);
    forall other ensures
      && (Has(Append(d.dir, name, Record(cfg.codec, event), now), other) <==> other == name || Has(d.dir, other))
      && DataOf(Append(d.dir, name, Record(cfg.codec, event), now), other)
         == (if other == name then DataOf(d.dir, name) + Record(cfg.codec, event) else DataOf(d.dir, other))
    {
      AppendEffect(d.dir, name, Record(cfg.codec, event), now, other);
    }
  }

  /** When a store succeeds, and that otherwise nothing changes. */
  lemma StoreOutcomes(cfg: Settings, d: Disk, cancelled: bool, event: Event, now: int, writable: bool)
    requires ValidSettings(cfg)
    ensures var (d', outcome) := StoreStep(cfg, d, cancelled, event, now, writable);
      && (outcome.Ok? <==> !cancelled && event.eventID != [] && cfg.codec.encode(event).Some? && !d.closed
                           && event.eventID !in d.known && writable)
      && (!outcome.Ok? ==> d' == d)
      && (outcome == Err(Duplicate) <==> !cancelled && event.eventID != [] && cfg.codec.encode(event).Some?
                                         && !d.closed && event.eventID in d.known)
  {}
}

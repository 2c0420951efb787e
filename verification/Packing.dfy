/** First-fit placement keeps a week's files contiguous and well filled. */
module Packing {
  import opened Contracts
  import opened Directory
  import opened Naming
  import opened JsonStorage
  import opened StorageTheorems
  import Framing

  function FileSize(cfg: Settings, dir: seq<File>, week: Week, i: nat): nat {
    |DataOf(dir, FileName(cfg.stamp, week, i))|
  }

  /** The file holds one record: its only newline is its last byte. */
  predicate SingleRecord(data: Bytes) {
    data != [] && data[|data| - 1] == Framing.NEWLINE && Framing.NEWLINE !in data[..|data| - 1]
  }

  /** The week has exactly files 0 to n - 1; each is within the limit or holds a single record; and any two
      together exceed the limit. */
  ghost predicate Packed(cfg: Settings, dir: seq<File>, week: Week, n: nat) {
    && (forall i: nat :: Exists(cfg, dir, week, i) <==> i < n)
    && (forall i: nat :: i < n ==>
          FileSize(cfg, dir, week, i) <= cfg.maxFileSize || SingleRecord(DataOf(dir, FileName(cfg.stamp, week, i))))
    && (forall i: nat, k: nat :: i < k < n ==>
          FileSize(cfg, dir, week, i) + FileSize(cfg, dir, week, k) > cfg.maxFileSize)
  }

  lemma SameWeekAppend(cfg: Settings, dir: seq<File>, week: Week, index: nat, bytes: Bytes, now: int, i: nat)
    requires ValidSettings(cfg) && Sorted(dir)
    ensures var dir' := Append(dir, FileName(cfg.stamp, week, index), bytes, now);
      && (Exists(cfg, dir', week, i) <==> i == index || Exists(cfg, dir, week, i))
      && DataOf(dir', FileName(cfg.stamp, week, i))
         == if i == index then DataOf(dir, FileName(cfg.stamp, week, i)) + bytes
            else DataOf(dir, FileName(cfg.stamp, week, i))
  {
    AppendEffect(dir, FileName(cfg.stamp, week, index), bytes, now, FileName(cfg.stamp, week, i));
    if i != index && FileName(cfg.stamp, week, i) == FileName(cfg.stamp, week, index) {
      NamesDiffer(cfg.stamp, week, i, week, index);
    }
  }

  lemma OtherWeekAppend(cfg: Settings, dir: seq<File>, week: Week, other: Week, index: nat, bytes: Bytes, now: int, i: nat)
    requires ValidSettings(cfg) && Sorted(dir) && week != other
    ensures var dir' := Append(dir, FileName(cfg.stamp, other, index), bytes, now);
      && (Exists(cfg, dir', week, i) <==> Exists(cfg, dir, week, i))
      && DataOf(dir', FileName(cfg.stamp, week, i)) == DataOf(dir, FileName(cfg.stamp, week, i))
  {
    AppendEffect(dir, FileName(cfg.stamp, other, index), bytes, now, FileName(cfg.stamp, week, i));
    if FileName(cfg.stamp, week, i) == FileName(cfg.stamp, other, index) {
      NamesDiffer(cfg.stamp, week, i, other, index);
    }
  }

  /** First fit in a packed week: the file exists and has room, or every file lacks room and the next number is taken. */
  lemma FitInPacked(cfg: Settings, dir: seq<File>, week: Week, n: nat, index: nat, size: int)
    requires ValidSettings(cfg) && Packed(cfg, dir, week, n) && IsFirstFit(cfg, dir, week, size, index)
    ensures index <= n
    ensures index < n ==> FileSize(cfg, dir, week, index) + size <= cfg.maxFileSize
    ensures index == n ==> DataOf(dir, FileName(cfg.stamp, week, index)) == []
    ensures forall j: nat :: j < index ==> FileSize(cfg, dir, week, j) + size > cfg.maxFileSize
  {
    assert !Exists(cfg, dir, week, n);
    if index == n {
      AbsentData(dir, FileName(cfg.stamp, week, n));
    }
    forall j: nat | j < index ensures FileSize(cfg, dir, week, j) + size > cfg.maxFileSize {
      assert !HasRoom(cfg, dir, week, size, j);
    }
  }

  lemma PlacedFile(cfg: Settings, dir: seq<File>, week: Week, n: nat, index: nat, record: Bytes, now: int, i: nat)
    requires ValidSettings(cfg) && Sorted(dir) && Packed(cfg, dir, week, n)
    requires SingleRecord(record) && IsFirstFit(cfg, dir, week, |record|, index)
    requires i < n || i == index
    ensures var dir' := Append(dir, FileName(cfg.stamp, week, index), record, now);
      FileSize(cfg, dir', week, i) <= cfg.maxFileSize || SingleRecord(DataOf(dir', FileName(cfg.stamp, week, i)))
  {
    FitInPacked(cfg, dir, week, n, index, |record|);
    SameWeekAppend(cfg, dir, week, index, record, now, i);
    assert [] + record == record;
  }

  lemma PlacedPair(cfg: Settings, dir: seq<File>, week: Week, n: nat, index: nat, record: Bytes, now: int, i: nat, k: nat)
    requires ValidSettings(cfg) && Sorted(dir) && Packed(cfg, dir, week, n)
    requires SingleRecord(record) && IsFirstFit(cfg, dir, week, |record|, index)
    requires i < k && (k < n || k == index)
    ensures var dir' := Append(dir, FileName(cfg.stamp, week, index), record, now);
      FileSize(cfg, dir', week, i) + FileSize(cfg, dir', week, k) > cfg.maxFileSize
  {
    FitInPacked(cfg, dir, week, n, index, |record|);
    SameWeekAppend(cfg, dir, week, index, record, now, i);
    SameWeekAppend(cfg, dir, week, index, record, now, k);
  }

  /** Placing one record by first fit keeps the week packed; a file is added only when no file has room. */
  lemma PlaceKeepsPacked(cfg: Settings, dir: seq<File>, week: Week, n: nat, index: nat, record: Bytes, now: int)
    requires ValidSettings(cfg) && Sorted(dir) && Packed(cfg, dir, week, n)
    requires SingleRecord(record) && IsFirstFit(cfg, dir, week, |record|, index)
    ensures index <= n
    ensures Packed(cfg, Append(dir, FileName(cfg.stamp, week, index), record, now), week, if index == n then n + 1 else n)
  {
    var dir' := Append(dir, FileName(cfg.stamp, week, index), record, now);
    var n' := if index == n then n + 1 else n;
    FitInPacked(cfg, dir, week, n, index, |record|);
    forall i: nat ensures Exists(cfg, dir', week, i) <==> i < n' {
      SameWeekAppend(cfg, dir, week, index, record, now, i);
    }
    forall i: nat | i < n'
      ensures FileSize(cfg, dir', week, i) <= cfg.maxFileSize || SingleRecord(DataOf(dir', FileName(cfg.stamp, week, i)))
    {
      PlacedFile(cfg, dir, week, n, index, record, now, i);
    }
    forall i: nat, k: nat | i < k < n'
      ensures FileSize(cfg, dir', week, i) + FileSize(cfg, dir', week, k) > cfg.maxFileSize
    {
      PlacedPair(cfg, dir, week, n, index, record, now, i, k);
    }
  }

  lemma OtherWeekPacked(cfg: Settings, dir: seq<File>, week: Week, n: nat, other: Week, index: nat, bytes: Bytes, now: int)
    requires ValidSettings(cfg) && Sorted(dir) && Packed(cfg, dir, week, n) && week != other
    ensures Packed(cfg, Append(dir, FileName(cfg.stamp, other, index), bytes, now), week, n)
  {
    var dir' := Append(dir, FileName(cfg.stamp, other, index), bytes, now);
    forall i: nat
      ensures Exists(cfg, dir', week, i) <==> Exists(cfg, dir, week, i)
      ensures DataOf(dir', FileName(cfg.stamp, week, i)) == DataOf(dir, FileName(cfg.stamp, week, i))
    {
      OtherWeekAppend(cfg, dir, week, other, index, bytes, now, i);
    }
    forall i: nat | i < n
      ensures FileSize(cfg, dir', week, i) <= cfg.maxFileSize || SingleRecord(DataOf(dir', FileName(cfg.stamp, week, i)))
    {
      assert FileSize(cfg, dir', week, i) == FileSize(cfg, dir, week, i);
    }
    forall i: nat, k: nat | i < k < n
      ensures FileSize(cfg, dir', week, i) + FileSize(cfg, dir', week, k) > cfg.maxFileSize
    {
      assert FileSize(cfg, dir', week, i) == FileSize(cfg, dir, week, i);
      assert FileSize(cfg, dir', week, k) == FileSize(cfg, dir, week, k);
    }
  }

  /** Over any run without rotation, at any clock readings and with any failed writes, restarts and closes
      between, a week that began without files is packed. */
  lemma {:induction false} PackedInEveryRun(cfg: Settings, files: seq<File>, ops: seq<Op>, week: Week) returns (n: nat)
    requires ValidSettings(cfg) && DirInv(cfg, files)
    requires forall i: nat :: !Exists(cfg, files, week, i)
    requires forall k :: 0 <= k < |ops| ==> !ops[k].RotateOp?
    ensures Packed(cfg, RunOps(cfg, files, ops).dir, week, n)
  {
    if ops == [] {
      n := 0;
    } else {
      var before, op := ops[..|ops| - 1], ops[|ops| - 1];
      n := PackedInEveryRun(cfg, files, before, week);
      var d := RunOps(cfg, files, before);
      IndexInEveryRun(cfg, files, before);
      if op.StoreOp? && StoreStep(cfg, d, op.cancelled, op.event, op.now, op.writable).1.Ok? {
        n := StoreKeepsPacked(cfg, d, op.event, op.now, week, n);
      }
    }
  }

  lemma StoreKeepsPacked(cfg: Settings, d: Disk, event: Event, now: int, week: Week, n: nat) returns (n': nat)
    requires ValidSettings(cfg) && Sorted(d.dir) && Packed(cfg, d.dir, week, n)
    requires StoreStep(cfg, d, false, event, now, true).1.Ok?
    ensures Packed(cfg, StoreStep(cfg, d, false, event, now, true).0.dir, week, n')
  {
    var record := Record(cfg.codec, event);
    var current := WeekOf(now);
    var index := FirstFit(cfg, d.dir, current, |record|, 0);
    var name := StoreShape(cfg, d, event, now);
    assert record[..|record| - 1] == cfg.codec.encode(event).value;
    if current == week {
      PlaceKeepsPacked(cfg, d.dir, week, n, index, record, now);
      n' := if index == n then n + 1 else n;
    } else {
      OtherWeekPacked(cfg, d.dir, week, n, current, index, record, now);
      n' := n;
    }
  }

  // ---------------------------------------------------------------- how full the files are

  function TotalSize(cfg: Settings, dir: seq<File>, week: Week, n: nat): nat {
    if n == 0 then 0 else TotalSize(cfg, dir, week, n - 1) + FileSize(cfg, dir, week, n - 1)
  }

  /** Adjacent files together exceed the limit, so twice the total less the two ends exceeds n - 1 limits. */
  lemma {:induction false} AdjacentPairs(cfg: Settings, dir: seq<File>, week: Week, n: nat, m: nat)
    requires cfg.maxFileSize > 0 && Packed(cfg, dir, week, n) && 1 <= m <= n
    ensures 2 * TotalSize(cfg, dir, week, m)
         >= FileSize(cfg, dir, week, 0) + FileSize(cfg, dir, week, m - 1) + (m - 1) * (cfg.maxFileSize + 1)
  {
    if m == 1 {
      assert TotalSize(cfg, dir, week, 0) == 0;
    } else {
      AdjacentPairs(cfg, dir, week, n, m - 1);
      assert (m - 1) * (cfg.maxFileSize + 1) == (m - 2) * (cfg.maxFileSize + 1) + (cfg.maxFileSize + 1);
      assert FileSize(cfg, dir, week, m - 2) + FileSize(cfg, dir, week, m - 1) > cfg.maxFileSize;
    }
  }

  lemma HalfFull(n: nat, limit: int, total: nat, ends: nat)
    requires n >= 2 && 2 * total >= ends + (n - 1) * (limit + 1) && ends > limit
    ensures n * limit < 2 * total
  {
    assert (n - 1) * (limit + 1) == (n - 1) * limit + (n - 1);
    assert n * limit == (n - 1) * limit + limit;
  }

  /** Two or more packed files are on average more than half full. */
  lemma MoreThanHalfFull(cfg: Settings, dir: seq<File>, week: Week, n: nat)
    requires cfg.maxFileSize > 0 && Packed(cfg, dir, week, n) && n >= 2
    ensures n * cfg.maxFileSize < 2 * TotalSize(cfg, dir, week, n)
  {
    AdjacentPairs(cfg, dir, week, n, n);
    var ends := FileSize(cfg, dir, week, 0) + FileSize(cfg, dir, week, n - 1);
    assert ends > cfg.maxFileSize;
    HalfFull(n, cfg.maxFileSize, TotalSize(cfg, dir, week, n), ends);
  }
}

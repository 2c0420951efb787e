/** The JSON Lines event store: an ID index over weekly numbered files. */
module JsonStorage {
  import opened Contracts
  import opened StorePort
  import opened Directory
  import Framing
  import opened Naming
  import opened Sorting
  import MemoryStore

  /** `stamp` is time.Format("20060102") on a week start; the sizes are those NewJSONFileStorage keeps. */
  datatype Settings = Settings(codec: Framing.Codec, stamp: Week -> string, maxFileSize: int, retentionDays: int)

  ghost predicate ValidSettings(cfg: Settings) {
    Framing.ValidCodec(cfg.codec) && ValidStamps(cfg.stamp) && cfg.maxFileSize > 0 && cfg.retentionDays > 0
  }

  const DEFAULT_MAX_FILE_SIZE := 10 * 1024 * 1024
  const DEFAULT_RETENTION_DAYS := 30

  /** The directory, the index and the closed flag. */
  datatype Disk = Disk(dir: seq<File>, known: set<Text>, closed: bool)

  // ---------------------------------------------------------------- what is on disk

  /** Every event on disk, in file order. */
  function DiskLog(c: Framing.Codec, dir: seq<File>): seq<Event> {
    if dir == [] then [] else DiskLog(c, dir[..|dir| - 1]) + Framing.Log(c, dir[|dir| - 1].data)
  }

  ghost predicate Readable(c: Framing.Codec, dir: seq<File>) {
    forall i :: 0 <= i < |dir| ==> Framing.ReadData(c, dir[i].data).Read?
  }

  /** One more readable file adds its events to the log. */
  lemma FileStep(c: Framing.Codec, dir: seq<File>, i: nat)
    requires i < |dir|
    ensures Framing.ReadData(c, dir[i].data).Read? ==>
      DiskLog(c, dir[..i + 1]) == DiskLog(c, dir[..i]) + Framing.ReadData(c, dir[i].data).events
    ensures Readable(c, dir[..i + 1]) <==> Readable(c, dir[..i]) && Framing.ReadData(c, dir[i].data).Read?
  {
    assert dir[..i + 1] == dir[..i] + [dir[i]];
    if Framing.ReadData(c, dir[i].data).Read? {
      Framing.ReadIsLineEvents(c, Framing.Lines(dir[i].data));
    }
    if Readable(c, dir[..i + 1]) {
      forall k | 0 <= k < i ensures Framing.ReadData(c, dir[..i][k].data).Read? {
        assert dir[..i + 1][k] == dir[..i][k];
      }
      assert dir[..i + 1][i] == dir[i];
    }
  }

  lemma UnreadableFile(c: Framing.Codec, dir: seq<File>, i: nat)
    requires i < |dir| && Framing.ReadData(c, dir[i].data).Unreadable?
    ensures !Readable(c, dir)
  {}

  /** The non-empty IDs among some events. */
  function IDs(events: seq<Event>): set<Text> {
    set k | 0 <= k < |events| && events[k].eventID != [] :: events[k].eventID
  }

  predicate Carries(events: seq<Event>, id: Text) {
    exists k :: 0 <= k < |events| && events[k].eventID == id
  }

  // ---------------------------------------------------------------- placement

  predicate HasRoom(cfg: Settings, dir: seq<File>, week: Week, size: int, index: nat) {
    |DataOf(dir, FileName(cfg.stamp, week, index))| + size <= cfg.maxFileSize
  }

  predicate Exists(cfg: Settings, dir: seq<File>, week: Week, index: nat) {
    Has(dir, FileName(cfg.stamp, week, index))
  }

  /** First fit: the lowest numbered file of the week that does not exist or has room. */
  ghost predicate IsFirstFit(cfg: Settings, dir: seq<File>, week: Week, size: int, index: nat) {
    && (!Exists(cfg, dir, week, index) || HasRoom(cfg, dir, week, size, index))
    && forall j: nat :: j < index ==> Exists(cfg, dir, week, j) && !HasRoom(cfg, dir, week, size, j)
  }

  lemma ExistingFiles(cfg: Settings, dir: seq<File>, week: Week, n: nat)
    requires ValidSettings(cfg) && forall j: nat :: j < n ==> Exists(cfg, dir, week, j)
    ensures n <= |dir|
  {
    forall j: nat | j < n ensures Has(dir, FileName(cfg.stamp, week, j)) {
      assert Exists(cfg, dir, week, j);
    }
    Pigeonhole(cfg.stamp, dir, week, n);
  }

  function FirstFit(cfg: Settings, dir: seq<File>, week: Week, size: int, index: nat): (i: nat)
    requires ValidSettings(cfg)
    requires forall j: nat :: j < index ==> Exists(cfg, dir, week, j) && !HasRoom(cfg, dir, week, size, j)
    ensures IsFirstFit(cfg, dir, week, size, i)
    decreases |dir| - index
  {
    if !Exists(cfg, dir, week, index) || HasRoom(cfg, dir, week, size, index) then index
    else
      ExistingFiles(cfg, dir, week, index + 1);
      FirstFit(cfg, dir, week, size, index + 1)
  }

  lemma FirstFitUnique(cfg: Settings, dir: seq<File>, week: Week, size: int, i: nat, j: nat)
    requires IsFirstFit(cfg, dir, week, size, i) && IsFirstFit(cfg, dir, week, size, j)
    ensures i == j
  {}

  // ---------------------------------------------------------------- operations as functions

  /** `writable` says whether the write succeeds; a failed write is taken to leave the disk alone. */
  function StoreStep(cfg: Settings, d: Disk, cancelled: bool, event: Event, now: int, writable: bool): (Disk, Outcome)
    requires ValidSettings(cfg)
  {
    if cancelled then (d, Err(Cancelled))
    else if event.eventID == [] then (d, Err(MissingID))
    else match cfg.codec.encode(event)
      case None => (d, Err(EncodeFailed))
      case Some(record) =>
        if d.closed then (d, Err(Closed))
        else if event.eventID in d.known then (d, Err(Duplicate))
        else if !writable then (d, Err(WriteFailed))
        else
          var week := WeekOf(now);
          var index := FirstFit(cfg, d.dir, week, |record| + 1, 0);
          (d.(dir := Append(d.dir, FileName(cfg.stamp, week, index), record + [Framing.NEWLINE], now),
              known := d.known + {event.eventID}), Ok)
  }

  function Cutoff(cfg: Settings, now: int): int {
    now - cfg.retentionDays * DAY
  }

  function RotateStep(cfg: Settings, d: Disk, cancelled: bool, now: int): (Disk, Outcome) {
    if cancelled then (d, Err(Cancelled))
    else if d.closed then (d, Err(Closed))
    else (d.(dir := Survivors(d.dir, Cutoff(cfg, now))), Ok)
  }

  /** Starting on an existing directory fails if some file cannot be read. */
  ghost function OpenStep(cfg: Settings, dir: seq<File>): (Disk, Outcome) {
    if Readable(cfg.codec, dir) then (Disk(dir, IDs(DiskLog(cfg.codec, dir)), false), Ok)
    else (Disk(dir, {}, true), Err(ReadFailed))
  }

  function FirstWith(events: seq<Event>, id: Text): Framing.Option<Event> {
    if events == [] then Framing.None
    else if events[0].eventID == id then Framing.Some(events[0])
    else FirstWith(events[1..], id)
  }

  /** A full scan for an ID, file by file. */
  function Scan(c: Framing.Codec, dir: seq<File>, id: Text): Answer<Event> {
    if dir == [] then Failed(NotFound)
    else match Framing.ReadData(c, dir[0].data)
      case Unreadable => Failed(ReadFailed)
      case Read(events) =>
        (match FirstWith(events, id)
         case Some(event) => Got(event)
         case None => Scan(c, dir[1..], id))
  }

  // ---------------------------------------------------------------- the class

  class JSONFileStorage {
    const cfg: Settings
    var dir: seq<File>
    var knownIDs: set<Text>
    var closed: bool

    ghost predicate Valid() {
      ValidSettings(cfg)
    }

    ghost function View(): Disk
      reads this
    {
      Disk(dir, knownIDs, closed)
    }

    /** The fields NewJSONFileStorage sets before it loads the index; `files` is what the directory holds. */
    constructor (codec: Framing.Codec, stamp: Week -> string, maxFileSize: int, retentionDays: int, files: seq<File>)
      requires Framing.ValidCodec(codec) && ValidStamps(stamp)
      ensures Valid() && View() == Disk(files, {}, false)
      ensures cfg.codec == codec && cfg.stamp == stamp
      ensures cfg.maxFileSize == (if maxFileSize <= 0 then 10_485_760 else maxFileSize)
      ensures cfg.retentionDays == (if retentionDays <= 0 then 30 else retentionDays)
    {
      cfg := Settings(codec, stamp, if maxFileSize <= 0 then DEFAULT_MAX_FILE_SIZE else maxFileSize,
                      if retentionDays <= 0 then DEFAULT_RETENTION_DAYS else retentionDays);
      dir := files;
      knownIDs := {};
      closed := false;
    }

    /** loadEventIDs: the index becomes the set of non-empty IDs on disk, unless a file is unreadable. */
    method LoadEventIDs() returns (outcome: Outcome)
      requires Valid() && knownIDs == {} && !closed
      modifies this`knownIDs
      ensures outcome == OpenStep(cfg, dir).1
      ensures outcome.Ok? ==> View() == OpenStep(cfg, old(dir)).0
    {
      for i := 0 to |dir|
        invariant dir == old(dir) && Readable(cfg.codec, dir[..i])
        invariant knownIDs == IDs(DiskLog(cfg.codec, dir[..i]))
      {
        FileStep(cfg.codec, dir, i);
        var read := Framing.ReadEvents(cfg.codec, dir[i].data);
        if read.Unreadable? {
          UnreadableFile(cfg.codec, dir, i);
          return Err(ReadFailed);
        }
        IDsConcat(DiskLog(cfg.codec, dir[..i]), read.events);
        knownIDs := IndexEvents(knownIDs, read.events);
      }
      assert dir[..|dir|] == dir;
      outcome := Ok;
    }

    /** fileForWrite: the search over file numbers. */
    method FileForWrite(recordSize: int, now: int) returns (filename: string)
      requires Valid()
      ensures filename == FileName(cfg.stamp, WeekOf(now), FirstFit(cfg, dir, WeekOf(now), recordSize, 0))
    {
      var week := WeekOf(now);
      var index := 0;
      while true
        invariant forall j: nat :: j < index ==> Exists(cfg, dir, week, j) && !HasRoom(cfg, dir, week, recordSize, j)
        decreases |dir| - index
      {
        filename := FileName(cfg.stamp, week, index);
        if !Has(dir, filename) {
          break;
        }
        if |DataOf(dir, filename)| + recordSize <= cfg.maxFileSize {
          break;
        }
        ExistingFiles(cfg, dir, week, index + 1);
        index := index + 1;
      }
      FirstFitUnique(cfg, dir, week, recordSize, index, FirstFit(cfg, dir, week, recordSize, 0));
    }

    method Store(cancelled: bool, event: Event, now: int, writable: bool) returns (outcome: Outcome)
      requires Valid()
      modifies this`dir, this`knownIDs
      ensures (View(), outcome) == StoreStep(cfg, old(View()), cancelled, event, now, writable)
    {
      if cancelled {
        return Err(Cancelled);
      }
      if event.eventID == [] {
        return Err(MissingID);
      }
      var encoded := cfg.codec.encode(event);
      if encoded.None? {
        return Err(EncodeFailed);
      }
      var data := encoded.value + [Framing.NEWLINE];
      if closed {
        return Err(Closed);
      }
      if event.eventID in knownIDs {
        return Err(Duplicate);
      }
      var filename := FileForWrite(|data|, now);
      if !writable {
        return Err(WriteFailed);
      }
      dir := Append(dir, filename, data, now);
      knownIDs := knownIDs + {event.eventID};
      outcome := Ok;
    }

    /** Get consults the index before it scans. */
    method Get(cancelled: bool, eventID: Text) returns (answer: Answer<Event>)
      requires Valid()
      ensures answer == if cancelled then Failed(Cancelled) else if closed then Failed(Closed)
                        else if eventID !in knownIDs then Failed(NotFound) else Scan(cfg.codec, dir, eventID)
    {
      if cancelled {
        return Failed(Cancelled);
      }
      if closed {
        return Failed(Closed);
      }
      if eventID !in knownIDs {
        return Failed(NotFound);
      }
      for i := 0 to |dir|
        invariant Scan(cfg.codec, dir, eventID) == Scan(cfg.codec, dir[i..], eventID)
      {
        assert dir[i..][1..] == dir[i + 1..];
        var read := Framing.ReadEvents(cfg.codec, dir[i].data);
        if read.Unreadable? {
          return Failed(ReadFailed);
        }
        for k := 0 to |read.events|
          invariant FirstWith(read.events, eventID) == FirstWith(read.events[k..], eventID)
        {
          assert read.events[k..][1..] == read.events[k + 1..];
          if read.events[k].eventID == eventID {
            return Got(read.events[k]);
          }
        }
      }
      answer := Failed(NotFound);
    }

    /** A query sorts, stably by timestamp, the selected events of all files in file order. */
    method Query(cancelled: bool, filter: EventFilter) returns (answer: Answer<seq<Event>>)
      requires Valid()
      ensures answer.Got? <==> !cancelled && !closed && Readable(cfg.codec, dir)
      ensures answer.Got? ==> answer.value == StableSort(Select(filter, DiskLog(cfg.codec, dir)))
      ensures answer.Failed? ==> answer.error == if cancelled then Cancelled else if closed then Closed else ReadFailed
    {
      if cancelled {
        return Failed(Cancelled);
      }
      if closed {
        return Failed(Closed);
      }
      var result: seq<Event> := [];
      for i := 0 to |dir|
        invariant Readable(cfg.codec, dir[..i])
        invariant result == Select(filter, DiskLog(cfg.codec, dir[..i]))
      {
        FileStep(cfg.codec, dir, i);
        var read := Framing.ReadEvents(cfg.codec, dir[i].data);
        if read.Unreadable? {
          UnreadableFile(cfg.codec, dir, i);
          return Failed(ReadFailed);
        }
        SelectConcat(filter, DiskLog(cfg.codec, dir[..i]), read.events);
        result := AppendMatching(result, read.events, filter);
      }
      assert dir[..|dir|] == dir;
      answer := Got(StableSort(result));
    }

    /** Rotate removes exactly the files last modified before the cutoff. */
    method Rotate(cancelled: bool, now: int) returns (outcome: Outcome)
      requires Valid()
      modifies this`dir
      ensures (View(), outcome) == RotateStep(cfg, old(View()), cancelled, now)
    {
      if cancelled {
        return Err(Cancelled);
      }
      if closed {
        return Err(Closed);
      }
      var cutoff := now - cfg.retentionDays * DAY;
      var files := dir;
      var kept: seq<File> := [];
      for i := 0 to |files|
        invariant dir == old(dir) && kept + Survivors(files[i..], cutoff) == Survivors(files, cutoff)
      {
        SurvivorsStep(files, i, cutoff, kept);
        if files[i].modified < cutoff {
          continue;
        }
        kept := kept + [files[i]];
      }
      assert kept + [] == kept;
      dir := kept;
      outcome := Ok;
    }

    method Close()
      modifies this`closed
      ensures View() == old(View()).(closed := true)
    {
      if closed {
        return;
      }
      closed := true;
    }
  }

  lemma SurvivorsStep(files: seq<File>, i: nat, cutoff: int, kept: seq<File>)
    requires i < |files|
    ensures kept + Survivors(files[i..], cutoff)
         == (if files[i].modified < cutoff then kept else kept + [files[i]]) + Survivors(files[i + 1..], cutoff)
  {
    assert files[i..][1..] == files[i + 1..];
    var rest := Survivors(files[i + 1..], cutoff);
    assert [] + rest == rest && kept + ([files[i]] + rest) == kept + [files[i]] + rest;
  }

  /** The inner loop of loadEventIDs. */
  method IndexEvents(known: set<Text>, events: seq<Event>) returns (r: set<Text>)
    ensures r == known + IDs(events)
  {
    r := known;
    for k := 0 to |events|
      invariant r == known + IDs(events[..k])
    {
      assert events[..k + 1] == events[..k] + [events[k]];
      IDsConcat(events[..k], [events[k]]);
      if events[k].eventID != [] {
        assert IDs([events[k]]) == {events[k].eventID};
        r := r + {events[k].eventID};
      }
    }
    assert events[..|events|] == events;
  }

  /** The inner loop of Query. */
  method AppendMatching(result: seq<Event>, events: seq<Event>, filter: EventFilter) returns (r: seq<Event>)
    ensures r == result + Select(filter, events)
  {
    r := result;
    for k := 0 to |events|
      invariant r == result + Select(filter, events[..k])
    {
      assert events[..k + 1] == events[..k] + [events[k]];
      SelectStep(filter, events[..k], events[k]);
      var ok := MemoryStore.MatchesFilter(events[k], filter);
      if ok {
        r := r + [events[k]];
      }
    }
    assert events[..|events|] == events;
  }

  lemma IDsConcat(a: seq<Event>, b: seq<Event>)
    ensures IDs(a + b) == IDs(a) + IDs(b)
  {
    forall id | id in IDs(a) + IDs(b) ensures id in IDs(a + b) {
      if id in IDs(a) {
        var k :| 0 <= k < |a| && a[k].eventID != [] && a[k].eventID == id;
        assert (a + b)[k] == a[k];
      } else {
        var k :| 0 <= k < |b| && b[k].eventID != [] && b[k].eventID == id;
        assert (a + b)[|a| + k] == b[k];
      }
    }
  }

  lemma {:induction false} SelectConcat(filter: EventFilter, a: seq<Event>, b: seq<Event>)
    ensures Select(filter, a + b) == Select(filter, a) + Select(filter, b)
  {
    if b == [] {
      assert a + b == a;
    } else {
      var n := |b| - 1;
      assert a + b == (a + b[..n]) + [b[n]];
      SelectConcat(filter, a, b[..n]);
      SelectStep(filter, a + b[..n], b[n]);
    }
  }
}

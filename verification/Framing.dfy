/** JSON Lines framing: how records become file contents and how a scanner reads them back. */
module Framing {
  import opened Contracts
  import opened Directory

  const NEWLINE: Byte := 10
  const RETURN: Byte := 13

  /** The scanner's buffer; a line and the byte after it must fit in it. */
  const MAX_TOKEN := 1024 * 1024

  datatype Option<T> = None | Some(value: T)

  /** json.Marshal and json.Unmarshal on events; either may fail. */
  datatype Codec = Codec(encode: Event -> Option<Bytes>, decode: Bytes -> Option<Event>)

  /** What storage and filters look at survives an encoding. */
  predicate SameKey(a: Event, b: Event) {
    && a.eventID == b.eventID
    && a.timestamp.instant == b.timestamp.instant
    && a.level == b.level && a.service == b.service && a.eventType == b.eventType
  }

  predicate GoodRecord(record: Bytes) {
    record != [] && NEWLINE !in record && record[|record| - 1] != RETURN
  }

  /** An encoding is one line, and decoding it gives back an event with the same key fields. */
  ghost predicate ValidCodec(c: Codec) {
    forall e :: c.encode(e).Some? ==>
      && GoodRecord(c.encode(e).value)
      && c.decode(c.encode(e).value).Some?
      && SameKey(c.decode(c.encode(e).value).value, e)
  }

  /** The event a later read returns for a stored event. */
  function AsRead(c: Codec, e: Event): Event
    requires c.encode(e).Some? && c.decode(c.encode(e).value).Some?
  {
    c.decode(c.encode(e).value).value
  }

  // ---------------------------------------------------------------- lines

  function FirstNewline(data: Bytes): (k: nat)
    ensures k <= |data| && (k < |data| ==> data[k] == NEWLINE)
    ensures forall i :: 0 <= i < k ==> data[i] != NEWLINE
  {
    if data == [] || data[0] == NEWLINE then 0 else 1 + FirstNewline(data[1..])
  }

  /** The tokens of bufio.ScanLines before the carriage return is dropped. */
  function Lines(data: Bytes): seq<Bytes> {
    if data == [] then []
    else
      var k := FirstNewline(data);
      [data[..k]] + (if k < |data| then Lines(data[k + 1..]) else [])
  }

  function DropReturn(line: Bytes): Bytes {
    if line != [] && line[|line| - 1] == RETURN then line[..|line| - 1] else line
  }

  /** Every record in the file is terminated. */
  predicate Complete(data: Bytes) {
    data == [] || data[|data| - 1] == NEWLINE
  }

  lemma FirstNewlineIs(data: Bytes, k: nat)
    requires k < |data| && data[k] == NEWLINE && forall i :: 0 <= i < k ==> data[i] != NEWLINE
    ensures FirstNewline(data) == k
  {
    var n := FirstNewline(data);
    assert n < |data| ==> data[n] == NEWLINE;
  }

  lemma LinesOfOne(record: Bytes)
    requires NEWLINE !in record
    ensures Lines(record + [NEWLINE]) == [record]
  {
    var all := record + [NEWLINE];
    assert forall i :: 0 <= i < |record| ==> all[i] == record[i] && record[i] in record;
    FirstNewlineIs(all, |record|);
    assert all[..|record|] == record && all[|record| + 1..] == [];
  }

  /** Lines put back together, each with its newline. */
  function Joined(lines: seq<Bytes>): Bytes {
    if lines == [] then [] else lines[0] + [NEWLINE] + Joined(lines[1..])
  }

  lemma JoinedCons(line: Bytes, lines: seq<Bytes>)
    ensures Joined([line] + lines) == line + [NEWLINE] + Joined(lines)
  {
    assert ([line] + lines)[1..] == lines;
  }

  /** The tokens are exactly the stretches between newlines: none holds a newline, and together they make
      up the file, but for the newline a torn last line lacks. */
  lemma {:induction false} LinesRejoin(data: Bytes)
    ensures forall i :: 0 <= i < |Lines(data)| ==> NEWLINE !in Lines(data)[i]
    ensures Joined(Lines(data)) == if Complete(data) then data else data + [NEWLINE]
    decreases |data|
  {
    if data != [] {
      var k := FirstNewline(data);
      assert NEWLINE !in data[..k];
      if k < |data| {
        var rest := data[k + 1..];
        LinesRejoin(rest);
        JoinedCons(data[..k], Lines(rest));
        SplitAt(data, k);
      } else {
        JoinedCons(data, []);
        assert data[..k] == data && Lines(data) == [data] + [];
      }
    }
  }

  lemma SplitAt(data: Bytes, k: nat)
    requires k < |data| && data[k] == NEWLINE
    ensures var rest := data[k + 1..];
      && data[..k] + [NEWLINE] + rest == data
      && data[..k] + [NEWLINE] + (rest + [NEWLINE]) == data + [NEWLINE]
      && (Complete(data) <==> Complete(rest))
  {
    var rest := data[k + 1..];
    assert rest != [] ==> rest[|rest| - 1] == data[|data| - 1];
  }

  /** Reading a complete file after a record is appended sees one more line. */
  lemma {:induction false} LinesAppend(data: Bytes, record: Bytes)
    requires Complete(data) && NEWLINE !in record
    ensures Lines(data + record + [NEWLINE]) == Lines(data) + [record]
    ensures Complete(data + record + [NEWLINE])
    decreases |data|
  {
    var all := data + record + [NEWLINE];
    if data == [] {
      LinesOfOne(record);
      assert all == record + [NEWLINE];
    } else {
      var n := FirstNewline(data);
      assert data[|data| - 1] == NEWLINE;
      assert n < |data|;
      assert forall i :: 0 <= i <= n ==> all[i] == data[i];
      FirstNewlineIs(all, n);
      assert all[..n] == data[..n];
      assert all[n + 1..] == data[n + 1..] + record + [NEWLINE];
      LinesAppend(data[n + 1..], record);
    }
  }

  // ---------------------------------------------------------------- reading a file

  datatype ReadResult = Read(events: seq<Event>) | Unreadable

  /** readEvents: an over-long or undecodable line fails the whole file; empty lines are skipped. */
  function ReadLines(c: Codec, lines: seq<Bytes>): ReadResult {
    if lines == [] then Read([])
    else
      var n := |lines| - 1;
      match ReadLines(c, lines[..n])
      case Unreadable => Unreadable
      case Read(events) =>
        if |lines[n]| >= MAX_TOKEN then Unreadable
        else if DropReturn(lines[n]) == [] then Read(events)
        else match c.decode(DropReturn(lines[n]))
          case None => Unreadable
          case Some(event) => Read(events + [event])
  }

  function ReadData(c: Codec, data: Bytes): ReadResult {
    ReadLines(c, Lines(data))
  }

  lemma {:induction false} UnreadablePrefix(c: Codec, lines: seq<Bytes>, i: nat)
    requires i <= |lines| && ReadLines(c, lines[..i]).Unreadable?
    ensures ReadLines(c, lines).Unreadable?
  {
    if i == |lines| {
      assert lines[..i] == lines;
    } else {
      assert lines[..|lines| - 1][..i] == lines[..i];
      UnreadablePrefix(c, lines[..|lines| - 1], i);
    }
  }

  /** The scanning loop of readEvents. */
  method ReadEvents(c: Codec, data: Bytes) returns (r: ReadResult)
    ensures r == ReadData(c, data)
  {
    var lines := Lines(data);
    var events: seq<Event> := [];
    for i := 0 to |lines|
      invariant ReadLines(c, lines[..i]) == Read(events)
    {
      assert lines[..i + 1][..i] == lines[..i];
      if |lines[i]| >= MAX_TOKEN {
        UnreadablePrefix(c, lines, i + 1);
        return Unreadable;
      }
      var line := DropReturn(lines[i]);
      if line == [] {
        continue;
      }
      var event := c.decode(line);
      if event.None? {
        UnreadablePrefix(c, lines, i + 1);
        return Unreadable;
      }
      events := events + [event.value];
    }
    assert lines[..|lines|] == lines;
    r := Read(events);
  }

  /** One more non-empty line either adds an event or makes the reading fail. */
  lemma ReadSnoc(c: Codec, lines: seq<Bytes>, line: Bytes, e: Event)
    requires DropReturn(line) != [] && c.decode(DropReturn(line)) == Some(e)
    ensures ReadLines(c, lines + [line])
         == match ReadLines(c, lines)
            case Unreadable => Unreadable
            case Read(events) => if |line| >= MAX_TOKEN then Unreadable else Read(events + [e])
  {
    assert (lines + [line])[..|lines|] == lines;
  }

  /** Appending an encoded event to a readable file within the scanner's limit adds exactly that event;
      beyond the limit the whole file becomes unreadable. */
  lemma FramingRoundTrip(c: Codec, data: Bytes, e: Event)
    requires ValidCodec(c) && Complete(data) && c.encode(e).Some?
    ensures var record := c.encode(e).value;
      var after := ReadData(c, data + record + [NEWLINE]);
      && (|record| < MAX_TOKEN && ReadData(c, data).Read? ==>
            after == Read(ReadData(c, data).events + [AsRead(c, e)]))
      && (after.Read? <==> ReadData(c, data).Read? && |record| < MAX_TOKEN)
  {
    var record := c.encode(e).value;
    LinesAppend(data, record);
    ReadSnoc(c, Lines(data), record, AsRead(c, e));
  }

  // ---------------------------------------------------------------- what a file holds

  /** The events of all decodable lines, whatever their length. */
  function LineEvents(c: Codec, lines: seq<Bytes>): seq<Event> {
    if lines == [] then []
    else
      var n := |lines| - 1;
      LineEvents(c, lines[..n])
      + (if DropReturn(lines[n]) == [] then []
         else match c.decode(DropReturn(lines[n])) case None => [] case Some(event) => [event])
  }

  lemma {:induction false} ReadIsLineEvents(c: Codec, lines: seq<Bytes>)
    requires ReadLines(c, lines).Read?
    ensures ReadLines(c, lines).events == LineEvents(c, lines)
  {
    if lines != [] {
      ReadIsLineEvents(c, lines[..|lines| - 1]);
    }
  }

  function Log(c: Codec, data: Bytes): seq<Event> {
    LineEvents(c, Lines(data))
  }

  lemma LogAppend(c: Codec, data: Bytes, e: Event)
    requires ValidCodec(c) && Complete(data) && c.encode(e).Some?
    ensures Log(c, data + c.encode(e).value + [NEWLINE]) == Log(c, data) + [AsRead(c, e)]
  {
    var record := c.encode(e).value;
    var lines := Lines(data);
    LinesAppend(data, record);
    assert (lines + [record])[..|lines|] == lines;
  }

  predicate Encodable(c: Codec, es: seq<Event>) {
    forall i :: 0 <= i < |es| ==> c.encode(es[i]).Some?
  }

  /** Every record is within the scanner's limit. */
  predicate WithinLimit(c: Codec, es: seq<Event>)
    requires Encodable(c, es)
  {
    forall i :: 0 <= i < |es| ==> |c.encode(es[i]).value| < MAX_TOKEN
  }

  ghost function AllAsRead(c: Codec, es: seq<Event>): seq<Event>
    requires ValidCodec(c) && Encodable(c, es)
  {
    seq(|es|, i requires 0 <= i < |es| => AsRead(c, es[i]))
  }

  /** A sequence of appended events, as file contents. */
  function Written(c: Codec, es: seq<Event>): Bytes
    requires Encodable(c, es)
  {
    if es == [] then []
    else Written(c, es[..|es| - 1]) + c.encode(es[|es| - 1]).value + [NEWLINE]
  }

  lemma WithinLimitStep(c: Codec, es: seq<Event>)
    requires es != [] && Encodable(c, es)
    ensures WithinLimit(c, es) <==>
      WithinLimit(c, es[..|es| - 1]) && |c.encode(es[|es| - 1]).value| < MAX_TOKEN
  {
    var n := |es| - 1;
    if WithinLimit(c, es[..n]) && |c.encode(es[n]).value| < MAX_TOKEN {
      forall i | 0 <= i < |es| ensures |c.encode(es[i]).value| < MAX_TOKEN {
        if i < n {
          assert es[..n][i] == es[i];
        }
      }
    }
  }

  lemma AllAsReadStep(c: Codec, es: seq<Event>)
    requires es != [] && ValidCodec(c) && Encodable(c, es)
    ensures AllAsRead(c, es) == AllAsRead(c, es[..|es| - 1]) + [AsRead(c, es[|es| - 1])]
  {}

  /** Reading back any sequence of appended events gives those events in write order if and only if every
      record is within the scanner's limit. */
  lemma {:induction false} WrittenReadsBack(c: Codec, es: seq<Event>)
    requires ValidCodec(c) && Encodable(c, es)
    ensures Complete(Written(c, es))
    ensures ReadData(c, Written(c, es)) == if WithinLimit(c, es) then Read(AllAsRead(c, es)) else Unreadable
  {
    if es != [] {
      var n := |es| - 1;
      WrittenReadsBack(c, es[..n]);
      WithinLimitStep(c, es);
      AllAsReadStep(c, es);
      FramingRoundTrip(c, Written(c, es[..n]), es[n]);
      LinesAppend(Written(c, es[..n]), c.encode(es[n]).value);
    }
  }
}

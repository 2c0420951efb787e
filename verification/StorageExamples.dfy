/** A concrete store: what the other modules assume of encodings and file names can be met. */
module StorageExamples {
  import opened Contracts
  import opened StorePort
  import opened Directory
  import opened Naming
  import opened JsonStorage
  import opened StorageTheorems
  import opened StorageRefinement
  import Framing

  /** An event that carries nothing but an ID of the given length. */
  function Plain(n: nat): Event {
    Event(seq(n, _ => Rune('a')), Time(0, 0), [], [], [], [], [], [], [], [], [], [], [], NilFields, NilFields)
  }

  const LETTER: Byte := 97

  /** A codec for such events: the record is one letter longer than the ID. */
  function PlainCodec(): Framing.Codec {
    Framing.Codec(
      (e: Event) => if e == Plain(|e.eventID|) then Framing.Some(seq(|e.eventID| + 1, _ => LETTER)) else Framing.None,
      (b: Bytes) => if b == [] then Framing.None else Framing.Some(Plain(|b| - 1)))
  }

  /** The start of a week in signed decimal. */
  function DecimalStamp(w: Week): string {
    if w < 0 then "-" + Decimal(-w) else Decimal(w)
  }

  lemma {:induction false} DecimalDigits(n: nat)
    ensures forall i :: 0 <= i < |Decimal(n)| ==> '0' <= Decimal(n)[i] <= '9'
    ensures Decimal(n) != []
  {
    if n >= 10 {
      DecimalDigits(n / 10);
    }
  }

  lemma DecimalStamps()
    ensures ValidStamps(DecimalStamp)
  {
    forall w: Week ensures '_' !in DecimalStamp(w) {
      DecimalDigits(if w < 0 then -w else w);
    }
    forall w: Week, v: Week | DecimalStamp(w) == DecimalStamp(v) ensures w == v {
      SameStamp(w, v);
    }
  }

  lemma SignShows(w: Week)
    ensures DecimalStamp(w) != [] && (w < 0 <==> DecimalStamp(w)[0] == '-')
  {
    DecimalDigits(if w < 0 then -w else w);
  }

  lemma SameStamp(w: Week, v: Week)
    requires DecimalStamp(w) == DecimalStamp(v)
    ensures w == v
  {
    var a, b := if w < 0 then -w else w, if v < 0 then -v else v;
    DecimalDigits(a);
    DecimalDigits(b);
    DecimalValue(a);
    DecimalValue(b);
    SignShows(w);
    SignShows(v);
    if w < 0 {
      AfterPrefix("-", Decimal(a), Decimal(b));
    }
  }

  function PlainSettings(maxFileSize: int): Settings {
    Settings(PlainCodec(), DecimalStamp, maxFileSize, 30)
  }

  /** The assumptions about settings hold of this store, which takes records of every length. */
  lemma SettingsExist(maxFileSize: int)
    requires maxFileSize > 0
    ensures ValidSettings(PlainSettings(maxFileSize))
    ensures forall n: nat :: PlainCodec().encode(Plain(n)).Some? && |PlainCodec().encode(Plain(n)).value| == n + 1
  {
    DecimalStamps();
  }

  /** `n` stores at one instant. */
  function Stores(n: nat, now: int): seq<Op> {
    seq(n, i requires 0 <= i < n => StoreOp(false, Plain(i + 1), now, true))
  }

  function Plains(n: nat): seq<Event> {
    seq(n, i requires 0 <= i < n => Plain(i + 1))
  }

  /** The store encodes every plain event. */
  ghost predicate TakesPlain(cfg: Settings) {
    ValidSettings(cfg) && forall n: nat :: cfg.codec.encode(Plain(n)).Some?
  }

  /** A store accepts a record of the scanner's limit, and can then neither be queried nor started again. */
  lemma OversizedRecord(maxFileSize: int, now: int)
    requires maxFileSize > 0
    ensures var cfg, event := PlainSettings(maxFileSize), Plain(1_048_575);
      && ValidSettings(cfg)
      && StoreStep(cfg, RunOps(cfg, [], []), false, event, now, true).1 == Ok
      && OpenStep(cfg, StoreStep(cfg, RunOps(cfg, [], []), false, event, now, true).0.dir).1 == Err(ReadFailed)
  {
    var cfg, event := PlainSettings(maxFileSize), Plain(1_048_575);
    SettingsExist(maxFileSize);
    KnownLengths(cfg, 0, now);
    assert Stores(0, now) == [] && Plains(0) == [];
    NextSucceeds(cfg, RunOps(cfg, [], []), 1_048_575, now);
    EmptyInv(cfg);
    StoreThenGet(cfg, [], [], event, now);
  }

  lemma EmptyInv(cfg: Settings)
    requires ValidSettings(cfg)
    ensures DirInv(cfg, []) && Readable(cfg.codec, RunOps(cfg, [], []).dir)
  {}

  lemma NextSucceeds(cfg: Settings, d: Disk, n: nat, now: int)
    requires TakesPlain(cfg) && n > 0 && !d.closed
    requires forall id :: id in d.known ==> |id| < n
    ensures Succeeds(cfg, d, StoreOp(false, Plain(n), now, true))
  {
    assert |Plain(n).eventID| == n;
    assert cfg.codec.encode(Plain(n)).Some?;
  }

  lemma SuccessStep(cfg: Settings, ops: seq<Op>, op: Op)
    requires ValidSettings(cfg) && op.StoreOp? && Succeeds(cfg, RunOps(cfg, [], ops), op)
    ensures Successes(cfg, [], ops + [op]) == Successes(cfg, [], ops) + [op.event]
  {
    assert (ops + [op])[..|ops|] == ops;
  }

  lemma LosslessStore(cfg: Settings, ops: seq<Op>, op: Op)
    requires ValidSettings(cfg) && op.StoreOp? && LosslessRun(cfg, [], ops)
    ensures LosslessRun(cfg, [], ops + [op])
  {
    assert (ops + [op])[..|ops|] == ops;
  }

  lemma StoresStep(n: nat, now: int)
    requires n > 0
    ensures Stores(n, now) == Stores(n - 1, now) + [StoreOp(false, Plain(n), now, true)]
  {}

  lemma PlainsStep(n: nat)
    requires n > 0
    ensures Plains(n) == Plains(n - 1) + [Plain(n)]
  {}

  /** Runs of any length succeed at every step. */
  lemma {:induction false} StoresSucceed(cfg: Settings, n: nat, now: int)
    requires TakesPlain(cfg)
    ensures Successes(cfg, [], Stores(n, now)) == Plains(n)
    ensures LosslessRun(cfg, [], Stores(n, now))
  {
    if n == 0 {
      assert Stores(n, now) == [] && Plains(n) == [];
    } else {
      var before, op := Stores(n - 1, now), StoreOp(false, Plain(n), now, true);
      StoresSucceed(cfg, n - 1, now);
      KnownLengths(cfg, n - 1, now);
      NextSucceeds(cfg, RunOps(cfg, [], before), n, now);
      SuccessStep(cfg, before, op);
      LosslessStore(cfg, before, op);
      StoresStep(n, now);
      PlainsStep(n);
    }
  }

  /** There are settings that meet the assumptions and runs in which any number of stores succeed, so the
      theorems about all runs are about these. */
  lemma RunsExist(maxFileSize: int, n: nat, now: int)
    requires maxFileSize > 0
    ensures ValidSettings(PlainSettings(maxFileSize))
    ensures Successes(PlainSettings(maxFileSize), [], Stores(n, now)) == Plains(n)
    ensures LosslessRun(PlainSettings(maxFileSize), [], Stores(n, now))
  {
    SettingsExist(maxFileSize);
    StoresSucceed(PlainSettings(maxFileSize), n, now);
  }

  lemma KnownLengths(cfg: Settings, n: nat, now: int)
    requires ValidSettings(cfg) && Successes(cfg, [], Stores(n, now)) == Plains(n)
    ensures var d := RunOps(cfg, [], Stores(n, now));
      !d.closed && forall id :: id in d.known ==> |id| <= n
  {
    OneAcceptancePerID(cfg, [], Stores(n, now));
    StaysOpen(cfg, n, now);
  }

  lemma {:induction false} StaysOpen(cfg: Settings, n: nat, now: int)
    requires ValidSettings(cfg)
    ensures !RunOps(cfg, [], Stores(n, now)).closed
  {
    if n > 0 {
      assert Stores(n, now)[..n - 1] == Stores(n - 1, now);
      StaysOpen(cfg, n - 1, now);
    }
  }
}

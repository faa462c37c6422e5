/**
 * Aggregation passes behind a watermark (`RunVolumeStatAggregation` and
 * `RunBurnFeeAggregation`, stat/fetcher.go) over the stored trade logs
 * (stat/storage/log_bolt.go), and the stored statistics that they add to
 * (stat/storage/stat_bolt.go).
 */
module Aggregation {
  import opened Wrappers
  import opened OrderedKeys
  import opened VersionStore
  import opened BucketStats

  const MAX_GET_LOG_PERIOD := 86_400_000_000_000

  // The stored statistics

  function LowerChar(c: char): char {
    if 'A' <= c <= 'Z' then (c as int + 32) as char else c
  }

  /** `strings.ToLower` on ASCII keys. */
  function Lower(s: string): string { seq(|s|, i requires 0 <= i < |s| => LowerChar(s[i])) }

  function LowerCell(c: Cell): Cell { c.(key := Lower(c.key)) }

  function LowerItem(i: Item): Item { i.(key := Lower(i.key)) }

  function LowerItems(items: seq<Item>): seq<Item> {
    if items == [] then [] else LowerItems(items[..|items| - 1]) + [LowerItem(items[|items| - 1])]
  }

  /** The cells of a batch that are stored in a cell. */
  function StoredIn(c: Cell): Cell -> bool { (x: Cell) => LowerCell(x) == c }

  ghost function LowerCells(cells: set<Cell>): set<Cell> { set x | x in cells :: LowerCell(x) }

  /** What a cell holds after a batch. */
  ghost function Gained(before: Stats, batch: Stats, c: Cell): Amounts {
    Plus(At(before, c), SumWhere(batch, StoredIn(c)))
  }

  /** The stored statistics after a batch: each cell gains what the batch holds for it. */
  ghost predicate Gains(before: Stats, batch: Stats, after: Stats) {
    && GainsKeys(before.Keys, batch.Keys, after.Keys)
    && GainsValues(before, batch, after)
  }

  ghost predicate GainsKeys(before: set<Cell>, batch: set<Cell>, after: set<Cell>) {
    after == before + LowerCells(batch)
  }

  ghost predicate GainsValues(before: Stats, batch: Stats, after: Stats) {
    forall c: Cell :: At(after, c) == Gained(before, batch, c)
  }

  lemma GainNothing(before: Stats)
    ensures Gains(before, map[], before)
  {
    forall c: Cell ensures At(before, c) == Gained(before, map[], c) { SumOfNothing(StoredIn(c)); }
  }

  lemma AddedAt(m: Stats, x: Cell, a: Amounts, c: Cell)
    ensures At(AddTo(m, x, a), c) == Plus(At(m, c), When(x == c, a))
  {}

  lemma FreshAdd(m: Stats, x: Cell, a: Amounts)
    requires x !in m
    ensures AddTo(m, x, a) == m[x := a]
  {
    assert Plus(Zero, a) == a;
  }

  lemma GainedAdd(before: Stats, done: Stats, x: Cell, a: Amounts, c: Cell)
    requires x !in done
    ensures Gained(before, done[x := a], c) == Plus(Gained(before, done, c), When(StoredIn(c)(x), a))
  {
    FreshAdd(done, x, a);
    SumWhereAdd(done, x, a, StoredIn(c));
    PlusAssociates(At(before, c), SumWhere(done, StoredIn(c)), When(StoredIn(c)(x), a));
  }

  lemma GainAt(before: Stats, done: Stats, current: Stats, x: Cell, a: Amounts, c: Cell)
    requires At(current, c) == Gained(before, done, c) && x !in done
    ensures At(AddTo(current, LowerCell(x), a), c) == Gained(before, done[x := a], c)
  {
    AddedAt(current, LowerCell(x), a, c);
    GainedAdd(before, done, x, a, c);
  }

  lemma LowerCellsAdd(cells: set<Cell>, x: Cell)
    ensures LowerCells(cells + {x}) == LowerCells(cells) + {LowerCell(x)}
  {
    forall c | c in LowerCells(cells) + {LowerCell(x)} ensures c in LowerCells(cells + {x}) {
      if c in LowerCells(cells) {
        var y :| y in cells && LowerCell(y) == c;
        assert y in cells + {x};
      } else {
        assert x in cells + {x};
      }
    }
  }

  lemma GainValues(before: Stats, done: Stats, current: Stats, x: Cell, a: Amounts)
    requires GainsValues(before, done, current) && x !in done
    ensures GainsValues(before, done[x := a], AddTo(current, LowerCell(x), a))
  {
    forall c: Cell ensures At(AddTo(current, LowerCell(x), a), c) == Gained(before, done[x := a], c) {
      GainAt(before, done, current, x, a, c);
    }
  }

  lemma GainKeys(before: set<Cell>, done: set<Cell>, current: set<Cell>, x: Cell)
    requires GainsKeys(before, done, current)
    ensures GainsKeys(before, done + {x}, current + {LowerCell(x)})
  {
    LowerCellsAdd(done, x);
  }

  lemma KeysAdd(m: Stats, x: Cell, a: Amounts)
    ensures m[x := a].Keys == m.Keys + {x}
  {}

  /** One key of the batch added to the stored value. */
  lemma GainOne(before: Stats, done: Stats, current: Stats, x: Cell, a: Amounts)
    requires Gains(before, done, current) && x !in done
    ensures Gains(before, done[x := a], AddTo(current, LowerCell(x), a))
  {
    GainValues(before, done, current, x, a);
    GainKeys(before.Keys, done.Keys, current.Keys, x);
    KeysAdd(done, x, a);
    KeysAdd(current, LowerCell(x), Plus(At(current, LowerCell(x)), a));
  }

  /** The part of a batch that is stored when the keys in `rest` are still to come. */
  function Without(batch: Stats, rest: set<Cell>): Stats { map x | x in batch && x !in rest :: batch[x] }

  lemma WithoutOne(batch: Stats, rest: set<Cell>, x: Cell)
    requires x in rest && x in batch
    ensures x !in Without(batch, rest) && Without(batch, rest - {x}) == Without(batch, rest)[x := batch[x]]
  {}

  class StatStorage {
    var stored: Stats
    var lastProcessed: nat

    constructor ()
      ensures stored == map[] && lastProcessed == 0
    {
      stored, lastProcessed := map[], 0;
    }

    /** `SetVolumeStat` and `SetBurnFeeStat`: the keys of the batch come in any order. */
    method SetStat(batch: Stats, lastProcessTimePoint: nat)
      modifies this
      ensures Gains(old(stored), batch, stored) && lastProcessed == lastProcessTimePoint
    {
      var rest := batch.Keys;
      assert Without(batch, rest) == map[];
      GainNothing(stored);
      while rest != {}
        invariant rest <= batch.Keys && Gains(old(stored), Without(batch, rest), stored)
        decreases rest
      {
        var x :| x in rest;
        WithoutOne(batch, rest, x);
        GainOne(old(stored), Without(batch, rest), stored, x, batch[x]);
        stored := AddTo(stored, LowerCell(x), batch[x]);
        rest := rest - {x};
      }
      assert Without(batch, {}) == batch;
      lastProcessed := lastProcessTimePoint;
    }

    method SetLastProcessedTradeLogTimepoint(timepoint: nat)
      modifies this
      ensures stored == old(stored) && lastProcessed == timepoint
    {
      lastProcessed := timepoint;
    }
  }

  // A stored batch is the aggregation of its items

  ghost function CellsOf(items: seq<Item>): set<Cell> {
    if items == [] then {}
    else
      var i := items[|items| - 1];
      CellsOf(items[..|items| - 1]) + {CellOf(i, M), CellOf(i, H), CellOf(i, D)}
  }

  lemma {:induction false} KeysOfAggregation(m: Stats, items: seq<Item>)
    ensures AddItems(m, items).Keys == m.Keys + CellsOf(items)
  {
    if items != [] {
      var n := |items| - 1;
      KeysOfAggregation(m, items[..n]);
      KeysOfItem(AddItems(m, items[..n]), items[n]);
    }
  }

  lemma KeysOfItem(m: Stats, i: Item)
    ensures AddItem(m, i).Keys == m.Keys + {CellOf(i, M), CellOf(i, H), CellOf(i, D)}
  {}

  lemma {:induction false} CellsOfLower(items: seq<Item>)
    ensures CellsOf(LowerItems(items)) == LowerCells(CellsOf(items))
  {
    if items != [] {
      var n := |items| - 1;
      CellsOfLower(items[..n]);
      var lower := LowerItems(items[..n]);
      assert (lower + [LowerItem(items[n])])[..|lower|] == lower;
      LowerCellsOf(items[n]);
    }
  }

  lemma LowerCellsOf(i: Item)
    ensures forall f: Freq :: CellOf(LowerItem(i), f) == LowerCell(CellOf(i, f))
  {}

  lemma {:induction false} SumOfLower(items: seq<Item>, c: Cell)
    ensures SumItems(LowerItems(items), Exactly(c)) == SumItems(items, StoredIn(c))
  {
    if items != [] {
      var n := |items| - 1;
      SumOfLower(items[..n], c);
      var lower := LowerItems(items[..n]);
      assert (lower + [LowerItem(items[n])])[..|lower|] == lower;
      LowerCellsOf(items[n]);
    }
  }

  lemma AtAggregation(m: Stats, items: seq<Item>, c: Cell)
    ensures At(AddItems(m, items), c) == Plus(At(m, c), SumItems(items, Exactly(c)))
  {
    SumOfAggregation(m, items, Exactly(c));
    SumOfOne(m, c);
    SumOfOne(AddItems(m, items), c);
  }

  lemma SameStats(a: Stats, b: Stats)
    requires a.Keys == b.Keys && forall c: Cell :: At(a, c) == At(b, c)
    ensures a == b
  {
    forall c | c in a.Keys ensures a[c] == b[c] { assert At(a, c) == At(b, c); }
  }

  /**
   * Aggregating items into a fresh batch and storing the batch is aggregating
   * them, keys in lower case, into the stored statistics.
   */
  lemma StoredBatchIsAggregation(before: Stats, items: seq<Item>, after: Stats)
    requires Gains(before, AddItems(map[], items), after)
    ensures after == AddItems(before, LowerItems(items))
  {
    var batch, want := AddItems(map[], items), AddItems(before, LowerItems(items));
    forall c: Cell ensures At(after, c) == At(want, c) {
      AtAggregation(before, LowerItems(items), c);
      SumOfLower(items, c);
      SumOfAggregation(map[], items, StoredIn(c));
      SumOfNothing(StoredIn(c));
    }
    KeysOfAggregation(map[], items);
    KeysOfAggregation(before, LowerItems(items));
    CellsOfLower(items);
    SameStats(after, want);
  }

  // One pass

  /** A tick time in nanoseconds, as a `uint64`. */
  type Time = t: nat | t < UINT64

  type Logs = seq<Entry<Trade>>

  function MaxTime(trades: seq<Trade>): nat {
    if trades == [] then 0
    else var m, t := MaxTime(trades[..|trades| - 1]), trades[|trades| - 1].timestamp; if t > m then t else m
  }

  /** `GetTradeLogTimeRange`: from just after the watermark, at most one period. */
  function TimeRange(logs: Logs, watermark: nat, now: Time): (range: (nat, nat))
    requires (logs != [] ==> logs[0].version < UINT64)
    ensures range.0 < UINT64 && range.1 < UINT64
  {
    var after := Add64(watermark, 1);
    var from := if after == 1 && logs != [] then Sub64(logs[0].version, 1) else after;
    (from, if Sub64(now, from) > MAX_GET_LOG_PERIOD then Add64(from, MAX_GET_LOG_PERIOD) else now)
  }

  datatype State = State(stored: Stats, watermark: nat)

  /** A pass at time `now`, in nanoseconds, over the logs stored at that moment. */
  function Pass(items: Aggregator, logs: Logs, s: State, now: Time): State
    requires Increasing(logs)
  {
    var (from, to) := TimeRange(logs, s.watermark, now);
    if Sub64(to, from) > MAX_GET_LOG_PERIOD then s
    else
      var trades := InRange(logs, from, to);
      if trades != [] then State(AddItems(s.stored, LowerItems(AllItems(items, trades))), MaxTime(trades))
      else if logs != [] && to < logs[|logs| - 1].version then s.(watermark := to)
      else s
  }

  /** The loop of a pass over the trades of its range. */
  method Fold(kind: Kind, trades: seq<Trade>) returns (batch: Batch, last: nat)
    ensures fresh(batch) && batch.cells == AddItems(map[], AllItems(AggregatorOf(kind), trades))
    ensures last == MaxTime(trades)
  {
    batch := new Batch();
    last := 0;
    ghost var items := AggregatorOf(kind);
    for i := 0 to |trades|
      invariant fresh(batch) && batch.cells == AddItems(map[], AllItems(items, trades[..i]))
      invariant last == MaxTime(trades[..i])
    {
      var trade := trades[i];
      assert trades[..i + 1][..i] == trades[..i];
      AddItemsConcat(map[], AllItems(items, trades[..i]), items(trade));
      if kind.VolumeStat? {
        batch.AggregateVolumeStats(trade);
      } else {
        batch.AggregateBurnFeeStats(trade);
      }
      if trade.timestamp > last {
        last := trade.timestamp;
      }
    }
    assert trades[..|trades|] == trades;
  }

  /** `GetTradeLogs`: the stored logs of the range in order, and an error for a range that is too broad. */
  function GetTradeLogs(logs: Logs, from: nat, to: nat): Result<seq<Trade>>
    requires from < UINT64 && to < UINT64
  {
    if Sub64(to, from) > MAX_GET_LOG_PERIOD then Err("Time range is too broad") else Ok(InRange(logs, from, to))
  }

  class StatFetcher {
    const statStorage: StatStorage

    constructor (statStorage: StatStorage)
      ensures this.statStorage == statStorage
    {
      this.statStorage := statStorage;
    }

    ghost function Contents(): State
      reads statStorage
    {
      State(statStorage.stored, statStorage.lastProcessed)
    }

    /** `RunVolumeStatAggregation` or `RunBurnFeeAggregation`. */
    method RunAggregation(kind: Kind, logs: Logs, now: Time)
      requires Increasing(logs)
      modifies statStorage
      ensures Contents() == Pass(AggregatorOf(kind), logs, old(Contents()), now)
    {
      var (fromTime, toTime) := TimeRange(logs, statStorage.lastProcessed, now);
      var answer := GetTradeLogs(logs, fromTime, toTime);
      if answer.Err? {
        return;
      }
      var tradeLogs := answer.value;
      if |tradeLogs| > 0 {
        var batch, last := Fold(kind, tradeLogs);
        ghost var before := statStorage.stored;
        statStorage.SetStat(batch.cells, last);
        StoredBatchIsAggregation(before, AllItems(AggregatorOf(kind), tradeLogs), statStorage.stored);
      } else if |logs| > 0 && toTime < logs[|logs| - 1].version {
        statStorage.SetLastProcessedTradeLogTimepoint(toTime);
      }
    }
  }

  // Exactly once

  /** The logs up to the watermark. */
  function Processed(logs: Logs, watermark: nat): seq<Trade> { InRange(logs, 0, watermark) }

  /** Stored logs: keyed by their timestamps, which are above 1 and far below the wrap. */
  ghost predicate Sound(logs: Logs) {
    && Increasing(logs)
    && forall i :: 0 <= i < |logs| ==> logs[i].version == logs[i].value.timestamp && 2 <= logs[i].version < UINT64 / 2
  }

  /** One aggregation of some trades. */
  function Total(items: Aggregator, trades: seq<Trade>): Stats {
    AddItems(map[], LowerItems(AllItems(items, trades)))
  }

  /** The statistics are one aggregation of exactly the logs up to the watermark. */
  ghost predicate Exact(items: Aggregator, logs: Logs, s: State) {
    && Sound(logs)
    && s.watermark <= (if logs == [] then 0 else logs[|logs| - 1].version)
    && s.stored == Total(items, Processed(logs, s.watermark))
  }

  lemma {:induction false} MaxTimeBounds(trades: seq<Trade>)
    ensures forall t :: t in trades ==> t.timestamp <= MaxTime(trades)
    ensures trades != [] ==> exists t :: t in trades && t.timestamp == MaxTime(trades)
  {
    if trades != [] {
      var n := |trades| - 1;
      MaxTimeBounds(trades[..n]);
      assert trades == trades[..n] + [trades[n]];
      assert trades[n] in trades && forall t :: t in trades[..n] ==> t in trades;
    }
  }

  /** The range of a pass starts behind everything processed and ends ahead of it. */
  lemma RangeIsAhead(logs: Logs, watermark: nat, now: Time)
    requires Sound(logs)
    requires watermark <= (if logs == [] then 0 else logs[|logs| - 1].version)
    ensures var (from, to) := TimeRange(logs, watermark, now);
            && Sub64(to, from) <= MAX_GET_LOG_PERIOD && watermark < from <= to
            && forall i :: 0 <= i < |logs| ==> (from <= logs[i].version <==> watermark < logs[i].version)
  {
    if logs != [] { assert logs[0].version <= logs[|logs| - 1].version < UINT64 / 2; }
  }

  lemma EmptyRange(logs: Logs, from: nat, to: nat)
    requires Sound(logs) && InRange(logs, from, to) == []
    ensures forall i :: 0 <= i < |logs| ==> !(from <= logs[i].version <= to)
  {
    forall i | 0 <= i < |logs| && from <= logs[i].version <= to ensures false {
      RangeHolds(logs, from, to, i);
    }
  }

  lemma NothingAfterLast(logs: Logs, from: nat, to: nat)
    requires Sound(logs)
    ensures InRange(logs, MaxTime(InRange(logs, from, to)) + 1, to) == [] || MaxTime(InRange(logs, from, to)) < from
  {
    var trades := InRange(logs, from, to);
    var last := MaxTime(trades);
    MaxTimeBounds(trades);
    forall j | 0 <= j < |logs| && from <= last ensures !(last + 1 <= logs[j].version <= to) {
      if from <= logs[j].version <= to { RangeHolds(logs, from, to, j); }
    }
    if from <= last { RangeIsEmpty(logs, last + 1, to); }
  }

  /** The greatest timestamp of a range is that of a stored log, and no log lies between it and the end. */
  lemma LastOfRange(logs: Logs, from: nat, to: nat)
    requires Sound(logs) && InRange(logs, from, to) != []
    ensures var last := MaxTime(InRange(logs, from, to));
            && from <= last <= to && last <= logs[|logs| - 1].version
            && InRange(logs, from, to) == InRange(logs, from, last)
  {
    var trades := InRange(logs, from, to);
    var last := MaxTime(trades);
    MaxTimeBounds(trades);
    var t :| t in trades && t.timestamp == last;
    RangeIsStored(logs, from, to, t);
    var i :| 0 <= i < |logs| && logs[i].value == t && from <= logs[i].version <= to;
    RangeSplit(logs, from, last, to);
    NothingAfterLast(logs, from, to);
  }

  /** The logs processed so far and those of the range of a pass are all the logs up to its end. */
  lemma ProcessedExtends(logs: Logs, watermark: nat, from: nat, to: nat)
    requires Sound(logs) && watermark < from <= to
    requires forall i :: 0 <= i < |logs| ==> (from <= logs[i].version <==> watermark < logs[i].version)
    ensures Processed(logs, to) == Processed(logs, watermark) + InRange(logs, from, to)
  {
    RangeSplit(logs, 0, watermark, to);
    SameRange(logs, from, to, watermark + 1, to);
  }

  lemma {:induction false} LowerItemsConcat(a: seq<Item>, b: seq<Item>)
    ensures LowerItems(a + b) == LowerItems(a) + LowerItems(b)
  {
    if b == [] {
      assert a + b == a;
    } else {
      var n := |b| - 1;
      LowerItemsConcat(a, b[..n]);
      assert (a + b)[..|a + b| - 1] == a + b[..n];
    }
  }

  lemma AggregationExtends(items: Aggregator, a: seq<Trade>, b: seq<Trade>)
    ensures Total(items, a + b) == AddItems(Total(items, a), LowerItems(AllItems(items, b)))
  {
    AllItemsConcat(items, a, b);
    LowerItemsConcat(AllItems(items, a), AllItems(items, b));
    AddItemsConcat(map[], LowerItems(AllItems(items, a)), LowerItems(AllItems(items, b)));
  }

  /**
   * The range itself: from just behind the watermark, or just before the first
   * log if nothing was processed, to the time of the tick if that is at most a
   * day later, and else to exactly a day later.
   */
  lemma RangeExactly(logs: Logs, watermark: nat, now: Time)
    requires Sound(logs) && watermark < UINT64 / 2
    ensures var (from, to) := TimeRange(logs, watermark, now);
            && from == (if watermark == 0 && logs != [] then logs[0].version - 1 else watermark + 1)
            && to == if from <= now <= from + 86_400_000_000_000 then now else from + 86_400_000_000_000
  {}

  /** A pass at any time keeps the statistics exact, and never moves the watermark back. */
  lemma PassIsExact(items: Aggregator, logs: Logs, s: State, now: Time)
    requires Exact(items, logs, s)
    ensures Exact(items, logs, Pass(items, logs, s, now))
    ensures s.watermark <= Pass(items, logs, s, now).watermark
  {
    var (from, to) := TimeRange(logs, s.watermark, now);
    RangeIsAhead(logs, s.watermark, now);
    var trades := InRange(logs, from, to);
    if trades != [] {
      LastOfRange(logs, from, to);
      ProcessedExtends(logs, s.watermark, from, MaxTime(trades));
      AggregationExtends(items, Processed(logs, s.watermark), trades);
    } else {
      ProcessedExtends(logs, s.watermark, from, to);
      assert Processed(logs, s.watermark) + [] == Processed(logs, s.watermark);
    }
  }

  /** While a log is unprocessed, every pass brings the watermark closer to the last one. */
  lemma PassAdvances(items: Aggregator, logs: Logs, s: State, now: Time)
    requires Exact(items, logs, s)
    requires logs != [] && s.watermark < logs[|logs| - 1].version
    ensures s.watermark < Pass(items, logs, s, now).watermark <= logs[|logs| - 1].version
  {
    var (from, to) := TimeRange(logs, s.watermark, now);
    RangeIsAhead(logs, s.watermark, now);
    if InRange(logs, from, to) != [] {
      LastOfRange(logs, from, to);
    } else {
      EmptyRange(logs, from, to);
    }
  }

  /** Arriving logs are later than all stored ones, so that none is processed yet. */
  lemma ArrivalIsExact(items: Aggregator, logs: Logs, more: Logs, s: State)
    requires Exact(items, logs, s) && Sound(logs + more)
    ensures Exact(items, logs + more, s)
  {
    var all := logs + more;
    if logs != [] {
      assert all[|logs| - 1] == logs[|logs| - 1];
    }
    forall i | 0 <= i < |more| ensures s.watermark < more[i].version {
      assert all[|logs| + i] == more[i];
      if logs != [] { assert all[|logs| - 1].version < all[|logs| + i].version; }
    }
    RangeConcat(logs, more, 0, s.watermark);
    RangeIsEmpty(more, 0, s.watermark);
    assert Processed(logs, s.watermark) + [] == Processed(logs, s.watermark);
  }

  lemma {:induction false} RangeConcat(a: Logs, b: Logs, from: nat, to: nat)
    ensures InRange(a + b, from, to) == InRange(a, from, to) + InRange(b, from, to)
  {
    if a == [] {
      assert a + b == b;
    } else {
      assert (a + b)[1..] == a[1..] + b;
      RangeConcat(a[1..], b, from, to);
      PrependParts(if from <= a[0].version <= to then [a[0].value] else [],
                   InRange(a[1..], from, to), InRange(b, from, to));
    }
  }

  /** An event: logs are stored, or a pass runs at some time. */
  datatype Event = Arrive(more: Logs) | RunPass(now: Time)

  function Arrived(events: seq<Event>): Logs {
    if events == [] then []
    else
      var e, logs := events[|events| - 1], Arrived(events[..|events| - 1]);
      if e.Arrive? then logs + e.more else logs
  }

  /** Logs arrive in the order of their timestamps. */
  ghost predicate Legal(events: seq<Event>) {
    events == [] || (Legal(events[..|events| - 1]) && Sound(Arrived(events)))
  }

  lemma LegalIsSound(events: seq<Event>)
    requires Legal(events)
    ensures Sound(Arrived(events))
  {}

  function After(items: Aggregator, events: seq<Event>): State
    requires Legal(events)
  {
    if events == [] then State(map[], 0)
    else
      var e, before, logs := events[|events| - 1], After(items, events[..|events| - 1]),
                             Arrived(events[..|events| - 1]);
      LegalIsSound(events[..|events| - 1]);
      if e.Arrive? then before else Pass(items, logs, before, e.now)
  }

  /**
   * Exactly once: in every run the statistics are one aggregation of exactly
   * the stored logs up to the watermark, whatever the times of the passes.
   */
  lemma {:induction false} RunIsExact(items: Aggregator, events: seq<Event>)
    requires Legal(events)
    ensures Exact(items, Arrived(events), After(items, events))
  {
    if events != [] {
      var e := events[|events| - 1];
      LegalIsSound(events[..|events| - 1]);
      RunIsExact(items, events[..|events| - 1]);
      if e.Arrive? {
        ArrivalIsExact(items, Arrived(events[..|events| - 1]), e.more, After(items, events[..|events| - 1]));
      } else {
        PassIsExact(items, Arrived(events[..|events| - 1]), After(items, events[..|events| - 1]), e.now);
      }
    }
  }

  function Passes(items: Aggregator, logs: Logs, s: State, times: seq<Time>): State
    requires Increasing(logs)
    decreases |times|
  {
    if times == [] then s
    else Passes(items, logs, Pass(items, logs, s, times[0]), times[1..])
  }

  /** Enough passes, at whatever times, process every log: the statistics are one aggregation of all of them. */
  lemma {:induction false} EnoughPassesProcessAll(items: Aggregator, logs: Logs, s: State, times: seq<Time>)
    requires Exact(items, logs, s) && logs != []
    requires logs[|logs| - 1].version - s.watermark <= |times|
    ensures var s' := Passes(items, logs, s, times);
            && s'.watermark == logs[|logs| - 1].version
            && s'.stored == Total(items, InRange(logs, 0, UINT64))
    decreases |times|
  {
    if times == [] {
      SameRange(logs, 0, s.watermark, 0, UINT64);
    } else {
      PassIsExact(items, logs, s, times[0]);
      if s.watermark < logs[|logs| - 1].version { PassAdvances(items, logs, s, times[0]); }
      EnoughPassesProcessAll(items, logs, Pass(items, logs, s, times[0]), times[1..]);
    }
  }

  /** Conservation in the stored statistics of every run. */
  lemma StoredBucketsConserve(items: Aggregator, events: seq<Event>, key: string, hour: nat, day: nat)
    requires Legal(events)
    ensures var m := After(items, events).stored;
            && At(m, Cell(key, H, hour * HOUR)) == SumWhere(m, Within(key, M, hour * HOUR, HOUR))
            && At(m, Cell(key, D, day * DAY)) == SumWhere(m, Within(key, H, day * DAY, DAY))
            && SumWhere(m, Every(key, M)) == SumWhere(m, Every(key, H)) == SumWhere(m, Every(key, D))
  {
    RunIsExact(items, events);
    var all := LowerItems(AllItems(items, Processed(Arrived(events), After(items, events).watermark)));
    HourIsSumOfMinutes(all, key, hour);
    DayIsSumOfHours(all, key, day);
    GrandTotalsAgree(all, key, M, H);
    GrandTotalsAgree(all, key, H, D);
  }

  /**
   * What is stored: in every run, a minute, hour or day cell holds the sums
   * over what the logs up to the watermark add to its key within its time.
   */
  lemma StoredCellIsSum(items: Aggregator, events: seq<Event>, key: string, freq: Freq, b: nat)
    requires Legal(events) && b % Width(freq) == 0
    ensures var s := After(items, events);
            Holds(At(s.stored, Cell(key, freq, b)),
                  LowerItems(AllItems(items, Processed(Arrived(events), s.watermark))), key, b, b + Width(freq))
  {
    RunIsExact(items, events);
    CellIsSum(LowerItems(AllItems(items, Processed(Arrived(events), After(items, events).watermark))), key, freq, b);
  }

  /** Keys that differ only in the case of their letters share their cells; everything else in a key counts. */
  lemma LowerExactly(s: string, k: nat)
    requires k < |s|
    ensures |Lower(s)| == |s|
    ensures Lower(s)[k] != s[k] ==> 'A' <= s[k] <= 'Z' && 'a' <= Lower(s)[k] <= 'z'
    ensures Lower(s)[k] as int - s[k] as int == if 'A' <= s[k] <= 'Z' then 'a' as int - 'A' as int else 0
    ensures Lower(Lower(s)) == Lower(s)
  {}
}

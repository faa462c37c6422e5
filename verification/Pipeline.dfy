/**
 * From raw logs to statistics: ticks of the log fetcher and aggregation passes
 * in any order (stat/fetcher.go).
 */
module Pipeline {
  import opened OrderedKeys
  import opened VersionStore
  import LogGrouping
  import LogFetcher
  import BucketStats
  import Aggregation

  type TradeLog = LogGrouping.TradeLog
  type Trade = BucketStats.Trade
  type World = LogFetcher.World
  type Aggregator = BucketStats.Aggregator

  /** How a stored trade log is read back: addresses printed, amounts converted, the timestamp kept. */
  type Reading = TradeLog -> Trade

  ghost predicate KeepsTime(read: Reading) { forall t: TradeLog :: read(t).timestamp == t.timestamp }

  function ReadAll(read: Reading, ts: seq<TradeLog>): seq<Trade> {
    seq(|ts|, i requires 0 <= i < |ts| => read(ts[i]))
  }

  function ReadStore(read: Reading, b: seq<Entry<TradeLog>>): Aggregation.Logs {
    seq(|b|, i requires 0 <= i < |b| => Entry(b[i].version, read(b[i].value)))
  }

  datatype Service = Service(logs: LogFetcher.Logs, stats: Aggregation.State)

  datatype Event = Tick(input: LogFetcher.TickInput) | Pass(now: Aggregation.Time)

  const Start := Service(LogFetcher.Logs([], [], 0), Aggregation.State(map[], 0))

  /** Block times are below 2^63 nanoseconds. */
  ghost predicate Dated(w: World) { (w.time(w.top) + 1) * LogFetcher.BILLION <= UINT64 / 2 }

  ghost predicate Enabled(w: World, e: Event) {
    e.Tick? ==> LogFetcher.Reliable(w, e.input.currentBlock, e.input.fetch)
  }

  ghost predicate Sound(s: Service, w: World, items: Aggregator, read: Reading) {
    && LogFetcher.Exact(s.logs, w)
    && Aggregation.Exact(items, ReadStore(read, s.logs.trades), s.stats)
  }

  ghost function Next(s: Service, w: World, items: Aggregator, read: Reading, e: Event): Service
    requires Sound(s, w, items, read) && Enabled(w, e)
  {
    match e
    case Tick(t) => s.(logs := LogFetcher.Tick(s.logs, w.deployBlock, t.currentBlock, t.fetch))
    case Pass(now) => s.(stats := Aggregation.Pass(items, ReadStore(read, s.logs.trades), s.stats, now))
  }

  /** What the aggregation assumes of the stored logs follows from the chain. */
  lemma StoreIsSound(logs: LogFetcher.Logs, w: World, read: Reading)
    requires LogFetcher.Exact(logs, w) && Increasing(logs.trades) && Dated(w) && KeepsTime(read)
    ensures Aggregation.Sound(ReadStore(read, logs.trades))
  {
    LogFetcher.StoredTimes(logs, w);
    var b := ReadStore(read, logs.trades);
    forall i | 0 <= i < |b| ensures b[i].version == b[i].value.timestamp && 2 <= b[i].version < UINT64 / 2 {
      assert logs.trades[i] in logs.trades;
    }
  }

  lemma GrowthIsExact(
    before: seq<Entry<TradeLog>>, after: seq<Entry<TradeLog>>, items: Aggregator, read: Reading, stats: Aggregation.State)
    requires Aggregation.Exact(items, ReadStore(read, before), stats)
    requires before <= after && Aggregation.Sound(ReadStore(read, after))
    ensures Aggregation.Exact(items, ReadStore(read, after), stats)
  {
    var more := after[|before|..];
    assert ReadStore(read, after) == ReadStore(read, before) + ReadStore(read, more);
    Aggregation.ArrivalIsExact(items, ReadStore(read, before), ReadStore(read, more), stats);
  }

  lemma TickGrows(logs: LogFetcher.Logs, w: World, read: Reading, t: LogFetcher.TickInput) returns (after: LogFetcher.Logs)
    requires LogFetcher.Exact(logs, w) && Enabled(w, Tick(t)) && Dated(w) && KeepsTime(read)
    ensures after == LogFetcher.Tick(logs, w.deployBlock, t.currentBlock, t.fetch)
    ensures LogFetcher.Exact(after, w) && logs.trades <= after.trades
    ensures Aggregation.Sound(ReadStore(read, after.trades))
  {
    after := LogFetcher.Tick(logs, w.deployBlock, t.currentBlock, t.fetch);
    LogFetcher.TickIsExact(logs, w, t.currentBlock, t.fetch);
    LogFetcher.ArrivalsComeLater(logs, w, t.currentBlock, t.fetch);
    StoreIsSound(after, w, read);
  }

  lemma TickIsSound(s: Service, w: World, items: Aggregator, read: Reading, t: LogFetcher.TickInput)
    requires Sound(s, w, items, read) && Enabled(w, Tick(t)) && Dated(w) && KeepsTime(read)
    ensures Sound(Next(s, w, items, read, Tick(t)), w, items, read)
  {
    var after := TickGrows(s.logs, w, read, t);
    GrowthIsExact(s.logs.trades, after.trades, items, read, s.stats);
  }

  lemma NextIsSound(s: Service, w: World, items: Aggregator, read: Reading, e: Event)
    requires Sound(s, w, items, read) && Enabled(w, e) && Dated(w) && KeepsTime(read)
    ensures Sound(Next(s, w, items, read, e), w, items, read)
  {
    match e
    case Tick(t) => TickIsSound(s, w, items, read, t);
    case Pass(now) => Aggregation.PassIsExact(items, ReadStore(read, s.logs.trades), s.stats, now);
  }

  lemma StartIsSound(w: World, items: Aggregator, read: Reading)
    ensures Sound(Start, w, items, read)
  {
    LogFetcher.EmptyIsExact(w);
    assert ReadStore(read, []) == [];
  }

  ghost function After(w: World, items: Aggregator, read: Reading, events: seq<Event>): Service
    requires Dated(w) && KeepsTime(read) && forall e :: e in events ==> Enabled(w, e)
    ensures Sound(After(w, items, read, events), w, items, read)
  {
    if events == [] then
      StartIsSound(w, items, read);
      Start
    else
      var before, e := After(w, items, read, events[..|events| - 1]), events[|events| - 1];
      NextIsSound(before, w, items, read, e);
      Next(before, w, items, read, e)
  }

  /** The trades up to a time. */
  function UpTo(trades: seq<Trade>, time: nat): seq<Trade> {
    if trades == [] then []
    else (if trades[0].timestamp <= time then [trades[0]] else []) + UpTo(trades[1..], time)
  }

  lemma {:induction false} RangeIsUpTo(read: Reading, ts: seq<TradeLog>, time: nat)
    requires KeepsTime(read)
    ensures InRange(ReadStore(read, LogFetcher.KeyedTrades(ts)), 0, time) == UpTo(ReadAll(read, ts), time)
  {
    if ts != [] {
      RangeIsUpTo(read, ts[1..], time);
      assert ReadStore(read, LogFetcher.KeyedTrades(ts))[1..] == ReadStore(read, LogFetcher.KeyedTrades(ts[1..]));
      assert ReadAll(read, ts)[1..] == ReadAll(read, ts[1..]);
    }
  }

  /** The trade logs grouped from the raw logs that the cursor has passed. */
  ghost function Grouped(w: World, cursor: nat): seq<TradeLog> {
    LogGrouping.ExpectedTrades(LogFetcher.Selected(w.chain, w.deployBlock + 1, cursor), LogFetcher.Truth(w))
  }

  /**
   * The whole pipeline: after every interleaving of ticks and passes, whatever
   * their times and failures, the statistics are one aggregation of exactly the
   * trade logs grouped from the raw logs in (deployBlock, cursor] whose time is
   * not above the watermark.
   */
  lemma RunIsExact(w: World, items: Aggregator, read: Reading, events: seq<Event>)
    requires Dated(w) && KeepsTime(read) && forall e :: e in events ==> Enabled(w, e)
    ensures var s := After(w, items, read, events);
            s.stats.stored ==
              Aggregation.Total(items, UpTo(ReadAll(read, Grouped(w, LogFetcher.Cursor(s.logs, w.deployBlock))),
                                            s.stats.watermark))
  {
    var s := After(w, items, read, events);
    RangeIsUpTo(read, Grouped(w, LogFetcher.Cursor(s.logs, w.deployBlock)), s.stats.watermark);
  }

  lemma {:induction false} UpToAll(trades: seq<Trade>, time: nat)
    requires forall t :: t in trades ==> t.timestamp <= time
    ensures UpTo(trades, time) == trades
  {
    if trades != [] { UpToAll(trades[1..], time); }
  }

  lemma AllAreUpTo(read: Reading, ts: seq<TradeLog>, time: nat)
    requires KeepsTime(read) && forall e :: e in LogFetcher.KeyedTrades(ts) ==> e.version <= time
    ensures UpTo(ReadAll(read, ts), time) == ReadAll(read, ts)
  {
    forall t | t in ReadAll(read, ts) ensures t.timestamp <= time {
      var i :| 0 <= i < |ts| && t == read(ts[i]);
      assert LogFetcher.KeyedTrades(ts)[i] in LogFetcher.KeyedTrades(ts);
    }
    UpToAll(ReadAll(read, ts), time);
  }

  /** Once the watermark has reached the stored logs, the statistics cover everything the cursor has passed. */
  lemma CaughtUpIsComplete(w: World, items: Aggregator, read: Reading, events: seq<Event>)
    requires Dated(w) && KeepsTime(read) && forall e :: e in events ==> Enabled(w, e)
    requires var s := After(w, items, read, events);
             forall e :: e in s.logs.trades ==> e.version <= s.stats.watermark
    ensures var s := After(w, items, read, events);
            s.stats.stored ==
              Aggregation.Total(items, ReadAll(read, Grouped(w, LogFetcher.Cursor(s.logs, w.deployBlock))))
  {
    var s := After(w, items, read, events);
    var trades := Grouped(w, LogFetcher.Cursor(s.logs, w.deployBlock));
    RunIsExact(w, items, read, events);
    assert s.logs.trades == LogFetcher.KeyedTrades(trades);
    AllAreUpTo(read, trades, s.stats.watermark);
  }
}

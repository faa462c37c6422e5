/**
 * Fetching logs block window by block window behind a cursor
 * (`RunLogFetcher` and `FetchLogs`, stat/fetcher.go) into a log store that
 * refuses positions it has passed (stat/storage/log_bolt.go).
 */
module LogFetcher {
  import opened Wrappers
  import opened OrderedKeys
  import opened VersionStore
  import opened LogGrouping

  const REORG_BLOCK_SAFE := 7
  const BLOCKS_PER_TICK := 1440
  const BILLION := 1_000_000_000

  /** Block numbers stay below this, so that the sums on block numbers do not wrap. */
  const HEIGHTS := 0x8000_0000_0000_0000

  type Node = (nat, nat) -> Option<seq<RawLog>>
  type Headers = nat -> Option<nat>
  type Fetch = (nat, nat) -> Option<seq<KNLog>>

  // The log store

  datatype Logs = Logs(trades: seq<Entry<TradeLog>>, cats: seq<Entry<CatLog>>, block: nat)

  predicate Earlier(block: nat, index: nat, block': nat, index': nat) {
    block < block' || (block == block' && index < index')
  }

  /** A log is refused unless it comes after the last stored trade log, (0, 0) if there is none. */
  predicate Accepts(trades: seq<Entry<TradeLog>>, block: nat, index: nat) {
    if trades == [] then Earlier(0, 0, block, index)
    else var last := trades[|trades| - 1].value; Earlier(last.block, last.index, block, index)
  }

  /** `StoreTradeLog` or `StoreCatLog`: both look at the last trade log. */
  function PutLog(s: Logs, k: KNLog): Logs {
    if !Accepts(s.trades, BlockOf(k), IndexOf(k)) then s
    else match k
      case OfTrade(t) => s.(trades := Insert(s.trades, t.timestamp, t))
      case OfCat(c) => s.(cats := Insert(s.cats, c.timestamp, c))
  }

  function PutLogs(s: Logs, ks: seq<KNLog>): Logs {
    if ks == [] then s else PutLog(PutLogs(s, ks[..|ks| - 1]), ks[|ks| - 1])
  }

  function MaxBlock(ks: seq<KNLog>): (m: nat)
    ensures forall i :: 0 <= i < |ks| ==> BlockOf(ks[i]) <= m
    ensures m == 0 || exists i :: 0 <= i < |ks| && BlockOf(ks[i]) == m
  {
    if ks == [] then 0
    else var m, b := MaxBlock(ks[..|ks| - 1]), BlockOf(ks[|ks| - 1]); if b > m then b else m
  }

  class BoltLogStorage {
    var trades: seq<Entry<TradeLog>>
    var cats: seq<Entry<CatLog>>
    var block: nat

    constructor ()
      ensures Contents() == Logs([], [], 0)
    {
      trades, cats, block := [], [], 0;
    }

    function Contents(): Logs
      reads this
    {
      Logs(trades, cats, block)
    }

    method StoreTradeLog(l: TradeLog) returns (ok: bool)
      modifies this
      ensures ok <==> Accepts(old(trades), l.block, l.index)
      ensures Contents() == PutLog(old(Contents()), OfTrade(l))
    {
      ok := Accepts(trades, l.block, l.index);
      if ok {
        trades := Insert(trades, l.timestamp, l);
      }
    }

    method StoreCatLog(l: CatLog) returns (ok: bool)
      modifies this
      ensures ok <==> Accepts(old(trades), l.block, l.index)
      ensures Contents() == PutLog(old(Contents()), OfCat(l))
    {
      ok := Accepts(trades, l.block, l.index);
      if ok {
        cats := Insert(cats, l.timestamp, l);
      }
    }

    method UpdateLogBlock(b: nat)
      modifies this
      ensures Contents() == old(Contents()).(block := b)
    {
      block := b;
    }
  }

  // The fetcher

  /** `InterpretTimestamp`: nanoseconds of the block, plus the index of the log; it fails with the header. */
  function Interpret(headers: Headers): Timestamps {
    (block: nat, index: nat) =>
      var h := headers(block);
      if h.Some? then Some((h.value * BILLION + index) % UINT64) else None
  }

  /** What `GetLogs` answers for a block range. */
  ghost function Fetched(from: nat, to: nat, node: Node, headers: Headers): Option<seq<KNLog>> {
    match node(from, to)
    case None => None
    case Some(raw) =>
      if TimesKnown(Kept(raw), Interpret(headers))
      then Some(Finish(Grouped(Kept(raw), Interpret(headers))))
      else None
  }

  ghost function FetchOf(node: Node, headers: Headers): Fetch {
    (from: nat, to: nat) => Fetched(from, to, node, headers)
  }

  function Cursor(s: Logs, deployBlock: nat): nat { if s.block == 0 then deployBlock else s.block }

  /** The end of the next window; both the sum and the difference are of `uint64` values. */
  function ToBlock(last: nat, currentBlock: nat): nat
    requires last < UINT64 && currentBlock < UINT64
  {
    var to, safe := Add64(last, 1 + BLOCKS_PER_TICK), Sub64(currentBlock, REORG_BLOCK_SAFE);
    if to > safe then safe else to
  }

  predicate Fits(s: Logs, deployBlock: nat, currentBlock: nat) {
    s.block < UINT64 && deployBlock < UINT64 && currentBlock < UINT64
  }

  /** One tick, with a query that answers or fails. */
  function Tick(s: Logs, deployBlock: nat, currentBlock: nat, fetch: Fetch): Logs
    requires Fits(s, deployBlock, currentBlock)
  {
    var last := Cursor(s, deployBlock);
    var from, to := Add64(last, 1), ToBlock(last, currentBlock);
    if from > to then s
    else Advance(s, last, to, fetch(from, to))
  }

  function Advance(s: Logs, last: nat, to: nat, answer: Option<seq<KNLog>>): Logs {
    match answer
    case None => s
    case Some(logs) => PutLogs(s, logs).(block := NextBlock(last, to, logs))
  }

  /** The new cursor: the block of the latest log, or the end of a window without logs. */
  function NextBlock(last: nat, to: nat, logs: seq<KNLog>): nat {
    var next := if logs == [] then last else MaxBlock(logs);
    if next == last && to != 0 then to else next
  }

  lemma PutLogsStep(s: Logs, ks: seq<KNLog>, i: nat)
    requires i < |ks|
    ensures PutLogs(s, ks[..i + 1]) == PutLog(PutLogs(s, ks[..i]), ks[i])
    ensures MaxBlock(ks[..i + 1]) ==
            var m := MaxBlock(ks[..i]); if BlockOf(ks[i]) > m then BlockOf(ks[i]) else m
  {
    assert ks[..i + 1][..i] == ks[..i];
  }

  /** What `FetchLogs` does to the store with the answer to its query. */
  predicate FetchedInto(answer: Option<seq<KNLog>>, from: nat, before: Logs, after: Logs, next: nat, ok: bool)
    requires from < UINT64
  {
    if answer.None? then !ok && after == before
    else
      && ok && after == PutLogs(before, answer.value).(block := after.block)
      && next == (if answer.value == [] then Sub64(from, 1) else MaxBlock(answer.value))
  }

  lemma FetchedThenUpdated(answer: Option<seq<KNLog>>, last: nat, to: nat, s: Logs, s': Logs, next: nat, ok: bool)
    requires last < UINT64 && FetchedInto(answer, Add64(last, 1), s, s', next, ok)
    ensures Advance(s, last, to, answer) ==
            if ok then s'.(block := if next == last && to != 0 then to else next) else s
    ensures !ok ==> s' == s
  {
    assert Sub64(Add64(last, 1), 1) == last;
  }

  class Fetcher {
    const logStorage: BoltLogStorage
    const deployBlock: nat

    constructor (logStorage: BoltLogStorage, deployBlock: nat)
      ensures this.logStorage == logStorage && this.deployBlock == deployBlock
    {
      this.logStorage, this.deployBlock := logStorage, deployBlock;
    }

    method FetchLogs(fromBlock: nat, toBlock: nat, node: Node, headers: Headers)
      returns (nextBlock: nat, ok: bool)
      requires fromBlock < UINT64
      modifies logStorage
      ensures FetchedInto(Fetched(fromBlock, toBlock, node, headers), fromBlock, old(logStorage.Contents()),
                          logStorage.Contents(), nextBlock, ok)
    {
      var raw := node(fromBlock, toBlock);
      var failed := if fromBlock == 0 then 0 else fromBlock - 1;
      if raw.None? {
        return failed, false;
      }
      var answer := GetLogs(raw.value, Interpret(headers));
      if answer.Err? {
        return failed, false;
      }
      var logs := answer.value;
      if |logs| == 0 {
        return Sub64(fromBlock, 1), true;
      }
      var maxBlock := StoreLogs(logs);
      return maxBlock, true;
    }

    /** The loop of `FetchLogs` over the answer. */
    method StoreLogs(logs: seq<KNLog>) returns (maxBlock: nat)
      modifies logStorage
      ensures maxBlock == MaxBlock(logs)
      ensures logStorage.Contents() == PutLogs(old(logStorage.Contents()), logs).(block := logStorage.block)
    {
      maxBlock := 0;
      ghost var before := logStorage.Contents();
      for i := 0 to |logs|
        invariant maxBlock == MaxBlock(logs[..i])
        invariant logStorage.Contents() == PutLogs(before, logs[..i]).(block := logStorage.block)
      {
        PutLogsStep(before, logs, i);
        var il := logs[i];
        if il.OfTrade? {
          var _ := logStorage.StoreTradeLog(il.trade);
        } else {
          var _ := logStorage.StoreCatLog(il.cat);
        }
        if BlockOf(il) > maxBlock {
          maxBlock := BlockOf(il);
          logStorage.UpdateLogBlock(maxBlock);
        }
      }
      assert logs[..|logs|] == logs;
    }

    /** One turn of the loop of `RunLogFetcher`. */
    method LogTick(currentBlock: nat, node: Node, headers: Headers)
      requires Fits(logStorage.Contents(), deployBlock, currentBlock)
      modifies logStorage
      ensures logStorage.Contents() == Tick(old(logStorage.Contents()), deployBlock, currentBlock, FetchOf(node, headers))
    {
      var lastBlock := logStorage.block;
      if lastBlock == 0 {
        lastBlock := deployBlock;
      }
      var toBlock := Add64(lastBlock, 1 + BLOCKS_PER_TICK);
      if toBlock > Sub64(currentBlock, REORG_BLOCK_SAFE) {
        toBlock := Sub64(currentBlock, REORG_BLOCK_SAFE);
      }
      if Add64(lastBlock, 1) > toBlock {
        return;
      }
      ghost var before := logStorage.Contents();
      var nextBlock, ok := FetchLogs(Add64(lastBlock, 1), toBlock, node, headers);
      FetchedThenUpdated(Fetched(Add64(lastBlock, 1), toBlock, node, headers), lastBlock, toBlock,
                         before, logStorage.Contents(), nextBlock, ok);
      if ok {
        if nextBlock == lastBlock && toBlock != 0 {
          nextBlock := toBlock;
        }
        logStorage.UpdateLogBlock(nextBlock);
      }
    }
  }

  // The window asked for

  /**
   * The reorganisation margin is kept exactly when the known head is not below
   * the margin itself. Below it the difference wraps and the window ignores it.
   */
  lemma WindowIsSafe(last: nat, currentBlock: nat)
    requires last < HEIGHTS && currentBlock < HEIGHTS
    ensures ToBlock(last, currentBlock) + 7 <= currentBlock <==> 7 <= currentBlock
    ensures ToBlock(last, currentBlock) ==
            if 7 <= currentBlock && currentBlock - 7 < last + 1441 then currentBlock - 7 else last + 1441
  {}

  // What the chain holds, and what the store should hold

  /** The final chain: its raw logs in order, the time of each block, and the contract's first block. */
  datatype Chain = Chain(chain: seq<RawLog>, time: nat -> nat, top: nat, deployBlock: nat)

  ghost predicate Ordered(s: seq<RawLog>) {
    forall i, j :: 0 <= i < j < |s| ==> Earlier(s[i].block, s[i].index, s[j].block, s[j].index)
  }

  ghost predicate Regular(w: Chain) {
    && Ordered(w.chain) && NoMixedTx(w.chain)
    && (forall l :: l in w.chain ==> l.block <= w.top && l.index < BILLION)
    && (forall l, l' :: l in w.chain && l' in w.chain && l.tx == l'.tx ==> l.block == l'.block)
    && (forall a: nat, b: nat :: a < b <= w.top ==> w.time(a) < w.time(b))
    && (w.time(w.top) + 1) * BILLION <= UINT64 && w.deployBlock < HEIGHTS
  }

  type World = w: Chain | Regular(w) ghost witness Chain([], (b: nat) => b, 0, 0)

  ghost function Truth(w: World): Timestamps { Interpret((b: nat) => Some(w.time(b))) }

  /** The answer of a node to a block range. */
  function Window(s: seq<RawLog>, from: nat, to: nat): seq<RawLog> {
    if s == [] then []
    else
      var l := s[|s| - 1];
      Window(s[..|s| - 1], from, to) + (if from <= l.block <= to then [l] else [])
  }

  /** The logs of a block range that are kept. */
  function Selected(s: seq<RawLog>, from: nat, to: nat): seq<RawLog> {
    if s == [] then []
    else
      var l := s[|s| - 1];
      Selected(s[..|s| - 1], from, to) + (if from <= l.block <= to && !l.removed then [l] else [])
  }

  lemma KeptAppend(s: seq<RawLog>, l: RawLog)
    ensures Kept(s + [l]) == Kept(s) + (if l.removed then [] else [l])
  {
    assert (s + [l])[..|s|] == s;
  }

  lemma {:induction false} SelectedIsKept(s: seq<RawLog>, from: nat, to: nat)
    ensures Kept(Window(s, from, to)) == Selected(s, from, to)
  {
    if s != [] {
      var init, l := s[..|s| - 1], s[|s| - 1];
      SelectedIsKept(init, from, to);
      KeptAppend(Window(init, from, to), l);
      assert Window(init, from, to) + [] == Window(init, from, to);
    }
  }

  lemma {:induction false} SelectedHolds(s: seq<RawLog>, from: nat, to: nat, l: RawLog)
    ensures l in Selected(s, from, to) <==> l in s && from <= l.block <= to && !l.removed
  {
    if s != [] {
      SelectedHolds(s[..|s| - 1], from, to, l);
      assert s == s[..|s| - 1] + [s[|s| - 1]];
    }
  }

  lemma {:induction false} SelectedOrdered(s: seq<RawLog>, from: nat, to: nat)
    requires Ordered(s)
    ensures Ordered(Selected(s, from, to))
  {
    if s != [] {
      var init, l := s[..|s| - 1], s[|s| - 1];
      SelectedOrdered(init, from, to);
      forall x | x in Selected(init, from, to) ensures Earlier(x.block, x.index, l.block, l.index) {
        SelectedHolds(init, from, to, x);
      }
    }
  }

  lemma {:induction false} SelectedEmpty(s: seq<RawLog>, from: nat, to: nat)
    requires forall l :: l in s ==> !(from <= l.block <= to && !l.removed)
    ensures Selected(s, from, to) == []
  {
    if s != [] { SelectedEmpty(s[..|s| - 1], from, to); }
  }

  lemma SplitAppend(a: seq<RawLog>, b: seq<RawLog>, l: RawLog, from: nat, mid: nat, to: nat)
    requires from <= mid + 1 && mid <= to && (l.block <= mid ==> b == [])
    ensures a + b + (if from <= l.block <= to && !l.removed then [l] else [])
         == a + (if from <= l.block <= mid && !l.removed then [l] else [])
          + (b + (if mid + 1 <= l.block <= to && !l.removed then [l] else []))
  {}

  /** Consecutive ranges of an ordered chain concatenate. */
  lemma {:induction false} SelectedSplit(s: seq<RawLog>, from: nat, mid: nat, to: nat)
    requires Ordered(s) && from <= mid + 1 && mid <= to
    ensures Selected(s, from, to) == Selected(s, from, mid) + Selected(s, mid + 1, to)
  {
    if s != [] {
      var init, l := s[..|s| - 1], s[|s| - 1];
      SelectedSplit(init, from, mid, to);
      if l.block <= mid { SelectedEmpty(init, mid + 1, to); }
      SplitAppend(Selected(init, from, mid), Selected(init, mid + 1, to), l, from, mid, to);
    }
  }

  function KeyedTrades(ts: seq<TradeLog>): seq<Entry<TradeLog>> {
    seq(|ts|, i requires 0 <= i < |ts| => Entry(ts[i].timestamp, ts[i]))
  }

  function KeyedCats(cs: seq<CatLog>): seq<Entry<CatLog>> {
    seq(|cs|, i requires 0 <= i < |cs| => Entry(cs[i].timestamp, cs[i]))
  }

  ghost function LogsOf(kept: seq<RawLog>, ts: Timestamps, block: nat): Logs {
    Logs(KeyedTrades(ExpectedTrades(kept, ts)), KeyedCats(Cats(kept, ts)), block)
  }

  /** The grouping of the kept logs in (deployBlock, to]. */
  ghost function Expected(w: World, to: nat, block: nat): Logs {
    LogsOf(Selected(w.chain, w.deployBlock + 1, to), Truth(w), block)
  }

  /** The store holds exactly the grouping of the logs up to the cursor. */
  ghost predicate Exact(s: Logs, w: World) {
    var c := Cursor(s, w.deployBlock);
    w.deployBlock <= c < HEIGHTS && s == Expected(w, c, s.block)
  }

  // Order of the entries that GetLogs yields

  /** The entry is stamped with the time of a log of the chain, whose transaction and position it has. */
  ghost predicate Placed(k: KNLog, w: World, from: nat) {
    && TimestampOf(k) == TimeOf(Truth(w), BlockOf(k), IndexOf(k))
    && from <= BlockOf(k)
    && exists l :: l in w.chain && l.tx == TxOf(k) && l.block == BlockOf(k) && l.index == IndexOf(k)
  }

  function TimestampOf(k: KNLog): nat { if k.OfTrade? then k.trade.timestamp else k.cat.timestamp }

  predicate Before(k: KNLog, k': KNLog) { Earlier(BlockOf(k), IndexOf(k), BlockOf(k'), IndexOf(k')) }

  /** Only a trade log may come after an entry of a later position, which is then a category log. */
  ghost predicate InOrder(ks: seq<KNLog>) {
    forall i, j :: 0 <= i < j < |ks| ==> Before(ks[i], ks[j]) || (ks[i].OfCat? && ks[j].OfTrade?)
  }

  /** The entries are placed, in order, and not after the position of `last`. */
  ghost predicate Tidy(ks: seq<KNLog>, w: World, from: nat, last: RawLog) {
    && InOrder(ks)
    && forall k :: k in ks ==> Placed(k, w, from) && !Earlier(last.block, last.index, BlockOf(k), IndexOf(k))
  }

  lemma TidyAppend(ks: seq<KNLog>, k: KNLog, w: World, from: nat, last: RawLog, l: RawLog)
    requires Tidy(ks, w, from, last) && Earlier(last.block, last.index, l.block, l.index)
    requires Placed(k, w, from) && BlockOf(k) == l.block && IndexOf(k) == l.index
    ensures Tidy(ks + [k], w, from, l)
  {}

  /** A log that fills the trade log in hand, or a category log put before it. */
  lemma TidyReplace(ks: seq<KNLog>, t: TradeLog, t': TradeLog, w: World, from: nat, last: RawLog)
    requires Tidy(ks + [OfTrade(t)], w, from, last)
    requires t'.tx == t.tx && t'.block == t.block && t'.index == t.index && t'.timestamp == t.timestamp
    ensures Tidy(ks + [OfTrade(t')], w, from, last)
  {
    var was, now := ks + [OfTrade(t)], ks + [OfTrade(t')];
    forall i, j | 0 <= i < j < |now|
      ensures Before(now[i], now[j]) || (now[i].OfCat? && now[j].OfTrade?)
    {
      assert Before(was[i], was[j]) || (was[i].OfCat? && was[j].OfTrade?);
    }
    forall k | k in now ensures Placed(k, w, from) && !Earlier(last.block, last.index, BlockOf(k), IndexOf(k)) {
      if k !in ks { assert OfTrade(t) in was; }
    }
  }

  lemma TidyLater(ks: seq<KNLog>, w: World, from: nat, last: RawLog, l: RawLog)
    requires Tidy(ks, w, from, last) && Earlier(last.block, last.index, l.block, l.index)
    ensures Tidy(ks, w, from, l)
  {}

  lemma TidyInsert(ks: seq<KNLog>, t: TradeLog, c: CatLog, w: World, from: nat, last: RawLog, l: RawLog)
    requires Tidy(ks + [OfTrade(t)], w, from, last) && Earlier(last.block, last.index, l.block, l.index)
    requires Placed(OfCat(c), w, from) && c.block == l.block && c.index == l.index
    ensures Tidy(ks + [OfCat(c)] + [OfTrade(t)], w, from, l)
  {
    var was, now := ks + [OfTrade(t)], ks + [OfCat(c)] + [OfTrade(t)];
    forall i, j | 0 <= i < j < |now|
      ensures Before(now[i], now[j]) || (now[i].OfCat? && now[j].OfTrade?)
    {
      if j < |ks| { assert was[i] == now[i] && was[j] == now[j]; }
      else if i < |ks| {
        assert was[i] == now[i] && was[i] in was;
        assert Before(was[i], was[|ks|]) || (was[i].OfCat? && was[|ks|].OfTrade?);
      }
    }
    forall k | k in now ensures Placed(k, w, from) && !Earlier(l.block, l.index, BlockOf(k), IndexOf(k)) {
      assert k in was || k == OfCat(c);
    }
  }

  lemma GroupTidy(g: Grouping, w: World, from: nat, last: RawLog, l: RawLog)
    requires Tidy(Flush(g), w, from, last) && Earlier(last.block, last.index, l.block, l.index)
    requires (g.prev.None? ==> g.trade.None?) && l in w.chain && from <= l.block
    ensures Tidy(Flush(Group(g, l, Truth(w))), w, from, l)
  {
    var ts := Truth(w);
    if IsCat(l) {
      var c := CatOf(l, ts);
      assert Placed(OfCat(c), w, from);
      if g.trade.Some? { TidyInsert(g.result, g.trade.value, c, w, from, last, l); }
      else { TidyAppend(g.result, OfCat(c), w, from, last, l); }
    } else if g.prev.None? || g.prev.value != l.tx {
      TidyAppend(Flush(g), OfTrade(Absorb(NewTrade(l, ts), l.event)), w, from, last, l);
    } else {
      TidyLater(Flush(g), w, from, last, l);
      if g.trade.Some? {
        TidyReplace(g.result, g.trade.value, Absorb(g.trade.value, l.event), w, from, l);
      }
    }
  }

  /** Kept logs of a block range that starts at `from`. */
  ghost predicate PartOf(kept: seq<RawLog>, w: World, from: nat) {
    Ordered(kept) && forall l :: l in kept ==> l in w.chain && from <= l.block
  }

  lemma PartOfPrefix(kept: seq<RawLog>, w: World, from: nat)
    requires PartOf(kept, w, from) && kept != []
    ensures var n := |kept| - 1;
            && PartOf(kept[..n], w, from) && kept[n] in w.chain && from <= kept[n].block
            && (n > 0 ==> Earlier(kept[n - 1].block, kept[n - 1].index, kept[n].block, kept[n].index))
  {}

  lemma InHand(kept: seq<RawLog>, ts: Timestamps)
    ensures Grouped(kept, ts).prev.None? ==> Grouped(kept, ts).trade.None?
  {
    GroupedOnTrack(kept, ts);
  }

  lemma {:induction false} GroupedTidy(kept: seq<RawLog>, w: World, from: nat)
    requires PartOf(kept, w, from) && kept != []
    ensures Tidy(Flush(Grouped(kept, Truth(w))), w, from, kept[|kept| - 1])
  {
    var n := |kept| - 1;
    var init, l := kept[..n], kept[n];
    PartOfPrefix(kept, w, from);
    assert Grouped(kept, Truth(w)) == Group(Grouped(init, Truth(w)), l, Truth(w));
    if n == 0 {
      FirstTidy(w, from, l);
    } else {
      GroupedTidy(init, w, from);
      InHand(init, Truth(w));
      GroupTidy(Grouped(init, Truth(w)), w, from, init[n - 1], l);
    }
  }

  lemma FirstTidy(w: World, from: nat, l: RawLog)
    requires l in w.chain && from <= l.block
    ensures Tidy(Flush(Group(Nothing, l, Truth(w))), w, from, l)
  {
    var ts := Truth(w);
    var k := if IsCat(l) then OfCat(CatOf(l, ts)) else OfTrade(Absorb(NewTrade(l, ts), l.event));
    assert Flush(Group(Nothing, l, ts)) == [k];
    assert Placed(k, w, from);
  }

  // Storing a tidy result appends it

  /** A tidy result, and its entries. */
  ghost predicate Storable(ks: seq<KNLog>, w: World, from: nat) {
    InOrder(ks) && forall k :: k in ks ==> Placed(k, w, from)
  }

  /** The stored trade logs and category logs come before the block `from`. */
  ghost predicate StoredBefore(s: Logs, w: World, from: nat) {
    && (forall e :: e in s.trades ==> e.version == e.value.timestamp && Placed(OfTrade(e.value), w, 0)
                                      && e.value.block < from)
    && (forall e :: e in s.cats ==> e.version == e.value.timestamp && Placed(OfCat(e.value), w, 0)
                                    && e.value.block < from)
  }

  lemma StampOrder(k: KNLog, k': KNLog, w: World)
    requires Placed(k, w, 0) && Placed(k', w, 0) && Before(k, k')
    ensures TimestampOf(k) < TimestampOf(k') < UINT64
  {
    StampFits(k, w);
    StampFits(k', w);
  }

  lemma StampFits(k: KNLog, w: World)
    requires Placed(k, w, 0)
    ensures TimestampOf(k) == w.time(BlockOf(k)) * BILLION + IndexOf(k) < UINT64
    ensures BlockOf(k) <= w.top && IndexOf(k) < BILLION
  {
    assert BlockOf(k) < w.top ==> w.time(BlockOf(k)) < w.time(w.top);
  }

  lemma {:induction false} EntryOf(ks: seq<KNLog>, t: TradeLog)
    requires t in TradesOf(ks)
    ensures OfTrade(t) in ks
  {
    if t in TradesOf(ks[..|ks| - 1]) { EntryOf(ks[..|ks| - 1], t); }
  }

  lemma {:induction false} CatEntryOf(ks: seq<KNLog>, c: CatLog)
    requires c in CatsOf(ks)
    ensures OfCat(c) in ks
  {
    if c in CatsOf(ks[..|ks| - 1]) { CatEntryOf(ks[..|ks| - 1], c); }
  }

  function Extended(s: Logs, ks: seq<KNLog>): Logs {
    s.(trades := s.trades + KeyedTrades(TradesOf(ks)), cats := s.cats + KeyedCats(CatsOf(ks)))
  }

  /** Everything stored so far comes before an entry that may be put next. */
  lemma NextComesLast(s: Logs, ks: seq<KNLog>, k: KNLog, w: World, from: nat)
    requires Storable(ks + [k], w, from) && StoredBefore(s, w, from)
    ensures forall e :: e in Extended(s, ks).trades ==>
                          Before(OfTrade(e.value), k) && e.version < TimestampOf(k)
    ensures k.OfCat? ==> forall e :: e in Extended(s, ks).cats ==> e.version < TimestampOf(k)
  {
    var all := ks + [k];
    assert all[|ks|] == k && k in all;
    forall e | e in Extended(s, ks).trades ensures Before(OfTrade(e.value), k) && e.version < TimestampOf(k) {
      if e !in s.trades {
        EntryOf(ks, e.value);
        var i :| 0 <= i < |ks| && ks[i] == OfTrade(e.value);
        assert all[i] == ks[i] && all[i] in all;
      }
      StampOrder(OfTrade(e.value), k, w);
    }
    if k.OfCat? {
      forall e | e in Extended(s, ks).cats ensures e.version < TimestampOf(k) {
        if e !in s.cats {
          CatEntryOf(ks, e.value);
          var i :| 0 <= i < |ks| && ks[i] == OfCat(e.value);
          assert all[i] == ks[i] && all[i] in all;
        }
        StampOrder(OfCat(e.value), k, w);
      }
    }
  }

  lemma PutTrade(s: Logs, ks: seq<KNLog>, t: TradeLog)
    requires Accepts(Extended(s, ks).trades, t.block, t.index)
    requires forall e :: e in Extended(s, ks).trades ==> e.version < t.timestamp
    ensures PutLog(Extended(s, ks), OfTrade(t)) == Extended(s, ks + [OfTrade(t)])
  {
    var x := Extended(s, ks);
    AppendEntry(ks, OfTrade(t));
    forall j | 0 <= j < |x.trades| ensures x.trades[j].version < t.timestamp { assert x.trades[j] in x.trades; }
    InsertAbove(x.trades, t.timestamp, t);
    assert TradesOf(ks + [OfTrade(t)]) == TradesOf(ks) + [t] && CatsOf(ks + [OfTrade(t)]) == CatsOf(ks);
    assert KeyedTrades(TradesOf(ks) + [t]) == KeyedTrades(TradesOf(ks)) + [Entry(t.timestamp, t)];
  }

  lemma PutCat(s: Logs, ks: seq<KNLog>, c: CatLog)
    requires Accepts(Extended(s, ks).trades, c.block, c.index)
    requires forall e :: e in Extended(s, ks).cats ==> e.version < c.timestamp
    ensures PutLog(Extended(s, ks), OfCat(c)) == Extended(s, ks + [OfCat(c)])
  {
    var x := Extended(s, ks);
    AppendEntry(ks, OfCat(c));
    forall j | 0 <= j < |x.cats| ensures x.cats[j].version < c.timestamp { assert x.cats[j] in x.cats; }
    InsertAbove(x.cats, c.timestamp, c);
    assert TradesOf(ks + [OfCat(c)]) == TradesOf(ks) && CatsOf(ks + [OfCat(c)]) == CatsOf(ks) + [c];
    assert KeyedCats(CatsOf(ks) + [c]) == KeyedCats(CatsOf(ks)) + [Entry(c.timestamp, c)];
  }

  lemma PutNext(s: Logs, ks: seq<KNLog>, k: KNLog, w: World, from: nat)
    requires Storable(ks + [k], w, from) && StoredBefore(s, w, from) && from > 0
    ensures PutLog(Extended(s, ks), k) == Extended(s, ks + [k])
  {
    var x := Extended(s, ks);
    NextComesLast(s, ks, k, w, from);
    assert k in ks + [k];
    if x.trades != [] { assert x.trades[|x.trades| - 1] in x.trades; }
    if k.OfTrade? { PutTrade(s, ks, k.trade); } else { PutCat(s, ks, k.cat); }
  }

  /** No entry of a tidy result is refused: all are appended, in their order. */
  lemma {:induction false} AllAreStored(s: Logs, ks: seq<KNLog>, w: World, from: nat)
    requires Storable(ks, w, from) && StoredBefore(s, w, from) && from > 0
    ensures PutLogs(s, ks) == Extended(s, ks)
  {
    if ks != [] {
      var init, k := ks[..|ks| - 1], ks[|ks| - 1];
      assert ks == init + [k];
      AllAreStored(s, init, w, from);
      PutNext(s, init, k, w, from);
    }
  }

  // One window

  /** What a node may answer: nothing, or the final logs and block times. */
  ghost predicate Honest(w: World, currentBlock: nat, node: Node, headers: Headers) {
    && REORG_BLOCK_SAFE <= currentBlock < HEIGHTS
    && (forall from: nat, to: nat :: to + REORG_BLOCK_SAFE <= currentBlock ==>
          node(from, to) == None || node(from, to) == Some(Window(w.chain, from, to)))
    && (forall b: nat :: headers(b) == None || headers(b) == Some(w.time(b)))
  }

  /** Timestamps that are right where they are told. */
  ghost predicate Agree(ts: Timestamps, truth: Timestamps) {
    forall b: nat, i: nat :: ts(b, i) == None || ts(b, i) == truth(b, i)
  }

  lemma GroupAgrees(g: Grouping, l: RawLog, ts: Timestamps, truth: Timestamps)
    requires ts(l.block, l.index) == None || ts(l.block, l.index) == truth(l.block, l.index)
    requires Asks(g, l) ==> ts(l.block, l.index).Some?
    ensures Group(g, l, ts) == Group(g, l, truth)
  {}

  lemma TimesKnownPrefix(kept: seq<RawLog>, ts: Timestamps)
    requires kept != [] && TimesKnown(kept, ts)
    ensures TimesKnown(kept[..|kept| - 1], ts)
    ensures var l := kept[|kept| - 1]; Asks(Grouped(kept[..|kept| - 1], ts), l) ==> ts(l.block, l.index).Some?
  {
    var init := kept[..|kept| - 1];
    forall i | 0 <= i < |init| ensures init[..i] == kept[..i] && init[i] == kept[i] {}
  }

  /** A grouping that does not fail is the true one. */
  lemma {:induction false} GroupedAgrees(kept: seq<RawLog>, ts: Timestamps, truth: Timestamps)
    requires Agree(ts, truth) && TimesKnown(kept, ts)
    ensures Grouped(kept, ts) == Grouped(kept, truth)
  {
    if kept != [] {
      var n := |kept| - 1;
      TimesKnownPrefix(kept, ts);
      GroupedAgrees(kept[..n], ts, truth);
      GroupAgrees(Grouped(kept[..n], ts), kept[n], ts, truth);
    }
  }

  ghost function Result(w: World, from: nat, to: nat): seq<KNLog> {
    Finish(Grouped(Selected(w.chain, from, to), Truth(w)))
  }

  lemma FetchedIsTrue(w: World, currentBlock: nat, node: Node, headers: Headers, from: nat, to: nat)
    requires Honest(w, currentBlock, node, headers) && to + REORG_BLOCK_SAFE <= currentBlock
    ensures Fetched(from, to, node, headers) == None || Fetched(from, to, node, headers) == Some(Result(w, from, to))
  {
    SelectedIsKept(w.chain, from, to);
    assert node(from, to) == None || node(from, to) == Some(Window(w.chain, from, to));
    var kept := Selected(w.chain, from, to);
    assert Agree(Interpret(headers), Truth(w));
    if TimesKnown(kept, Interpret(headers)) { GroupedAgrees(kept, Interpret(headers), Truth(w)); }
  }

  /** A query below the margin that answers the true result, or fails. */
  ghost predicate Reliable(w: World, currentBlock: nat, fetch: Fetch) {
    && REORG_BLOCK_SAFE <= currentBlock < HEIGHTS
    && forall from: nat, to: nat :: to + REORG_BLOCK_SAFE <= currentBlock ==>
         fetch(from, to) == None || fetch(from, to) == Some(Result(w, from, to))
  }

  /** `GetLogs` on an honest node is reliable, although it may fail on any of its timestamps. */
  lemma HonestIsReliable(w: World, currentBlock: nat, node: Node, headers: Headers)
    requires Honest(w, currentBlock, node, headers)
    ensures Reliable(w, currentBlock, FetchOf(node, headers))
  {
    var fetch := FetchOf(node, headers);
    forall from: nat, to: nat | to + REORG_BLOCK_SAFE <= currentBlock
      ensures fetch(from, to) == None || fetch(from, to) == Some(Result(w, from, to))
    {
      FetchedIsTrue(w, currentBlock, node, headers, from, to);
    }
  }

  /** The kept logs of a range are part of the chain, and no transaction in it emits both kinds. */
  lemma SelectedIsPart(w: World, from: nat, to: nat)
    ensures var kept := Selected(w.chain, from, to);
            && PartOf(kept, w, from) && NoMixedTx(kept) && forall l :: l in kept ==> l.block <= to
  {
    var kept := Selected(w.chain, from, to);
    SelectedOrdered(w.chain, from, to);
    forall l | l in kept ensures l in w.chain && from <= l.block <= to { SelectedHolds(w.chain, from, to, l); }
    forall i, j | 0 <= i < |kept| && 0 <= j < |kept| && IsCat(kept[i]) && !IsCat(kept[j])
      ensures kept[i].tx != kept[j].tx
    {
      var a :| 0 <= a < |w.chain| && w.chain[a] == kept[i];
      var b :| 0 <= b < |w.chain| && w.chain[b] == kept[j];
    }
  }

  lemma SelectedUnmixed(w: World, from: nat, to: nat)
    ensures NoMixedTx(Selected(w.chain, from, to))
  {
    SelectedIsPart(w, from, to);
  }

  lemma PartIsStorable(kept: seq<RawLog>, w: World, from: nat, to: nat)
    requires PartOf(kept, w, from) && forall l :: l in kept ==> l.block <= to
    ensures Storable(Finish(Grouped(kept, Truth(w))), w, from)
    ensures forall k :: k in Finish(Grouped(kept, Truth(w))) ==> BlockOf(k) <= to
  {
    if kept != [] {
      GroupedTidy(kept, w, from);
      FinishTidy(Grouped(kept, Truth(w)), w, from, kept[|kept| - 1]);
      assert kept[|kept| - 1] in kept;
    }
  }

  lemma ResultIsStorable(w: World, from: nat, to: nat)
    ensures Storable(Result(w, from, to), w, from)
    ensures forall k :: k in Result(w, from, to) ==> BlockOf(k) <= to
  {
    SelectedIsPart(w, from, to);
    PartIsStorable(Selected(w.chain, from, to), w, from, to);
  }

  lemma FinishTidy(g: Grouping, w: World, from: nat, last: RawLog)
    requires Tidy(Flush(g), w, from, last)
    ensures Tidy(Finish(g), w, from, last)
  {
    if Finish(g) != Flush(g) {
      assert Finish(g) == g.result;
      forall i, j | 0 <= i < j < |g.result|
        ensures Before(g.result[i], g.result[j]) || (g.result[i].OfCat? && g.result[j].OfTrade?)
      {
        assert Flush(g)[i] == g.result[i] && Flush(g)[j] == g.result[j];
      }
      assert forall k :: k in g.result ==> k in Flush(g);
    }
  }

  /** The last kept log has an entry of its transaction. */
  lemma LastHasEntry(kept: seq<RawLog>, ts: Timestamps)
    requires NoMixedTx(kept) && kept != []
    ensures exists k :: k in Finish(Grouped(kept, ts)) && TxOf(k) == kept[|kept| - 1].tx
  {
    var ks, l := Finish(Grouped(kept, ts)), kept[|kept| - 1];
    GroupingIsComplete(kept, ts);
    if IsCat(l) {
      assert CatOf(l, ts) in Cats(kept, ts);
      CatEntryOf(ks, CatOf(l, ts));
      assert OfCat(CatOf(l, ts)) in ks;
    } else {
      LastTradeExpected(kept, ts);
      var t := ExpectedTrades(kept, ts)[|ExpectedTrades(kept, ts)| - 1];
      EntryOf(ks, t);
      assert OfTrade(t) in ks;
    }
  }

  lemma LastTradeExpected(kept: seq<RawLog>, ts: Timestamps)
    requires kept != [] && !IsCat(kept[|kept| - 1])
    ensures ExpectedTrades(kept, ts) != []
    ensures ExpectedTrades(kept, ts)[|ExpectedTrades(kept, ts)| - 1].tx == kept[|kept| - 1].tx
  {
    var trades := Trades(kept);
    RunsAreMaximal(trades);
    TradeOfTx(Runs(trades)[|Runs(trades)| - 1], ts);
  }

  lemma {:induction false} TradeOfTx(run: seq<RawLog>, ts: Timestamps)
    requires run != []
    ensures TradeOf(run, ts).tx == run[0].tx
  {
    if |run| > 1 { TradeOfTx(run[..|run| - 1], ts); }
  }

  lemma EntriesUpToLast(w: World, from: nat, to: nat)
    requires Selected(w.chain, from, to) != []
    ensures var kept := Selected(w.chain, from, to); Tidy(Result(w, from, to), w, from, kept[|kept| - 1])
  {
    var kept := Selected(w.chain, from, to);
    SelectedIsPart(w, from, to);
    GroupedTidy(kept, w, from);
    FinishTidy(Grouped(kept, Truth(w)), w, from, kept[|kept| - 1]);
  }

  lemma SameTxSameBlock(k: KNLog, w: World, from: nat, l: RawLog)
    requires Placed(k, w, from) && l in w.chain && TxOf(k) == l.tx
    ensures BlockOf(k) == l.block
  {}

  lemma MaxBlockIs(ks: seq<KNLog>, k: KNLog)
    requires k in ks && forall k' :: k' in ks ==> BlockOf(k') <= BlockOf(k)
    ensures MaxBlock(ks) == BlockOf(k)
  {
    assert forall i :: 0 <= i < |ks| ==> ks[i] in ks;
  }

  /** The greatest block of the entries is that of the last kept log; without kept logs there are no entries. */
  lemma LastBlockOfResult(w: World, from: nat, to: nat)
    ensures var kept, ks := Selected(w.chain, from, to), Result(w, from, to);
            && (kept == [] <==> ks == [])
            && (kept != [] ==> MaxBlock(ks) == kept[|kept| - 1].block)
  {
    var kept, ks := Selected(w.chain, from, to), Result(w, from, to);
    if kept != [] {
      var l := kept[|kept| - 1];
      SelectedHolds(w.chain, from, to, l);
      SelectedUnmixed(w, from, to);
      EntriesUpToLast(w, from, to);
      LastHasEntry(kept, Truth(w));
      var k :| k in ks && TxOf(k) == l.tx;
      SameTxSameBlock(k, w, from, l);
      MaxBlockIs(ks, k);
    }
  }

  // Consecutive windows

  lemma {:induction false} TradesConcat(x: seq<RawLog>, y: seq<RawLog>)
    ensures Trades(x + y) == Trades(x) + Trades(y)
  {
    if y == [] {
      assert x + y == x;
    } else {
      var init, l := y[..|y| - 1], y[|y| - 1];
      TradesConcat(x, init);
      assert y == init + [l] && x + y == (x + init) + [l];
      TradesSnoc(x + init, l);
      TradesSnoc(init, l);
    }
  }

  lemma {:induction false} CatsConcat(x: seq<RawLog>, y: seq<RawLog>, ts: Timestamps)
    ensures Cats(x + y, ts) == Cats(x, ts) + Cats(y, ts)
  {
    if y == [] {
      assert x + y == x;
    } else {
      var init, l := y[..|y| - 1], y[|y| - 1];
      CatsConcat(x, init, ts);
      assert y == init + [l] && x + y == (x + init) + [l];
      CatsSnoc(x + init, l, ts);
      CatsSnoc(init, l, ts);
    }
  }

  /** Runs of two parts are the runs of the whole if the transaction changes between them. */
  lemma {:induction false} RunsConcat(x: seq<RawLog>, y: seq<RawLog>)
    requires x != [] && y != [] ==> x[|x| - 1].tx != y[0].tx
    ensures Runs(x + y) == Runs(x) + Runs(y)
  {
    if y == [] {
      assert x + y == x;
    } else {
      var init, l := y[..|y| - 1], y[|y| - 1];
      RunsConcat(x, init);
      assert y == init + [l] && x + y == (x + init) + [l];
      RunsAppend(x + init, l);
      RunsAppend(init, l);
      ContinuesConcat(x, init, l);
      AddToConcat(Runs(x), Runs(init), Continues(init, l), l);
    }
  }

  lemma ContinuesConcat(x: seq<RawLog>, y: seq<RawLog>, l: RawLog)
    requires x != [] ==> x[|x| - 1].tx != (y + [l])[0].tx
    ensures Continues(x + y, l) == Continues(y, l)
  {
    if y == [] { assert x + y == x; } else { assert (x + y)[|x + y| - 1] == y[|y| - 1]; }
  }

  lemma AddToConcat(a: seq<seq<RawLog>>, b: seq<seq<RawLog>>, continues: bool, l: RawLog)
    requires continues ==> b != []
    ensures AddToRuns(a + b, continues, l) == a + AddToRuns(b, continues, l)
  {}

  lemma TradeLogsConcat(a: seq<seq<RawLog>>, b: seq<seq<RawLog>>, ts: Timestamps)
    requires forall i :: 0 <= i < |a| ==> a[i] != []
    requires forall i :: 0 <= i < |b| ==> b[i] != []
    ensures forall i :: 0 <= i < |a + b| ==> (a + b)[i] != []
    ensures TradeLogs(a + b, ts) == TradeLogs(a, ts) + TradeLogs(b, ts)
  {}

  lemma TxChanges(x: seq<RawLog>, y: seq<RawLog>)
    requires forall l, l' :: l in x && l' in y ==> l.tx != l'.tx
    ensures Trades(x) != [] && Trades(y) != [] ==> Trades(x)[|Trades(x)| - 1].tx != Trades(y)[0].tx
  {
    if Trades(x) != [] && Trades(y) != [] {
      TradesAreKept(x, Trades(x)[|Trades(x)| - 1]);
      TradesAreKept(y, Trades(y)[0]);
    }
  }

  lemma ExpectedConcat(x: seq<RawLog>, y: seq<RawLog>, ts: Timestamps)
    requires forall l, l' :: l in x && l' in y ==> l.tx != l'.tx
    ensures ExpectedTrades(x + y, ts) == ExpectedTrades(x, ts) + ExpectedTrades(y, ts)
  {
    TradesConcat(x, y);
    TxChanges(x, y);
    RunsConcat(Trades(x), Trades(y));
    TradeLogsConcat(Runs(Trades(x)), Runs(Trades(y)), ts);
  }

  lemma KeyedConcat(a: seq<TradeLog>, b: seq<TradeLog>, c: seq<CatLog>, d: seq<CatLog>)
    ensures KeyedTrades(a + b) == KeyedTrades(a) + KeyedTrades(b)
    ensures KeyedCats(c + d) == KeyedCats(c) + KeyedCats(d)
  {}

  lemma LogsConcat(x: seq<RawLog>, y: seq<RawLog>, ts: Timestamps, block: nat)
    requires forall l, l' :: l in x && l' in y ==> l.tx != l'.tx
    requires NoMixedTx(y)
    ensures LogsOf(x + y, ts, block) == Extended(LogsOf(x, ts, block), Finish(Grouped(y, ts)))
  {
    CatsConcat(x, y, ts);
    ExpectedConcat(x, y, ts);
    GroupingIsComplete(y, ts);
    KeyedConcat(ExpectedTrades(x, ts), ExpectedTrades(y, ts), Cats(x, ts), Cats(y, ts));
  }

  lemma DistantTxs(w: World, from: nat, c: nat, c': nat)
    ensures forall l, l' :: l in Selected(w.chain, from, c) && l' in Selected(w.chain, c + 1, c') ==> l.tx != l'.tx
  {
    forall l, l' | l in Selected(w.chain, from, c) && l' in Selected(w.chain, c + 1, c') ensures l.tx != l'.tx {
      SelectedHolds(w.chain, from, c, l);
      SelectedHolds(w.chain, c + 1, c', l');
    }
  }

  lemma RangesConcat(w: World, from: nat, c: nat, c': nat, all: seq<RawLog>, b: nat)
    requires all == Selected(w.chain, from, c) + Selected(w.chain, c + 1, c')
    ensures LogsOf(all, Truth(w), b) ==
            Extended(LogsOf(Selected(w.chain, from, c), Truth(w), b), Result(w, c + 1, c'))
  {
    DistantTxs(w, from, c, c');
    SelectedUnmixed(w, c + 1, c');
    LogsConcat(Selected(w.chain, from, c), Selected(w.chain, c + 1, c'), Truth(w), b);
  }

  /** The grouping up to a later block adds the entries of the blocks between. */
  lemma ExpectedExtends(w: World, c: nat, c': nat, b: nat)
    requires w.deployBlock <= c <= c'
    ensures Expected(w, c', b) == Extended(Expected(w, c, b), Result(w, c + 1, c'))
  {
    SelectedSplit(w.chain, w.deployBlock + 1, c, c');
    RangesConcat(w, w.deployBlock + 1, c, c', Selected(w.chain, w.deployBlock + 1, c'), b);
  }

  lemma StoredEntries(kept: seq<RawLog>, ts: Timestamps, b: nat, ks: seq<KNLog>)
    requires NoMixedTx(kept) && ks == Finish(Grouped(kept, ts))
    ensures forall e :: e in LogsOf(kept, ts, b).trades ==> e.version == e.value.timestamp && OfTrade(e.value) in ks
    ensures forall e :: e in LogsOf(kept, ts, b).cats ==> e.version == e.value.timestamp && OfCat(e.value) in ks
  {
    var s := LogsOf(kept, ts, b);
    GroupingIsComplete(kept, ts);
    forall e | e in s.trades ensures e.version == e.value.timestamp && OfTrade(e.value) in ks {
      EntryOf(ks, e.value);
    }
    forall e | e in s.cats ensures e.version == e.value.timestamp && OfCat(e.value) in ks {
      CatEntryOf(ks, e.value);
    }
  }

  lemma EntriesBefore(s: Logs, ks: seq<KNLog>, w: World, from: nat, c: nat)
    requires Storable(ks, w, from) && forall k :: k in ks ==> BlockOf(k) <= c
    requires forall e :: e in s.trades ==> e.version == e.value.timestamp && OfTrade(e.value) in ks
    requires forall e :: e in s.cats ==> e.version == e.value.timestamp && OfCat(e.value) in ks
    ensures StoredBefore(s, w, c + 1)
  {
    forall k | k in ks ensures Placed(k, w, 0) { assert Placed(k, w, from); }
  }

  lemma StoredIsBefore(s: Logs, kept: seq<RawLog>, ks: seq<KNLog>, w: World, from: nat, c: nat, b: nat)
    requires s == LogsOf(kept, Truth(w), b) && ks == Finish(Grouped(kept, Truth(w))) && NoMixedTx(kept)
    requires Storable(ks, w, from) && forall k :: k in ks ==> BlockOf(k) <= c
    ensures StoredBefore(s, w, c + 1)
  {
    StoredEntries(kept, Truth(w), b, ks);
    EntriesBefore(s, ks, w, from, c);
  }

  lemma PartOfChain(w: World, from: nat, to: nat) returns (kept: seq<RawLog>)
    ensures kept == Selected(w.chain, from, to) && NoMixedTx(kept)
    ensures PartOf(kept, w, from) && forall l :: l in kept ==> l.block <= to
  {
    kept := Selected(w.chain, from, to);
    SelectedIsPart(w, from, to);
  }

  lemma StorablePart(kept: seq<RawLog>, w: World, from: nat, to: nat) returns (ks: seq<KNLog>)
    requires PartOf(kept, w, from) && forall l :: l in kept ==> l.block <= to
    ensures ks == Finish(Grouped(kept, Truth(w)))
    ensures Storable(ks, w, from) && forall k :: k in ks ==> BlockOf(k) <= to
  {
    ks := Finish(Grouped(kept, Truth(w)));
    PartIsStorable(kept, w, from, to);
  }

  /** The kept logs up to a block and the entries stored for them. */
  lemma StoredUpTo(w: World, c: nat, b: nat) returns (kept: seq<RawLog>, ks: seq<KNLog>)
    ensures Expected(w, c, b) == LogsOf(kept, Truth(w), b) && ks == Finish(Grouped(kept, Truth(w)))
    ensures NoMixedTx(kept) && Storable(ks, w, w.deployBlock + 1) && forall k :: k in ks ==> BlockOf(k) <= c
  {
    kept := PartOfChain(w, w.deployBlock + 1, c);
    ks := StorablePart(kept, w, w.deployBlock + 1, c);
  }

  /** What is stored up to a block comes before the next one. */
  lemma ExpectedIsBefore(w: World, c: nat, b: nat)
    ensures StoredBefore(Expected(w, c, b), w, c + 1)
  {
    var kept, ks := StoredUpTo(w, c, b);
    StoredIsBefore(Expected(w, c, b), kept, ks, w, w.deployBlock + 1, c, b);
  }

  lemma LastInRange(w: World, from: nat, to: nat)
    ensures var kept := Selected(w.chain, from, to); kept != [] ==> from <= kept[|kept| - 1].block <= to
  {
    var kept := Selected(w.chain, from, to);
    if kept != [] { SelectedHolds(w.chain, from, to, kept[|kept| - 1]); }
  }

  lemma NextOfLast(c: nat, to: nat, kept: seq<RawLog>, ks: seq<KNLog>)
    requires c < to && (kept == [] <==> ks == [])
    requires kept != [] ==> MaxBlock(ks) == kept[|kept| - 1].block && c < kept[|kept| - 1].block <= to
    ensures NextBlock(c, to, ks) == if kept == [] then to else kept[|kept| - 1].block
  {}

  lemma NextIs(w: World, c: nat, to: nat)
    requires c < to
    ensures var kept, next := Selected(w.chain, c + 1, to), NextBlock(c, to, Result(w, c + 1, to));
            c < next <= to && (kept == [] || kept[|kept| - 1].block <= next)
  {
    LastInRange(w, c + 1, to);
    LastBlockOfResult(w, c + 1, to);
    NextOfLast(c, to, Selected(w.chain, c + 1, to), Result(w, c + 1, to));
  }

  lemma NextIsAhead(w: World, c: nat, to: nat)
    requires c < to
    ensures var next := NextBlock(c, to, Result(w, c + 1, to));
            c < next <= to && Result(w, c + 1, to) == Result(w, c + 1, next)
  {
    NextIs(w, c, to);
    NothingBetween(w, c + 1, NextBlock(c, to, Result(w, c + 1, to)), to);
  }

  /** Storing a window brings the store up to the block of its latest log, or to its end if it is empty. */
  lemma WindowStored(w: World, c: nat, to: nat, b: nat)
    requires w.deployBlock <= c < to
    ensures var ks := Result(w, c + 1, to);
            PutLogs(Expected(w, c, b), ks) == Expected(w, NextBlock(c, to, ks), b)
  {
    var ks := Result(w, c + 1, to);
    ExpectedIsBefore(w, c, b);
    ResultIsStorable(w, c + 1, to);
    AllAreStored(Expected(w, c, b), ks, w, c + 1);
    NextIsAhead(w, c, to);
    ExpectedExtends(w, c, NextBlock(c, to, ks), b);
  }

  /** No log was kept after the last one. */
  lemma NothingBetween(w: World, from: nat, m: nat, to: nat)
    requires from <= m <= to
    requires var kept := Selected(w.chain, from, to); kept == [] || kept[|kept| - 1].block <= m
    ensures Selected(w.chain, from, to) == Selected(w.chain, from, m)
  {
    SelectedSplit(w.chain, from, m, to);
    forall l | l in Selected(w.chain, m + 1, to) ensures m < l.block { SelectedHolds(w.chain, m + 1, to, l); }
  }

  // Ticks

  /** A tick keeps the store exact; its cursor moves exactly if a window is open and answered, and not past the margin. */
  lemma TickIsExact(s: Logs, w: World, currentBlock: nat, fetch: Fetch)
    requires Exact(s, w) && Reliable(w, currentBlock, fetch)
    ensures var s', c := Tick(s, w.deployBlock, currentBlock, fetch), Cursor(s, w.deployBlock);
            var c' := Cursor(s', w.deployBlock);
            && Exact(s', w)
            && (s' == s || c < c' <= currentBlock - REORG_BLOCK_SAFE)
            && (c < c' <==> c + REORG_BLOCK_SAFE < currentBlock && fetch(c + 1, ToBlock(c, currentBlock)).Some?)
  {
    var c := Cursor(s, w.deployBlock);
    var to := ToBlock(c, currentBlock);
    assert Add64(c, 1) == c + 1;
    assert to <= currentBlock - REORG_BLOCK_SAFE && (c < to <==> c + REORG_BLOCK_SAFE < currentBlock);
    AnswerIsExact(s, Tick(s, w.deployBlock, currentBlock, fetch), w, c, to, fetch(c + 1, to));
  }

  lemma AnswerIsExact(s: Logs, s': Logs, w: World, c: nat, to: nat, answer: Option<seq<KNLog>>)
    requires Exact(s, w) && c == Cursor(s, w.deployBlock) && to < HEIGHTS
    requires answer == None || answer == Some(Result(w, c + 1, to))
    requires s' == if c < to then Advance(s, c, to, answer) else s
    ensures Exact(s', w) && (s' == s || c < Cursor(s', w.deployBlock) <= to)
    ensures c < Cursor(s', w.deployBlock) <==> c < to && answer.Some?
  {
    if c < to && answer.Some? {
      NextIsAhead(w, c, to);
      WindowStored(w, c, to, s.block);
    }
  }

  datatype TickInput = TickInput(currentBlock: nat, fetch: Fetch)

  ghost function AfterTicks(s: Logs, w: World, ticks: seq<TickInput>): Logs
    requires Exact(s, w)
    requires forall t :: t in ticks ==> Reliable(w, t.currentBlock, t.fetch)
    ensures Exact(AfterTicks(s, w, ticks), w)
  {
    if ticks == [] then s
    else
      var before, t := AfterTicks(s, w, ticks[..|ticks| - 1]), ticks[|ticks| - 1];
      TickIsExact(before, w, t.currentBlock, t.fetch);
      Tick(before, w.deployBlock, t.currentBlock, t.fetch)
  }

  const Empty := Logs([], [], 0)

  /**
   * From an empty store, after every run of ticks the store holds exactly the
   * grouping of the logs from the contract's first block to the cursor, which
   * never comes closer to a head than the margin.
   */
  lemma {:induction false} RunIsExact(w: World, ticks: seq<TickInput>)
    requires forall t :: t in ticks ==> Reliable(w, t.currentBlock, t.fetch)
    ensures Exact(Empty, w)
    ensures var s := AfterTicks(Empty, w, ticks);
            var c := Cursor(s, w.deployBlock);
            && s == Expected(w, c, s.block)
            && (c == w.deployBlock || exists t :: t in ticks && c + REORG_BLOCK_SAFE <= t.currentBlock)
  {
    EmptyIsExact(w);
    if ticks != [] {
      var n := |ticks| - 1;
      var t := ticks[n];
      RunIsExact(w, ticks[..n]);
      TickIsExact(AfterTicks(Empty, w, ticks[..n]), w, t.currentBlock, t.fetch);
      assert t in ticks && forall t' :: t' in ticks[..n] ==> t' in ticks;
    }
  }

  lemma NoLogs(ts: Timestamps)
    ensures LogsOf([], ts, 0) == Empty
  {
    GroupedOnTrack([], ts);
  }

  lemma EmptyIsExact(w: World)
    ensures Exact(Empty, w)
  {
    SelectedEmpty(w.chain, w.deployBlock + 1, w.deployBlock);
    NoLogs(Truth(w));
  }

  /** Trade logs are yielded, and so stored, in the order of their timestamps. */
  lemma {:induction false} TradesIncrease(ks: seq<KNLog>, w: World, from: nat)
    requires Storable(ks, w, from)
    ensures Increasing(KeyedTrades(TradesOf(ks)))
  {
    if ks != [] {
      var init, k := ks[..|ks| - 1], ks[|ks| - 1];
      assert ks == init + [k] && k in ks;
      TradesIncrease(init, w, from);
      NextComesLast(Empty, init, k, w, from);
      AppendEntry(init, k);
      StampFits(k, w);
      var trades := KeyedTrades(TradesOf(init));
      assert Extended(Empty, init).trades == trades;
      if k.OfTrade? {
        IncreasingAppend(trades, k.trade);
        assert KeyedTrades(TradesOf(init) + [k.trade]) == trades + [Entry(k.trade.timestamp, k.trade)];
      } else {
        assert TradesOf(ks) == TradesOf(init);
      }
    }
  }

  lemma IncreasingAppend(b: seq<Entry<TradeLog>>, t: TradeLog)
    requires Increasing(b) && t.timestamp < UINT64 && forall e :: e in b ==> e.version < t.timestamp
    ensures Increasing(b + [Entry(t.timestamp, t)])
  {
    assert forall i :: 0 <= i < |b| ==> b[i] in b;
  }

  lemma ExpectedIncreases(w: World, c: nat, b: nat)
    ensures Increasing(Expected(w, c, b).trades)
  {
    var kept, ks := StoredUpTo(w, c, b);
    TradesIncrease(ks, w, w.deployBlock + 1);
    TradesOfLogs(kept, Truth(w), b);
  }

  lemma TradesOfLogs(kept: seq<RawLog>, ts: Timestamps, b: nat)
    requires NoMixedTx(kept)
    ensures LogsOf(kept, ts, b).trades == KeyedTrades(TradesOf(Finish(Grouped(kept, ts))))
  {
    GroupingIsComplete(kept, ts);
  }

  /** A tick only appends to the stored trade logs, and the new ones are later than all stored before. */
  lemma ArrivalsComeLater(s: Logs, w: World, currentBlock: nat, fetch: Fetch)
    requires Exact(s, w) && Reliable(w, currentBlock, fetch)
    ensures var s' := Tick(s, w.deployBlock, currentBlock, fetch);
            s.trades <= s'.trades && Increasing(s'.trades)
  {
    var s' := Tick(s, w.deployBlock, currentBlock, fetch);
    var c, c' := Cursor(s, w.deployBlock), Cursor(s', w.deployBlock);
    TickIsExact(s, w, currentBlock, fetch);
    ExpectedExtends(w, c, c', s.block);
    ExpectedIncreases(w, c', s'.block);
  }

  ghost function Repeat(s: Logs, w: World, t: TickInput, n: nat): Logs
    requires Exact(s, w) && Reliable(w, t.currentBlock, t.fetch)
    ensures Exact(Repeat(s, w, t, n), w)
    decreases n
  {
    if n == 0 then s
    else
      TickIsExact(s, w, t.currentBlock, t.fetch);
      Repeat(Tick(s, w.deployBlock, t.currentBlock, t.fetch), w, t, n - 1)
  }

  ghost predicate Answers(t: TickInput) {
    t.currentBlock >= REORG_BLOCK_SAFE &&
    forall from: nat, to: nat :: to <= t.currentBlock - REORG_BLOCK_SAFE ==> t.fetch(from, to).Some?
  }

  lemma TickApproaches(s: Logs, w: World, t: TickInput)
    requires Exact(s, w) && Reliable(w, t.currentBlock, t.fetch) && Answers(t)
    requires Cursor(s, w.deployBlock) <= t.currentBlock - REORG_BLOCK_SAFE
    ensures var s', c, safe := Tick(s, w.deployBlock, t.currentBlock, t.fetch), Cursor(s, w.deployBlock),
                               t.currentBlock - REORG_BLOCK_SAFE;
            && Exact(s', w) && Cursor(s', w.deployBlock) <= safe
            && (c == Cursor(s', w.deployBlock) == safe || c < Cursor(s', w.deployBlock))
  {
    TickIsExact(s, w, t.currentBlock, t.fetch);
    var c := Cursor(s, w.deployBlock);
    assert ToBlock(c, t.currentBlock) <= t.currentBlock - REORG_BLOCK_SAFE;
  }

  /** Queries that answer bring the cursor exactly to the margin, in at most as many ticks as there are blocks. */
  lemma {:induction false} CatchUp(s: Logs, w: World, t: TickInput, n: nat)
    requires Exact(s, w) && Reliable(w, t.currentBlock, t.fetch) && Answers(t)
    requires Cursor(s, w.deployBlock) <= t.currentBlock - REORG_BLOCK_SAFE <= Cursor(s, w.deployBlock) + n
    ensures Cursor(Repeat(s, w, t, n), w.deployBlock) == t.currentBlock - REORG_BLOCK_SAFE
    decreases n
  {
    if n > 0 {
      TickApproaches(s, w, t);
      CatchUp(Tick(s, w.deployBlock, t.currentBlock, t.fetch), w, t, n - 1);
    }
  }

  /** The stored trade logs are keyed by times between the first second and the last one of the chain. */
  lemma StoredTimes(s: Logs, w: World)
    requires Exact(s, w)
    ensures forall e :: e in s.trades ==>
              e.version == e.value.timestamp && BILLION <= e.version < (w.time(w.top) + 1) * BILLION
  {
    var kept, ks := StoredUpTo(w, Cursor(s, w.deployBlock), s.block);
    StoredEntries(kept, Truth(w), s.block, ks);
    forall e | e in s.trades ensures BILLION <= e.version < (w.time(w.top) + 1) * BILLION {
      EntryTime(OfTrade(e.value), w);
    }
  }

  lemma EntryTime(k: KNLog, w: World)
    requires Placed(k, w, w.deployBlock + 1)
    ensures BILLION <= TimestampOf(k) < (w.time(w.top) + 1) * BILLION
  {
    StampFits(k, w);
    assert w.time(0) < w.time(BlockOf(k));
    assert BlockOf(k) < w.top ==> w.time(BlockOf(k)) < w.time(w.top);
  }

  // A head below the margin

  lemma SomethingAdded(s: Logs, ks: seq<KNLog>)
    ensures Extended(s, ks) == s <==> ks == []
  {
    if ks == [] {
      assert KeyedTrades([]) == [] && KeyedCats([]) == [];
      assert s.trades + [] == s.trades && s.cats + [] == s.cats;
    } else {
      var init, k := ks[..|ks| - 1], ks[|ks| - 1];
      assert ks == init + [k];
      AppendEntry(init, k);
      assert |KeyedTrades(TradesOf(ks))| + |KeyedCats(CatsOf(ks))| > 0;
      assert |Extended(s, ks).trades| + |Extended(s, ks).cats| > |s.trades| + |s.cats|;
    }
  }

  lemma SkippedExactly(w: World, c: nat, to: nat, b: nat)
    requires w.deployBlock <= c < to
    ensures Expected(w, c, b) == Expected(w, to, b) <==> Selected(w.chain, c + 1, to) == []
  {
    ExpectedExtends(w, c, to, b);
    SomethingAdded(Expected(w, c, b), Result(w, c + 1, to));
    LastBlockOfResult(w, c + 1, to);
  }

  /**
   * With a head below the margin the window ignores it. A node that has nothing
   * to answer yet then moves the cursor over the whole window, and the store
   * stays exact if and only if no log will ever be kept in those blocks.
   */
  lemma LowHeadSkips(s: Logs, w: World, currentBlock: nat, fetch: Fetch)
    requires Exact(s, w) && currentBlock < REORG_BLOCK_SAFE
    requires var c := Cursor(s, w.deployBlock);
             c + 1 + BLOCKS_PER_TICK < HEIGHTS && fetch(c + 1, c + 1 + BLOCKS_PER_TICK) == Some([])
    ensures var s', c := Tick(s, w.deployBlock, currentBlock, fetch), Cursor(s, w.deployBlock);
            var to := c + 1 + BLOCKS_PER_TICK;
            && Cursor(s', w.deployBlock) == to
            && (Exact(s', w) <==> Selected(w.chain, c + 1, to) == [])
  {
    var c := Cursor(s, w.deployBlock);
    var to := c + 1 + BLOCKS_PER_TICK;
    WindowIsSafe(c, currentBlock);
    assert Add64(c, 1) == c + 1;
    SkippedBy(s, s.(block := to), w, c, to);
  }

  lemma SkippedBy(s: Logs, s': Logs, w: World, c: nat, to: nat)
    requires Exact(s, w) && c == Cursor(s, w.deployBlock) && c < to < HEIGHTS && s' == s.(block := to)
    ensures Exact(s', w) <==> Selected(w.chain, c + 1, to) == []
  {
    SkippedExactly(w, c, to, to);
  }

  // Fetching again

  /** A log at or before the last stored trade log, or at the origin, is refused; any other one is put. */
  lemma PutExactly(s: Logs, k: KNLog)
    ensures var last := if s.trades == [] then (0, 0)
                        else (s.trades[|s.trades| - 1].value.block, s.trades[|s.trades| - 1].value.index);
            if BlockOf(k) < last.0 || (BlockOf(k) == last.0 && IndexOf(k) <= last.1) then PutLog(s, k) == s
            else if k.OfTrade? then PutLog(s, k) == Logs(Insert(s.trades, k.trade.timestamp, k.trade), s.cats, s.block)
            else PutLog(s, k) == Logs(s.trades, Insert(s.cats, k.cat.timestamp, k.cat), s.block)
  {}

  lemma {:induction false} TradesInOrder(ks: seq<KNLog>, w: World, from: nat)
    requires Storable(ks, w, from)
    ensures var ts := TradesOf(ks);
            forall i, j :: 0 <= i < j < |ts| ==> Earlier(ts[i].block, ts[i].index, ts[j].block, ts[j].index)
  {
    if ks != [] {
      var init, k := ks[..|ks| - 1], ks[|ks| - 1];
      assert ks == init + [k];
      TradesInOrder(init, w, from);
      NextComesLast(Empty, init, k, w, from);
      AppendEntry(init, k);
      var trades := KeyedTrades(TradesOf(init));
      assert Extended(Empty, init).trades == trades;
      forall i | 0 <= i < |TradesOf(init)|
        ensures Before(OfTrade(TradesOf(init)[i]), k)
      {
        assert trades[i] in trades && trades[i].value == TradesOf(init)[i];
      }
    }
  }

  /** A trade log that is offered again, as after a window was fetched twice, is refused. */
  lemma StoredTwiceIsRefused(s: Logs, w: World, i: nat)
    requires Exact(s, w) && i < |s.trades|
    ensures PutLog(s, OfTrade(s.trades[i].value)) == s
  {
    var kept, ks := StoredUpTo(w, Cursor(s, w.deployBlock), s.block);
    TradesInOrder(ks, w, w.deployBlock + 1);
    TradesOfLogs(kept, Truth(w), s.block);
    assert s.trades == KeyedTrades(TradesOf(ks));
  }

  /** Where an answered tick leaves the cursor: at the block of the last log kept in its window, or at its end. */
  lemma CursorExactly(s: Logs, w: World, currentBlock: nat, fetch: Fetch)
    requires Exact(s, w) && Reliable(w, currentBlock, fetch)
    requires var c := Cursor(s, w.deployBlock);
             c + 7 < currentBlock && fetch(c + 1, ToBlock(c, currentBlock)).Some?
    ensures var c := Cursor(s, w.deployBlock);
            var to := ToBlock(c, currentBlock);
            var kept := Selected(w.chain, c + 1, to);
            Cursor(Tick(s, w.deployBlock, currentBlock, fetch), w.deployBlock) ==
              if kept == [] then to else kept[|kept| - 1].block
  {
    var c := Cursor(s, w.deployBlock);
    var to := ToBlock(c, currentBlock);
    WindowIsSafe(c, currentBlock);
    assert Add64(c, 1) == c + 1;
    LastInRange(w, c + 1, to);
    LastBlockOfResult(w, c + 1, to);
    NextOfLast(c, to, Selected(w.chain, c + 1, to), Result(w, c + 1, to));
  }
}

/**
 * Folding raw chain events into trade logs and category logs
 * (`GetLogs`, blockchain/blockchain.go).
 */
module LogGrouping {
  import opened Wrappers

  datatype Event =
    | UserCat(user: nat, category: string)
    | FeeToWallet(reserve: nat, wallet: nat, walletFee: int)
    | BurnFee(burner: nat, burnFee: int)
    | TradeEvent(trader: nat, src: nat, dest: nat, srcAmount: int, destAmount: int)

  datatype RawLog = RawLog(tx: nat, block: nat, index: nat, removed: bool, event: Event)

  datatype TradeLog = TradeLog(
    tx: nat, block: nat, index: nat, timestamp: nat, reserve: nat, wallet: nat, walletFee: Option<int>,
    burnFee: Option<int>, trader: nat, src: nat, dest: nat, srcAmount: Option<int>, destAmount: Option<int>)

  datatype CatLog = CatLog(tx: nat, block: nat, index: nat, timestamp: nat, user: nat, category: string)

  datatype KNLog = OfTrade(trade: TradeLog) | OfCat(cat: CatLog)

  /** `InterpretTimestamp`, which may fail. */
  type Timestamps = (nat, nat) -> Option<nat>

  predicate IsCat(l: RawLog) { l.event.UserCat? }

  function TxOf(k: KNLog): nat { if k.OfTrade? then k.trade.tx else k.cat.tx }

  function BlockOf(k: KNLog): nat { if k.OfTrade? then k.trade.block else k.cat.block }

  function IndexOf(k: KNLog): nat { if k.OfTrade? then k.trade.index else k.cat.index }

  function TimeOf(ts: Timestamps, block: nat, index: nat): nat {
    var t := ts(block, index); if t.Some? then t.value else 0
  }

  /** The event of a log written into its trade log. */
  function Absorb(t: TradeLog, e: Event): TradeLog {
    match e
    case UserCat(_, _) => t
    case FeeToWallet(reserve, wallet, fee) => t.(reserve := reserve, wallet := wallet, walletFee := Some(fee))
    case BurnFee(reserve, fee) => t.(reserve := reserve, burnFee := Some(fee))
    case TradeEvent(trader, src, dest, srcAmount, destAmount) =>
      t.(trader := trader, src := src, dest := dest, srcAmount := Some(srcAmount), destAmount := Some(destAmount))
  }

  function NewTrade(l: RawLog, ts: Timestamps): TradeLog {
    TradeLog(l.tx, l.block, l.index, TimeOf(ts, l.block, l.index), 0, 0, None, None, 0, 0, 0, None, None)
  }

  function CatOf(l: RawLog, ts: Timestamps): CatLog
    requires IsCat(l)
  {
    CatLog(l.tx, l.block, l.index, TimeOf(ts, l.block, l.index), l.event.user, l.event.category)
  }

  // The loop of GetLogs

  /** `prev` is the transaction of the last trade-type log, `trade` the trade log being filled. */
  datatype Grouping = Grouping(prev: Option<nat>, trade: Option<TradeLog>, result: seq<KNLog>)

  function Flush(g: Grouping): seq<KNLog> {
    if g.trade.Some? then g.result + [OfTrade(g.trade.value)] else g.result
  }

  /** One kept log, with timestamps that can be told. */
  function Group(g: Grouping, l: RawLog, ts: Timestamps): Grouping {
    if IsCat(l) then
      g.(result := (if g.prev.None? then Flush(g) else g.result) + [OfCat(CatOf(l, ts))])
    else if g.prev.None? || g.prev.value != l.tx then
      Grouping(Some(l.tx), Some(Absorb(NewTrade(l, ts), l.event)), Flush(g))
    else
      Grouping(Some(l.tx), if g.trade.Some? then Some(Absorb(g.trade.value, l.event)) else None, g.result)
  }

  const Nothing := Grouping(None, None, [])

  function Kept(logs: seq<RawLog>): seq<RawLog> {
    if logs == [] then []
    else Kept(logs[..|logs| - 1]) + (if logs[|logs| - 1].removed then [] else [logs[|logs| - 1]])
  }

  function Grouped(kept: seq<RawLog>, ts: Timestamps): Grouping {
    if kept == [] then Nothing
    else Group(Grouped(kept[..|kept| - 1], ts), kept[|kept| - 1], ts)
  }

  /** The last trade log is added unless the last entry already has its transaction. */
  function Finish(g: Grouping): seq<KNLog> {
    if g.trade.Some? && (g.result == [] || g.trade.value.tx != TxOf(g.result[|g.result| - 1]))
    then g.result + [OfTrade(g.trade.value)]
    else g.result
  }

  /** The timestamps that the loop asks for: of category logs, and of the logs that start a trade log. */
  predicate Asks(g: Grouping, l: RawLog) {
    IsCat(l) || g.prev.None? || g.prev.value != l.tx
  }

  ghost predicate TimesKnown(kept: seq<RawLog>, ts: Timestamps) {
    forall i :: 0 <= i < |kept| && Asks(Grouped(kept[..i], ts), kept[i]) ==> ts(kept[i].block, kept[i].index).Some?
  }

  /** The body of the loop for a log that is not removed; `ok` is false if a timestamp cannot be told. */
  method GroupOne(g: Grouping, l: RawLog, ts: Timestamps) returns (ok: bool, next: Grouping)
    ensures ok <==> (Asks(g, l) ==> ts(l.block, l.index).Some?)
    ensures ok ==> next == Group(g, l, ts)
  {
    var prevLog, tradeLog, result := g.prev, g.trade, g.result;
    if prevLog.None? || (prevLog.value != l.tx && !IsCat(l)) {
      if tradeLog.Some? {
        result := result + [OfTrade(tradeLog.value)];
      }
      if !IsCat(l) {
        if ts(l.block, l.index).None? {
          return false, g;
        }
        tradeLog := Some(NewTrade(l, ts));
      }
    }
    if IsCat(l) {
      if ts(l.block, l.index).None? {
        return false, g;
      }
      result := result + [OfCat(CatOf(l, ts))];
    } else {
      if tradeLog.Some? {
        tradeLog := Some(Absorb(tradeLog.value, l.event));
      }
      prevLog := Some(l.tx);
    }
    return true, Grouping(prevLog, tradeLog, result);
  }

  /** `GetLogs` on the raw logs of a block range; it fails exactly when a timestamp cannot be told. */
  method GetLogs(logs: seq<RawLog>, ts: Timestamps) returns (r: Result<seq<KNLog>>)
    ensures r.Ok? <==> TimesKnown(Kept(logs), ts)
    ensures r.Ok? ==> r.value == Finish(Grouped(Kept(logs), ts))
  {
    var g := Nothing;
    for i := 0 to |logs|
      invariant g == Grouped(Kept(logs[..i]), ts)
      invariant TimesKnown(Kept(logs[..i]), ts)
    {
      var l := logs[i];
      if l.removed {
        KeepNone(logs, i);
      } else {
        KeepOne(logs, i, ts);
        var ok, next := GroupOne(g, l, ts);
        if !ok {
          TimeUnknown(logs, i, ts);
          return Err("timestamp");
        }
        g := next;
      }
    }
    assert logs[..|logs|] == logs;
    r := Ok(Finish(g));
  }

  lemma KeepNone(logs: seq<RawLog>, i: nat)
    requires i < |logs| && logs[i].removed
    ensures Kept(logs[..i + 1]) == Kept(logs[..i])
  {
    assert logs[..i + 1][..i] == logs[..i];
  }

  lemma KeepOne(logs: seq<RawLog>, i: nat, ts: Timestamps)
    requires i < |logs| && !logs[i].removed
    ensures var kept := Kept(logs[..i]);
            && Kept(logs[..i + 1]) == kept + [logs[i]]
            && Grouped(Kept(logs[..i + 1]), ts) == Group(Grouped(kept, ts), logs[i], ts)
            && (TimesKnown(kept, ts) && (Asks(Grouped(kept, ts), logs[i]) ==> ts(logs[i].block, logs[i].index).Some?)
                ==> TimesKnown(Kept(logs[..i + 1]), ts))
  {
    var kept := Kept(logs[..i]);
    assert logs[..i + 1][..i] == logs[..i];
    var more := kept + [logs[i]];
    assert more[..|kept|] == kept;
    forall j | 0 <= j < |kept| ensures more[..j] == kept[..j] && more[j] == kept[j] {}
  }

  lemma {:induction false} KeptPrefix(logs: seq<RawLog>, i: nat)
    requires i <= |logs|
    ensures |Kept(logs[..i])| <= |Kept(logs)| && Kept(logs)[..|Kept(logs[..i])|] == Kept(logs[..i])
  {
    if i == |logs| {
      assert logs[..i] == logs;
    } else {
      var n := |logs| - 1;
      KeptPrefix(logs[..n], i);
      assert logs[..n][..i] == logs[..i];
    }
  }

  lemma TimeUnknown(logs: seq<RawLog>, i: nat, ts: Timestamps)
    requires i < |logs| && !logs[i].removed
    requires Asks(Grouped(Kept(logs[..i]), ts), logs[i]) && ts(logs[i].block, logs[i].index).None?
    ensures !TimesKnown(Kept(logs), ts)
  {
    KeepOne(logs, i, ts);
    KeptPrefix(logs, i + 1);
    KeptPrefix(logs, i);
    var k := |Kept(logs[..i])|;
    assert Kept(logs)[..k] == Kept(logs[..i]);
    assert Kept(logs)[k] == Kept(logs)[..k + 1][k] == logs[i];
  }

  // What the result should be: runs of trade-type logs, and category logs

  function Trades(kept: seq<RawLog>): seq<RawLog> {
    if kept == [] then []
    else Trades(kept[..|kept| - 1]) + (if IsCat(kept[|kept| - 1]) then [] else [kept[|kept| - 1]])
  }

  function Cats(kept: seq<RawLog>, ts: Timestamps): seq<CatLog> {
    if kept == [] then []
    else Cats(kept[..|kept| - 1], ts) + (if IsCat(kept[|kept| - 1]) then [CatOf(kept[|kept| - 1], ts)] else [])
  }

  /** The maximal runs of consecutive logs with one transaction. */
  function Runs(s: seq<RawLog>): (r: seq<seq<RawLog>>)
    ensures s == [] <==> r == []
    ensures forall i :: 0 <= i < |r| ==> r[i] != []
  {
    if s == [] then []
    else
      var before, l := Runs(s[..|s| - 1]), s[|s| - 1];
      if before != [] && s[|s| - 2].tx == l.tx
      then before[|before| - 1 := before[|before| - 1] + [l]]
      else before + [[l]]
  }

  function Flatten(runs: seq<seq<RawLog>>): seq<RawLog> {
    if runs == [] then [] else Flatten(runs[..|runs| - 1]) + runs[|runs| - 1]
  }

  ghost predicate OneTx(run: seq<RawLog>) {
    run != [] && forall i :: 0 <= i < |run| ==> run[i].tx == run[0].tx
  }

  predicate Continues(s: seq<RawLog>, l: RawLog) { s != [] && s[|s| - 1].tx == l.tx }

  function AddToRuns(runs: seq<seq<RawLog>>, continues: bool, l: RawLog): seq<seq<RawLog>> {
    if continues && runs != [] then runs[|runs| - 1 := runs[|runs| - 1] + [l]] else runs + [[l]]
  }

  lemma RunsAppend(s: seq<RawLog>, l: RawLog)
    ensures Runs(s + [l]) == AddToRuns(Runs(s), Continues(s, l), l)
  {
    assert (s + [l])[..|s|] == s;
  }

  lemma FlattenAppend(runs: seq<seq<RawLog>>, run: seq<RawLog>)
    ensures Flatten(runs + [run]) == Flatten(runs) + run
  {
    assert (runs + [run])[..|runs|] == runs;
  }

  lemma FlattenAdd(runs: seq<seq<RawLog>>, continues: bool, l: RawLog)
    ensures Flatten(AddToRuns(runs, continues, l)) == Flatten(runs) + [l]
  {
    if continues && runs != [] {
      var n := |runs| - 1;
      assert runs == runs[..n] + [runs[n]];
      assert AddToRuns(runs, continues, l) == runs[..n] + [runs[n] + [l]];
      FlattenAppend(runs[..n], runs[n]);
      FlattenAppend(runs[..n], runs[n] + [l]);
    } else {
      FlattenAppend(runs, [l]);
    }
  }

  /** Each run has one transaction, and neighbouring runs have different ones. */
  ghost predicate CutAtChanges(runs: seq<seq<RawLog>>) {
    && (forall i :: 0 <= i < |runs| ==> OneTx(runs[i]))
    && (forall i :: 0 < i < |runs| ==> runs[i - 1][0].tx != runs[i][0].tx)
  }

  lemma AddKeepsCuts(runs: seq<seq<RawLog>>, l: RawLog)
    requires CutAtChanges(runs)
    ensures CutAtChanges(AddToRuns(runs, runs != [] && runs[|runs| - 1][0].tx == l.tx, l))
  {}

  /** The runs cut the sequence exactly where the transaction changes. */
  lemma {:induction false} RunsAreMaximal(s: seq<RawLog>)
    ensures Flatten(Runs(s)) == s
    ensures CutAtChanges(Runs(s))
    ensures s != [] ==> Runs(s) != [] && Runs(s)[|Runs(s)| - 1][0].tx == s[|s| - 1].tx
  {
    if s != [] {
      var init, l := s[..|s| - 1], s[|s| - 1];
      assert s == init + [l];
      RunsAreMaximal(init);
      RunsAppend(init, l);
      FlattenAdd(Runs(init), Continues(init, l), l);
      AddKeepsCuts(Runs(init), l);
    }
  }

  /** The trade log of a run: started by its first log, and filled by all of them in order. */
  function TradeOf(run: seq<RawLog>, ts: Timestamps): TradeLog
    requires run != []
  {
    if |run| == 1 then Absorb(NewTrade(run[0], ts), run[0].event)
    else Absorb(TradeOf(run[..|run| - 1], ts), run[|run| - 1].event)
  }

  function TradeLogs(runs: seq<seq<RawLog>>, ts: Timestamps): seq<TradeLog>
    requires forall i :: 0 <= i < |runs| ==> runs[i] != []
  {
    seq(|runs|, i requires 0 <= i < |runs| => TradeOf(runs[i], ts))
  }

  function TradesOf(result: seq<KNLog>): seq<TradeLog> {
    if result == [] then []
    else TradesOf(result[..|result| - 1]) + (var k := result[|result| - 1]; if k.OfTrade? then [k.trade] else [])
  }

  function CatsOf(result: seq<KNLog>): seq<CatLog> {
    if result == [] then []
    else CatsOf(result[..|result| - 1]) + (var k := result[|result| - 1]; if k.OfCat? then [k.cat] else [])
  }

  lemma AppendEntry(result: seq<KNLog>, k: KNLog)
    ensures TradesOf(result + [k]) == TradesOf(result) + (if k.OfTrade? then [k.trade] else [])
    ensures CatsOf(result + [k]) == CatsOf(result) + (if k.OfCat? then [k.cat] else [])
  {
    assert (result + [k])[..|result|] == result;
  }

  function ExpectedTrades(kept: seq<RawLog>, ts: Timestamps): seq<TradeLog> {
    TradeLogs(Runs(Trades(kept)), ts)
  }

  /** What the loop holds after each log: everything expected, the last trade log still in hand. */
  ghost predicate OnTrack(g: Grouping, kept: seq<RawLog>, ts: Timestamps) {
    && CatsOf(g.result) == Cats(kept, ts)
    && TradesOf(Flush(g)) == ExpectedTrades(kept, ts)
    && (g.trade.Some? <==> Trades(kept) != []) && (g.prev.Some? <==> Trades(kept) != [])
    && (Trades(kept) != [] ==> g.prev.value == Trades(kept)[|Trades(kept)| - 1].tx == g.trade.value.tx)
  }

  lemma TradesSnoc(kept: seq<RawLog>, l: RawLog)
    ensures Trades(kept + [l]) == if IsCat(l) then Trades(kept) else Trades(kept) + [l]
  {
    assert (kept + [l])[..|kept|] == kept;
  }

  lemma TradeOfSnoc(run: seq<RawLog>, l: RawLog, ts: Timestamps)
    requires run != []
    ensures TradeOf(run + [l], ts) == Absorb(TradeOf(run, ts), l.event)
  {
    assert (run + [l])[..|run|] == run;
  }

  lemma TradeLogsAdd(runs: seq<seq<RawLog>>, continues: bool, l: RawLog, ts: Timestamps)
    requires forall i :: 0 <= i < |runs| ==> runs[i] != []
    ensures forall i :: 0 <= i < |AddToRuns(runs, continues, l)| ==> AddToRuns(runs, continues, l)[i] != []
    ensures var logs := TradeLogs(runs, ts);
            TradeLogs(AddToRuns(runs, continues, l), ts) ==
              if continues && logs != []
              then logs[|logs| - 1 := Absorb(logs[|logs| - 1], l.event)]
              else logs + [Absorb(NewTrade(l, ts), l.event)]
  {
    if continues && runs != [] { TradeOfSnoc(runs[|runs| - 1], l, ts); }
  }

  /** Appending a log extends the last run or starts a new one. */
  lemma TradesAppend(kept: seq<RawLog>, l: RawLog, ts: Timestamps)
    requires !IsCat(l)
    ensures var before, logs := Trades(kept), ExpectedTrades(kept, ts);
            && Trades(kept + [l]) == before + [l]
            && (logs == [] <==> before == [])
            && ExpectedTrades(kept + [l], ts) ==
                 if Continues(before, l)
                 then logs[|logs| - 1 := Absorb(logs[|logs| - 1], l.event)]
                 else logs + [Absorb(NewTrade(l, ts), l.event)]
  {
    TradesSnoc(kept, l);
    RunsAppend(Trades(kept), l);
    TradeLogsAdd(Runs(Trades(kept)), Continues(Trades(kept), l), l, ts);
  }

  lemma CatsSnoc(kept: seq<RawLog>, l: RawLog, ts: Timestamps)
    ensures Cats(kept + [l], ts) == Cats(kept, ts) + (if IsCat(l) then [CatOf(l, ts)] else [])
  {
    assert (kept + [l])[..|kept|] == kept;
  }

  /** A log of the same transaction fills the trade log in hand. */
  lemma GroupSameTx(g: Grouping, kept: seq<RawLog>, l: RawLog, ts: Timestamps)
    requires OnTrack(g, kept, ts) && !IsCat(l) && g.prev == Some(l.tx)
    ensures OnTrack(Group(g, l, ts), kept + [l], ts)
  {
    var g' := Group(g, l, ts);
    CatsSnoc(kept, l, ts);
    TradesAppend(kept, l, ts);
    AppendEntry(g.result, OfTrade(g.trade.value));
    AppendEntry(g.result, OfTrade(g'.trade.value));
    assert ExpectedTrades(kept, ts) == TradesOf(g.result) + [g.trade.value];
    assert TradesOf(Flush(g')) == TradesOf(g.result) + [g'.trade.value];
  }

  lemma FlushCats(g: Grouping)
    ensures CatsOf(Flush(g)) == CatsOf(g.result)
  {
    if g.trade.Some? { AppendEntry(g.result, OfTrade(g.trade.value)); }
  }

  /** A log of another transaction emits the trade log in hand and starts a new one. */
  lemma GroupNewTx(g: Grouping, kept: seq<RawLog>, l: RawLog, ts: Timestamps)
    requires OnTrack(g, kept, ts) && !IsCat(l) && g.prev != Some(l.tx)
    ensures OnTrack(Group(g, l, ts), kept + [l], ts)
  {
    var g' := Group(g, l, ts);
    CatsSnoc(kept, l, ts);
    TradesAppend(kept, l, ts);
    FlushCats(g);
    FlushCats(g');
    assert g'.result == Flush(g);
    AppendEntry(Flush(g), OfTrade(g'.trade.value));
  }

  lemma GroupCat(g: Grouping, kept: seq<RawLog>, l: RawLog, ts: Timestamps)
    requires OnTrack(g, kept, ts) && IsCat(l)
    ensures OnTrack(Group(g, l, ts), kept + [l], ts)
  {
    var more := kept + [l];
    assert more[..|kept|] == kept;
    assert Trades(more) == Trades(kept);
    AppendEntry(g.result, OfCat(CatOf(l, ts)));
    if g.trade.Some? {
      AppendEntry(g.result, OfTrade(g.trade.value));
      AppendEntry(g.result + [OfCat(CatOf(l, ts))], OfTrade(g.trade.value));
    }
  }

  lemma {:induction false} GroupedOnTrack(kept: seq<RawLog>, ts: Timestamps)
    ensures OnTrack(Grouped(kept, ts), kept, ts)
  {
    if kept == [] {
      assert Runs(Trades([])) == [];
    } else {
      var n := |kept| - 1;
      GroupedOnTrack(kept[..n], ts);
      assert kept == kept[..n] + [kept[n]];
      if IsCat(kept[n]) { GroupCat(Grouped(kept[..n], ts), kept[..n], kept[n], ts); }
      else if Grouped(kept[..n], ts).prev == Some(kept[n].tx) { GroupSameTx(Grouped(kept[..n], ts), kept[..n], kept[n], ts); }
      else { GroupNewTx(Grouped(kept[..n], ts), kept[..n], kept[n], ts); }
    }
  }

  /** A log that starts a new run after another one, and so emits the finished trade log. */
  predicate Boundary(kept: seq<RawLog>, i: nat)
    requires i < |kept|
  {
    !IsCat(kept[i]) && Trades(kept[..i]) != [] && Trades(kept[..i])[|Trades(kept[..i])| - 1].tx != kept[i].tx
  }

  /** The last entry emitted so far comes from the category log at `c`. */
  ghost predicate LastEntryFrom(kept: seq<RawLog>, c: nat) {
    c < |kept| && IsCat(kept[c]) && forall i :: c < i < |kept| ==> !IsCat(kept[i]) && !Boundary(kept, i)
  }

  predicate EndsInCat(result: seq<KNLog>, tx: nat) {
    result != [] && result[|result| - 1].OfCat? && TxOf(result[|result| - 1]) == tx
  }

  lemma BoundaryPrefix(init: seq<RawLog>, l: RawLog, i: nat)
    requires i < |init|
    ensures (init + [l])[i] == init[i] && (Boundary(init + [l], i) <==> Boundary(init, i))
  {
    assert (init + [l])[..i] == init[..i];
  }

  lemma LastEntryStep(init: seq<RawLog>, l: RawLog, c: nat)
    ensures LastEntryFrom(init + [l], c) <==>
            if IsCat(l) then c == |init| else !Boundary(init + [l], |init|) && LastEntryFrom(init, c)
  {
    var kept, n := init + [l], |init|;
    forall i | 0 <= i < n ensures kept[i] == init[i] && (Boundary(kept, i) <==> Boundary(init, i)) {
      BoundaryPrefix(init, l, i);
    }
    if c < n && LastEntryFrom(init, c) && !IsCat(l) && !Boundary(kept, n) {
      forall i | c < i < |kept| ensures !IsCat(kept[i]) && !Boundary(kept, i) {
        if i < n { assert !IsCat(init[i]) && !Boundary(init, i); }
      }
    }
    if c < n && LastEntryFrom(kept, c) {
      assert !IsCat(kept[n]) && !Boundary(kept, n);
      forall i | c < i < n ensures !IsCat(init[i]) && !Boundary(init, i) {
        assert !IsCat(kept[i]) && !Boundary(kept, i);
      }
    }
  }

  lemma {:induction false} LastEntry(kept: seq<RawLog>, ts: Timestamps, tx: nat)
    ensures EndsInCat(Grouped(kept, ts).result, tx) <==> exists c: nat :: LastEntryFrom(kept, c) && kept[c].tx == tx
  {
    if kept != [] {
      var n := |kept| - 1;
      var init, l := kept[..n], kept[n];
      assert kept == init + [l];
      LastEntry(init, ts, tx);
      GroupedOnTrack(init, ts);
      forall c: nat
        ensures LastEntryFrom(kept, c) <==>
                if IsCat(l) then c == n else !Boundary(kept, n) && LastEntryFrom(init, c)
      {
        LastEntryStep(init, l, c);
      }
      LastEntryGroup(Grouped(init, ts), init, l, ts, tx);
      if IsCat(l) {
        assert LastEntryFrom(kept, n);
      } else if exists c: nat :: LastEntryFrom(init, c) && init[c].tx == tx {
        var c: nat :| LastEntryFrom(init, c) && init[c].tx == tx;
        assert LastEntryFrom(kept, c) <==> !Boundary(kept, n);
        assert kept[c] == init[c];
      }
    }
  }

  lemma LastEntryGroup(g: Grouping, kept: seq<RawLog>, l: RawLog, ts: Timestamps, tx: nat)
    requires OnTrack(g, kept, ts)
    ensures EndsInCat(Group(g, l, ts).result, tx) <==>
            if IsCat(l) then l.tx == tx else !Boundary(kept + [l], |kept|) && EndsInCat(g.result, tx)
  {
    assert (kept + [l])[..|kept|] == kept;
  }

  /** A trade log that ends the result is not of the transaction of the one in hand. */
  ghost predicate EndsElsewhere(g: Grouping) {
    g.trade.Some? && g.result != [] && g.result[|g.result| - 1].OfTrade? ==>
      TxOf(g.result[|g.result| - 1]) != g.trade.value.tx
  }

  lemma GroupEndsElsewhere(g: Grouping, l: RawLog, ts: Timestamps)
    requires EndsElsewhere(g) && (g.prev.None? ==> g.trade.None? && TradesOf(g.result) == [])
    requires g.prev.Some? ==> g.trade.Some? && g.trade.value.tx == g.prev.value
    ensures EndsElsewhere(Group(g, l, ts))
  {}

  lemma {:induction false} LastEntryOfTrade(kept: seq<RawLog>, ts: Timestamps)
    ensures EndsElsewhere(Grouped(kept, ts))
  {
    if kept != [] {
      var n := |kept| - 1;
      GroupedOnTrack(kept[..n], ts);
      LastEntryOfTrade(kept[..n], ts);
      GroupEndsElsewhere(Grouped(kept[..n], ts), kept[n], ts);
    }
  }

  /**
   * The last run is lost exactly when the entry emitted last is a category log
   * of the run's own transaction.
   */
  ghost predicate LastRunShadowed(kept: seq<RawLog>) {
    Trades(kept) != [] &&
    exists c: nat :: LastEntryFrom(kept, c) && kept[c].tx == Trades(kept)[|Trades(kept)| - 1].tx
  }

  /**
   * `GetLogs` yields the category logs in order, and the trade logs of the
   * maximal runs in order: all of them if and only if the last run is not
   * shadowed, otherwise all but the last.
   */
  lemma GroupingIsExact(kept: seq<RawLog>, ts: Timestamps)
    ensures var result := Finish(Grouped(kept, ts));
            && CatsOf(result) == Cats(kept, ts)
            && (TradesOf(result) == ExpectedTrades(kept, ts) <==> !LastRunShadowed(kept))
            && (LastRunShadowed(kept) ==>
                  TradesOf(result) == ExpectedTrades(kept, ts)[..|ExpectedTrades(kept, ts)| - 1])
  {
    var g := Grouped(kept, ts);
    GroupedOnTrack(kept, ts);
    LastEntryOfTrade(kept, ts);
    if g.trade.Some? {
      AppendEntry(g.result, OfTrade(g.trade.value));
      LastEntry(kept, ts, g.trade.value.tx);
    }
  }

  /** No transaction emits both kinds of events. */
  ghost predicate NoMixedTx(kept: seq<RawLog>) {
    forall i, j :: 0 <= i < |kept| && 0 <= j < |kept| && IsCat(kept[i]) && !IsCat(kept[j]) ==> kept[i].tx != kept[j].tx
  }

  lemma {:induction false} TradesAreKept(kept: seq<RawLog>, l: RawLog)
    ensures l in Trades(kept) <==> l in kept && !IsCat(l)
  {
    if kept != [] {
      TradesAreKept(kept[..|kept| - 1], l);
      assert kept == kept[..|kept| - 1] + [kept[|kept| - 1]];
    }
  }

  lemma NotShadowed(kept: seq<RawLog>)
    requires NoMixedTx(kept)
    ensures !LastRunShadowed(kept)
  {
    if Trades(kept) != [] {
      var last := Trades(kept)[|Trades(kept)| - 1];
      TradesAreKept(kept, last);
      var j :| 0 <= j < |kept| && kept[j] == last;
    }
  }

  /** If no transaction emits both kinds, there is one trade log per maximal run and one category log per event. */
  lemma GroupingIsComplete(kept: seq<RawLog>, ts: Timestamps)
    requires NoMixedTx(kept)
    ensures var result := Finish(Grouped(kept, ts));
            CatsOf(result) == Cats(kept, ts) && TradesOf(result) == ExpectedTrades(kept, ts)
  {
    NotShadowed(kept);
    GroupingIsExact(kept, ts);
  }

  lemma GroupedAppend(kept: seq<RawLog>, l: RawLog, ts: Timestamps)
    ensures Grouped(kept + [l], ts) == Group(Grouped(kept, ts), l, ts)
  {
    assert (kept + [l])[..|kept|] == kept;
  }

  lemma TwoLogs(cat: RawLog, trade: RawLog, ts: Timestamps)
    requires IsCat(cat) && !IsCat(trade) && cat.tx == trade.tx
    ensures Finish(Grouped([cat] + [trade], ts)) == [OfCat(CatOf(cat, ts))]
  {
    assert [cat] == [] + [cat];
    GroupedAppend([], cat, ts);
    assert Grouped([cat], ts) == Grouping(None, None, [OfCat(CatOf(cat, ts))]);
    GroupedAppend([cat], trade, ts);
  }

  /** A category event before the trade of its own transaction loses the trade. */
  lemma MixedTxLosesTrade(ts: Timestamps)
    ensures var cat, trade := RawLog(1, 9, 0, false, UserCat(5, "kyc")), RawLog(1, 9, 1, false, BurnFee(2, 3));
            TradesOf(Finish(Grouped([cat] + [trade], ts))) == [] && |ExpectedTrades([cat] + [trade], ts)| == 1
  {
    var cat, trade := RawLog(1, 9, 0, false, UserCat(5, "kyc")), RawLog(1, 9, 1, false, BurnFee(2, 3));
    TwoLogs(cat, trade, ts);
    AppendEntry([], OfCat(CatOf(cat, ts)));
    assert [OfCat(CatOf(cat, ts))] == [] + [OfCat(CatOf(cat, ts))];
    TradesSnoc([], cat);
    assert [cat] == [] + [cat];
    TradesAppend([cat], trade, ts);
  }

  // The fields of what is yielded

  /** The last log of the run for which `p` holds. */
  ghost predicate LastOf(run: seq<RawLog>, i: int, p: RawLog -> bool) {
    0 <= i < |run| && p(run[i]) && forall j :: i < j < |run| ==> !p(run[j])
  }

  ghost predicate NoneOf(run: seq<RawLog>, p: RawLog -> bool) {
    forall j :: 0 <= j < |run| ==> !p(run[j])
  }

  const Trading: RawLog -> bool := (l: RawLog) => l.event.TradeEvent?
  const Paying: RawLog -> bool := (l: RawLog) => l.event.FeeToWallet?
  const Burning: RawLog -> bool := (l: RawLog) => l.event.BurnFee?

  ghost predicate TradedAs(t: TradeLog, run: seq<RawLog>) {
    && (forall i :: LastOf(run, i, Trading) && run[i].event.TradeEvent? ==>
          && t.trader == run[i].event.trader && t.src == run[i].event.src && t.dest == run[i].event.dest
          && t.srcAmount == Some(run[i].event.srcAmount) && t.destAmount == Some(run[i].event.destAmount))
    && (NoneOf(run, Trading) ==>
          t.trader == 0 && t.src == 0 && t.dest == 0 && t.srcAmount == None && t.destAmount == None)
  }

  ghost predicate PaidAs(t: TradeLog, run: seq<RawLog>) {
    && (forall i :: LastOf(run, i, Paying) && run[i].event.FeeToWallet? ==>
          t.wallet == run[i].event.wallet && t.walletFee == Some(run[i].event.walletFee))
    && (NoneOf(run, Paying) ==> t.wallet == 0 && t.walletFee == None)
  }

  ghost predicate BurntAs(t: TradeLog, run: seq<RawLog>) {
    && (forall i :: LastOf(run, i, Burning) && run[i].event.BurnFee? ==> t.burnFee == Some(run[i].event.burnFee))
    && (NoneOf(run, Burning) ==> t.burnFee == None)
  }

  function ReserveOf(l: RawLog): Option<nat> {
    match l.event
    case FeeToWallet(reserve, _, _) => Some(reserve)
    case BurnFee(burner, _) => Some(burner)
    case _ => None
  }

  const Naming: RawLog -> bool := (l: RawLog) => l.event.FeeToWallet? || l.event.BurnFee?

  ghost predicate ReservedAs(t: TradeLog, run: seq<RawLog>) {
    && (forall i :: LastOf(run, i, Naming) ==> ReserveOf(run[i]) == Some(t.reserve))
    && (NoneOf(run, Naming) ==> t.reserve == 0)
  }

  lemma LastOfSnoc(run: seq<RawLog>, l: RawLog, p: RawLog -> bool)
    ensures p(l) ==> LastOf(run + [l], |run|, p) && forall i :: LastOf(run + [l], i, p) ==> i == |run|
    ensures !p(l) ==> forall i :: LastOf(run + [l], i, p) ==> LastOf(run, i, p) && (run + [l])[i] == run[i]
    ensures NoneOf(run + [l], p) ==> NoneOf(run, p) && !p(l)
  {
    var more := run + [l];
    if !p(l) {
      forall i | LastOf(more, i, p) ensures LastOf(run, i, p) && more[i] == run[i] {
        assert i != |run|;
        forall j | i < j < |run| ensures !p(run[j]) { assert more[j] == run[j]; }
      }
    } else {
      forall i | LastOf(more, i, p) ensures i == |run| {
        assert p(more[|run|]);
      }
    }
    if NoneOf(more, p) {
      forall j | 0 <= j < |run| ensures !p(run[j]) { assert more[j] == run[j]; }
      assert !p(more[|run|]);
    }
  }

  lemma AbsorbTraded(t: TradeLog, run: seq<RawLog>, l: RawLog)
    requires TradedAs(t, run)
    ensures TradedAs(Absorb(t, l.event), run + [l])
  {
    LastOfSnoc(run, l, Trading);
  }

  lemma AbsorbPaid(t: TradeLog, run: seq<RawLog>, l: RawLog)
    requires PaidAs(t, run)
    ensures PaidAs(Absorb(t, l.event), run + [l])
  {
    LastOfSnoc(run, l, Paying);
  }

  lemma AbsorbBurnt(t: TradeLog, run: seq<RawLog>, l: RawLog)
    requires BurntAs(t, run)
    ensures BurntAs(Absorb(t, l.event), run + [l])
  {
    LastOfSnoc(run, l, Burning);
  }

  lemma AbsorbReserved(t: TradeLog, run: seq<RawLog>, l: RawLog)
    requires ReservedAs(t, run)
    ensures ReservedAs(Absorb(t, l.event), run + [l])
  {
    LastOfSnoc(run, l, Naming);
  }

  /**
   * The fields of a trade log: transaction, position and time of the first log
   * of its run, and the rest from the last event of each kind, blank where the
   * run has no such event.
   */
  lemma {:induction false} TradeFields(run: seq<RawLog>, ts: Timestamps)
    requires run != []
    ensures var t := TradeOf(run, ts);
            && t.tx == run[0].tx && t.block == run[0].block && t.index == run[0].index
            && t.timestamp == TimeOf(ts, run[0].block, run[0].index)
            && TradedAs(t, run) && PaidAs(t, run) && BurntAs(t, run) && ReservedAs(t, run)
  {
    var init, l := run[..|run| - 1], run[|run| - 1];
    var before := if |run| == 1 then NewTrade(l, ts) else TradeOf(init, ts);
    if |run| > 1 { TradeFields(init, ts); }
    assert TradedAs(before, init) && PaidAs(before, init) && BurntAs(before, init) && ReservedAs(before, init);
    assert run == init + [l];
    AbsorbTraded(before, init, l);
    AbsorbPaid(before, init, l);
    AbsorbBurnt(before, init, l);
    AbsorbReserved(before, init, l);
  }

  /** The category events among the kept logs, in order. */
  function CatEvents(kept: seq<RawLog>): (r: seq<RawLog>)
    ensures forall i :: 0 <= i < |r| ==> r[i].event.UserCat?
  {
    if kept == [] then []
    else CatEvents(kept[..|kept| - 1]) + (if kept[|kept| - 1].event.UserCat? then [kept[|kept| - 1]] else [])
  }

  /** The category logs are those events one by one, with their transaction, position, time, user and category. */
  lemma {:induction false} CatFields(kept: seq<RawLog>, ts: Timestamps)
    ensures |Cats(kept, ts)| == |CatEvents(kept)|
    ensures forall i :: 0 <= i < |CatEvents(kept)| ==>
              var c, l := Cats(kept, ts)[i], CatEvents(kept)[i];
              && c.tx == l.tx && c.block == l.block && c.index == l.index && c.timestamp == TimeOf(ts, l.block, l.index)
              && c.user == l.event.user && c.category == l.event.category
  {
    if kept != [] { CatFields(kept[..|kept| - 1], ts); }
  }
}

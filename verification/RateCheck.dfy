/**
 * The rate comparison (cmd/comparerates/main.go): one forward pass over the
 * served intervals for a list of activities, and the comparison of a mined
 * set_rates with the interval of its block.
 */
module RateCheck {
  import opened Wrappers
  import OrderedKeys
  import CompactRates
  import opened RateUpdate
  import opened RateHistory

  const TWEI := 1000000000000000000.0

  /** An activity as the comparison reads it; `block` is the recorded block number. */
  datatype Act = Act(
    setRates: bool, mined: bool, block: Option<nat>, tokens: seq<string>, buys: seq<real>, sells: seq<real>)

  /** What the pass does with one activity. */
  datatype Verdict = Skipped | NotFound | Compared(interval: nat)

  predicate Considered(a: Act) { a.setRates && a.mined && a.block.Some? }

  /** Naive search: the first interval that covers the block. */
  function Find(rates: seq<Interval>, block: nat): (r: Option<nat>)
    ensures r.Some? ==> r.value < |rates| && Covers(rates[r.value], block)
                        && forall i :: 0 <= i < r.value ==> !Covers(rates[i], block)
    ensures r.None? ==> forall i :: 0 <= i < |rates| ==> !Covers(rates[i], block)
  {
    if rates == [] then None
    else if Covers(rates[0], block) then Some(0)
    else
      match Find(rates[1..], block)
      case None => None
      case Some(i) =>
        assert rates[1..][i] == rates[i + 1];
        Some(i + 1)
  }

  /** Some earlier activity of the list lies below the interval, so the pass has already left it. */
  ghost predicate Overtaken(acts: seq<Act>, j: nat, v: Interval)
    requires j <= |acts|
  {
    exists i :: 0 <= i < j && Overtakes(acts[i], v)
  }

  predicate Overtakes(a: Act, v: Interval) { Considered(a) && a.block.value < v.toBlock }

  lemma OvertakenStep(acts: seq<Act>, j: nat, v: Interval)
    requires j < |acts|
    ensures Overtaken(acts, j + 1, v) <==> Overtaken(acts, j, v) || Overtakes(acts[j], v)
  {}

  ghost function Naive(rates: seq<Interval>, a: Act): Verdict {
    if !Considered(a) then Skipped
    else
      match Find(rates, a.block.value)
      case None => NotFound
      case Some(i) => Compared(i)
  }

  /** The verdict of the pass: that of naive search, unless the interval found has been overtaken. */
  ghost function Swept(acts: seq<Act>, rates: seq<Interval>, j: nat): Verdict
    requires j < |acts|
  {
    match Naive(rates, acts[j])
    case Compared(i) => if i < |rates| && Overtaken(acts, j, rates[i]) then NotFound else Compared(i)
    case v => v
  }

  /** An interval covers the activity's block, and an earlier activity of the list lies below that interval. */
  ghost predicate MissedBy(acts: seq<Act>, rates: seq<Interval>, j: nat)
    requires j < |acts|
  {
    Considered(acts[j]) &&
    exists k :: 0 <= k < |rates| && Covers(rates[k], acts[j].block.value) && Overtaken(acts, j, rates[k])
  }

  /** For any order, the pass differs from naive search exactly for the activities missed. */
  lemma SweepMissesExactly(acts: seq<Act>, rates: seq<Interval>, j: nat)
    requires DisjointDescending(rates) && j < |acts|
    ensures Swept(acts, rates, j) != Naive(rates, acts[j]) <==> MissedBy(acts, rates, j)
  {
    if MissedBy(acts, rates, j) {
      var k :| 0 <= k < |rates| && Covers(rates[k], acts[j].block.value) && Overtaken(acts, j, rates[k]);
      CoveredOnce(rates, acts[j].block.value, k, Find(rates, acts[j].block.value).value);
    }
  }

  /** `CompareRates`: the index only moves forward. The result says what happens to each activity. */
  method CompareRates(acts: seq<Act>, rates: seq<Interval>) returns (result: seq<Verdict>)
    requires DisjointDescending(rates)
    ensures |result| == |acts|
    ensures forall j :: 0 <= j < |acts| ==> result[j] == Swept(acts, rates, j)
    ensures forall j :: 0 <= j < |acts| ==>
              (result[j] != Naive(rates, acts[j]) <==> MissedBy(acts, rates, j))
    ensures forall j :: 0 <= j < |acts| && result[j] != Naive(rates, acts[j]) ==> result[j] == NotFound
    ensures forall j :: 0 <= j < |acts| ==>
              (result[j] == Skipped <==> !(acts[j].setRates && acts[j].mined && acts[j].block.Some?))
  {
    result := [];
    var idx := 0;
    for j := 0 to |acts|
      invariant |result| == j && idx <= |rates|
      invariant forall i :: 0 <= i < j ==> result[i] == Swept(acts, rates, i)
      invariant forall i :: 0 <= i < |rates| ==> (i < idx <==> Overtaken(acts, j, rates[i]))
    {
      var oneAct := acts[j];
      if oneAct.setRates && oneAct.mined && oneAct.block.Some? {
        var curBlock := oneAct.block.value;
        ghost var before := idx;
        while idx < |rates| && curBlock < rates[idx].toBlock
          invariant before <= idx <= |rates|
          invariant forall i :: before <= i < idx ==> curBlock < rates[i].toBlock
        {
          idx := idx + 1;
        }
        OvertakenNext(acts, rates, j, before, idx);
        if idx < |rates| && curBlock <= rates[idx].block && curBlock >= rates[idx].toBlock {
          FoundByPass(acts, rates, j, idx);
          result := result + [Compared(idx)];
        } else {
          MissedByPass(acts, rates, j, before, idx);
          result := result + [NotFound];
        }
      } else {
        forall i | 0 <= i < |rates| ensures i < idx <==> Overtaken(acts, j + 1, rates[i]) {
          OvertakenStep(acts, j, rates[i]);
        }
        result := result + [Skipped];
      }
    }
    forall j | 0 <= j < |acts|
      ensures Swept(acts, rates, j) != Naive(rates, acts[j]) <==> MissedBy(acts, rates, j)
    {
      SweepMissesExactly(acts, rates, j);
    }
  }

  lemma OvertakenNext(acts: seq<Act>, rates: seq<Interval>, j: nat, before: nat, idx: nat)
    requires DisjointDescending(rates) && j < |acts| && before <= idx <= |rates|
    requires forall i :: 0 <= i < |rates| ==> (i < before <==> Overtaken(acts, j, rates[i]))
    requires forall i :: before <= i < idx ==> Overtakes(acts[j], rates[i])
    requires idx < |rates| ==> !Overtakes(acts[j], rates[idx])
    ensures forall i :: 0 <= i < |rates| ==> (i < idx <==> Overtaken(acts, j + 1, rates[i]))
  {
    forall i | 0 <= i < |rates| ensures i < idx <==> Overtaken(acts, j + 1, rates[i]) {
      OvertakenStep(acts, j, rates[i]);
    }
  }

  lemma FoundByPass(acts: seq<Act>, rates: seq<Interval>, j: nat, idx: nat)
    requires DisjointDescending(rates) && j < |acts| && Considered(acts[j]) && idx < |rates|
    requires forall i :: 0 <= i < |rates| ==> (i < idx <==> Overtaken(acts, j + 1, rates[i]))
    requires Covers(rates[idx], acts[j].block.value)
    ensures Swept(acts, rates, j) == Compared(idx)
  {
    CoveredOnce(rates, acts[j].block.value, idx, Find(rates, acts[j].block.value).value);
    OvertakenStep(acts, j, rates[idx]);
  }

  lemma MissedByPass(acts: seq<Act>, rates: seq<Interval>, j: nat, before: nat, idx: nat)
    requires DisjointDescending(rates) && j < |acts| && Considered(acts[j]) && before <= idx <= |rates|
    requires forall i :: 0 <= i < |rates| ==> (i < before <==> Overtaken(acts, j, rates[i]))
    requires forall i :: before <= i < idx ==> acts[j].block.value < rates[i].toBlock
    requires idx < |rates| ==> rates[idx].toBlock <= acts[j].block.value && !Covers(rates[idx], acts[j].block.value)
    ensures Swept(acts, rates, j) == NotFound
  {
    var found := Find(rates, acts[j].block.value);
    if found.Some? {
      assert found.value < before;
    }
  }

  ghost predicate NonIncreasing(acts: seq<Act>) {
    forall i, j :: 0 <= i < j < |acts| && Considered(acts[i]) && Considered(acts[j]) ==>
                     acts[i].block.value >= acts[j].block.value
  }

  /**
   * Sweep refines search: for mined set_rates in non-increasing block order the
   * pass gives every activity the verdict of naive search over all intervals.
   */
  lemma SweepRefinesSearch(acts: seq<Act>, rates: seq<Interval>, j: nat)
    requires NonIncreasing(acts) && j < |acts|
    ensures Swept(acts, rates, j) == Naive(rates, acts[j])
  {
    var v := Naive(rates, acts[j]);
    if v.Compared? {
      assert Covers(rates[v.interval], acts[j].block.value);
    }
  }

  /** A list in the wrong order is really missed: block 5 first, then block 9. */
  lemma WrongOrderIsMissed()
    ensures var rates := [Interval(map[], 9, 8), Interval(map[], 5, 4)];
            var act := (block: nat) => Act(true, true, Some(block), [], [], []);
            var acts := [act(5), act(9)];
            DisjointDescending(rates) && Naive(rates, acts[1]) == Compared(0) && Swept(acts, rates, 1) == NotFound
  {
    var rates := [Interval(map[], 9, 8), Interval(map[], 5, 4)];
    var act := (block: nat) => Act(true, true, Some(block), [], [], []);
    var acts := [act(5), act(9)];
    assert Overtakes(acts[0], rates[0]);
  }

  /**
   * Serving and sweeping together: for every history stored at increasing
   * times, a mined set_rates at the block of a stored entry with data is
   * compared with an interval that agrees with that entry.
   */
  lemma StoredBlockIsCompared(
    stores: seq<Store>, from: nat, to: nat, toFloat: int -> real, i: nat, acts: seq<Act>, j: nat)
    requires TimesIncrease(stores) && i < |Stored(stores)| && NonIncreasing(acts) && j < |acts|
    requires var e := Stored(stores)[i];
             from <= e.version <= to && e.value.data != map[]
             && Considered(acts[j]) && acts[j].block.value == e.value.blockNumber
    ensures var rates := Compressed(Served(Stored(stores), from, to), toFloat);
            var v := Swept(acts, rates, j);
            && DisjointDescending(rates)
            && v.Compared? && v.interval < |rates|
            && Agrees(rates[v.interval], Stored(stores)[i].value, toFloat)
  {
    var rates := Compressed(Served(Stored(stores), from, to), toFloat);
    var e := Stored(stores)[i].value;
    ServedRatesAreFaithful(stores, from, to, toFloat, i);
    SweepRefinesSearch(acts, rates, j);
    var k :| 0 <= k < |rates| && Covers(rates[k], e.blockNumber) && Agrees(rates[k], e, toFloat);
    CoveredOnce(rates, e.blockNumber, k, Find(rates, e.blockNumber).value);
  }

  // Comparing one activity with one interval

  /** `math.Abs(RateDifference(r1, r2)) > DifferRate`; a zero divisor gives infinity, or no number at all for 0/0. */
  predicate Differs(r1: real, r2: real) {
    if r1 == 0.0 then r2 != 0.0
    else CompactRates.Abs(CompactRates.RateDifference(r1, r2)) > CompactRates.DIFFER_RATE
  }

  function ShownRate(base: real, compact: int): real { base * (1.0 + compact as real / 1000.0) * TWEI }

  /** The relative difference is above the threshold exactly if the rates are more than a thousandth of the shown one apart. */
  lemma DiffersExactly(shown: real, requested: real)
    ensures Differs(shown, requested) <==>
            CompactRates.Abs(requested - shown) > 0.001 * CompactRates.Abs(shown)
  {
    if shown != 0.0 { RatioExceeds(requested - shown, shown); }
  }

  lemma ProductExceeds(r: real, w: real, g: real, t: real)
    requires w > 0.0 && g == r * w
    ensures r > t <==> g > t * w
  {
    assert w * (r - t) == r * w - t * w;
    if r > t { CompactRates.Positive(w, r - t); } else { CompactRates.NonNegative(w, t - r); }
    assert w * (t - r) == t * w - r * w;
  }

  lemma AbsOfRatio(gap: real, whole: real)
    requires whole != 0.0
    ensures CompactRates.Abs(gap) == CompactRates.Abs(gap / whole) * CompactRates.Abs(whole)
  {
    assert gap / whole * whole == gap;
    ProductOfAbs(gap / whole, whole);
  }

  lemma ProductOfAbs(a: real, b: real)
    ensures CompactRates.Abs(a * b) == CompactRates.Abs(a) * CompactRates.Abs(b)
  {
    CompactRates.NonNegative(CompactRates.Abs(a), CompactRates.Abs(b));
  }

  lemma RatioExceeds(gap: real, whole: real)
    requires whole != 0.0
    ensures CompactRates.Abs(gap / whole) > 0.001 <==> CompactRates.Abs(gap) > 0.001 * CompactRates.Abs(whole)
  {
    AbsOfRatio(gap, whole);
    ProductExceeds(CompactRates.Abs(gap / whole), CompactRates.Abs(whole), CompactRates.Abs(gap), 0.001);
  }

  predicate Alarming(v: Shown, buy: real, sell: real) {
    Differs(ShownRate(v.baseBuy, v.compactBuy), buy) || Differs(ShownRate(v.baseSell, v.compactSell), sell)
  }

  /** Some listed token that is shown differs from the request on a side. */
  predicate Warns(a: Act, data: map<string, Shown>)
    requires |a.buys| >= |a.tokens| && |a.sells| >= |a.tokens|
  {
    exists i :: 0 <= i < |a.tokens| && a.tokens[i] in data && Alarming(data[a.tokens[i]], a.buys[i], a.sells[i])
  }

  /** `CompareRate`, and whether it warns. */
  method CompareRate(a: Act, data: map<string, Shown>) returns (warning: bool)
    requires |a.buys| >= |a.tokens| && |a.sells| >= |a.tokens|
    ensures warning <==> Warns(a, data)
  {
    warning := false;
    for i := 0 to |a.tokens|
      invariant warning <==> exists j :: 0 <= j < i && a.tokens[j] in data
                                         && Alarming(data[a.tokens[j]], a.buys[j], a.sells[j])
    {
      if a.tokens[i] in data {
        var val := data[a.tokens[i]];
        if Differs(ShownRate(val.baseBuy, val.compactBuy), a.buys[i]) {
          warning := true;
        }
        if Differs(ShownRate(val.baseSell, val.compactSell), a.sells[i]) {
          warning := true;
        }
      }
    }
  }

  /** The requested rate is more than a thousandth of the shown one away from it. */
  predicate IsOff(base: real, compact: int, requested: real) {
    var shown := base * (1.0 + compact as real / 1000.0) * 1000000000000000000.0;
    CompactRates.Abs(requested - shown) > 0.001 * CompactRates.Abs(shown)
  }

  predicate SomeSideIsOff(v: Shown, buy: real, sell: real) {
    IsOff(v.baseBuy, v.compactBuy, buy) || IsOff(v.baseSell, v.compactSell, sell)
  }

  lemma SideExactly(base: real, compact: int, requested: real)
    ensures Differs(ShownRate(base, compact), requested) <==> IsOff(base, compact, requested)
  {
    DiffersExactly(ShownRate(base, compact), requested);
    assert ShownRate(base, compact) == base * (1.0 + compact as real / 1000.0) * 1000000000000000000.0;
  }

  lemma AlarmingExactly(v: Shown, buy: real, sell: real)
    ensures Alarming(v, buy, sell) <==> SomeSideIsOff(v, buy, sell)
  {
    SideExactly(v.baseBuy, v.compactBuy, buy);
    SideExactly(v.baseSell, v.compactSell, sell);
  }

  /** What a warning means: some listed token that is shown is off on its buy side or on its sell side. */
  lemma WarnsExactly(a: Act, data: map<string, Shown>)
    requires |a.buys| >= |a.tokens| && |a.sells| >= |a.tokens|
    ensures Warns(a, data) <==>
            exists i :: && 0 <= i < |a.tokens| && a.tokens[i] in data
                        && SomeSideIsOff(data[a.tokens[i]], a.buys[i], a.sells[i])
  {
    forall i | 0 <= i < |a.tokens| && a.tokens[i] in data
      ensures Alarming(data[a.tokens[i]], a.buys[i], a.sells[i]) <==> SomeSideIsOff(data[a.tokens[i]], a.buys[i], a.sells[i])
    {
      AlarmingExactly(data[a.tokens[i]], a.buys[i], a.sells[i]);
    }
  }

  /** Conversion of an 18-decimal amount, without rounding. */
  function FromTwei(n: int): real { n as real / TWEI }

  lemma ShownIsDecoded(base: int, compact: OrderedKeys.byte)
    ensures ShownRate(FromTwei(base), CompactRates.ToInt8(compact)) == CompactRates.Decode(base, compact)
  {
    var f := 1.0 + CompactRates.ToInt8(compact) as real / 1000.0;
    ScaleBack(base as real, f);
  }

  lemma ScaleBack(b: real, f: real)
    ensures b / TWEI * f * TWEI == b * f
  {}

  lemma ExactIsQuiet(rate: int)
    requires rate > 0
    ensures !Differs(ShownRate(FromTwei(rate), 0), rate as real)
  {
    ShownIsDecoded(rate, 0);
    ZeroByteIsExact(rate);
    assert CompactRates.RateDifference(rate as real, rate as real) == 0.0;
  }

  lemma KeptByteIsQuiet(rate: int, base: int, x: real, delta: real)
    requires rate > 0 && base >= 0 && 0.0 <= delta <= 0.37 && CompactRates.Near(rate, base, x, delta)
    requires !CompactRates.Encode(rate, base, x).overflow
    ensures var r := CompactRates.Encode(rate, base, x);
            !Differs(ShownRate(FromTwei(base), CompactRates.ToInt8(r.compact)), rate as real)
  {
    CompactRates.NoFalseAlarm(rate, base, x, delta);
    ShownIsDecoded(base, CompactRates.Encode(rate, base, x).compact);
  }

  /** The service shows what the updated contract stores for the token. */
  ghost predicate ShowsStored(v: Shown, u: Update, indices: map<Address, Slot>, q: Quote) {
    exists baseBuy, buy, baseSell, sell ::
      && Stores(u, indices, q, baseBuy, buy, baseSell, sell)
      && v == Shown(FromTwei(baseBuy), CompactRates.ToInt8(buy), FromTwei(baseSell), CompactRates.ToInt8(sell), 0.0)
  }

  /** The requests of an update, with positive rates and values computed well enough. */
  ghost predicate Sensible(quotes: seq<Quote>, delta: real) {
    && 0.0 <= delta <= 0.37
    && forall q :: q in quotes ==>
         && q.buy > 0 && q.sell > 0 && q.baseBuy >= 0 && q.baseSell >= 0
         && CompactRates.Near(q.buy, q.baseBuy, q.buyX, delta) && CompactRates.Near(q.sell, q.baseSell, q.sellX, delta)
  }

  lemma UpdatedTokenIsQuiet(
    quotes: seq<Quote>, u: Update, indices: map<Address, Slot>, delta: real, q: Quote, v: Shown)
    requires DistinctTokens(quotes) && FitsBulks(Tokens(quotes), indices) && DistinctSlots(Tokens(quotes), indices)
    requires ListsBases(u, BaseQuotes(quotes)) && Packed(quotes, u.bulks, indices)
    requires Sensible(quotes, delta) && q in quotes && ShowsStored(v, u, indices, q)
    ensures !Alarming(v, q.buy as real, q.sell as real)
  {
    var baseBuy, buy, baseSell, sell :|
      && Stores(u, indices, q, baseBuy, buy, baseSell, sell)
      && v == Shown(FromTwei(baseBuy), CompactRates.ToInt8(buy), FromTwei(baseSell), CompactRates.ToInt8(sell), 0.0);
    UpdateStoresQuotes(quotes, u, indices, q, baseBuy, buy, baseSell, sell);
    if NeedsBase(q) {
      ExactIsQuiet(q.buy);
      ExactIsQuiet(q.sell);
    } else {
      KeptByteIsQuiet(q.buy, q.baseBuy, q.buyX, delta);
      KeptByteIsQuiet(q.sell, q.baseSell, q.sellX, delta);
    }
  }

  /**
   * No false alarm, end to end: whatever update `SetRates` built, `CompareRate`
   * does not warn of the activity that requested it when it is compared with
   * what the updated contract stores, also where only one side overflowed.
   */
  lemma UpdateIsQuiet(
    quotes: seq<Quote>, u: Update, indices: map<Address, Slot>, delta: real, a: Act, data: map<string, Shown>)
    requires DistinctTokens(quotes) && FitsBulks(Tokens(quotes), indices) && DistinctSlots(Tokens(quotes), indices)
    requires ListsBases(u, BaseQuotes(quotes)) && Packed(quotes, u.bulks, indices) && Sensible(quotes, delta)
    requires |a.tokens| == |a.buys| == |a.sells| == |quotes|
    requires forall i :: 0 <= i < |quotes| ==> a.buys[i] == quotes[i].buy as real && a.sells[i] == quotes[i].sell as real
    requires forall i :: 0 <= i < |quotes| && a.tokens[i] in data ==>
               ShowsStored(data[a.tokens[i]], u, indices, quotes[i])
    ensures !Warns(a, data)
  {
    forall i | 0 <= i < |a.tokens| && a.tokens[i] in data
      ensures !Alarming(data[a.tokens[i]], a.buys[i], a.sells[i])
    {
      UpdatedTokenIsQuiet(quotes, u, indices, delta, quotes[i], data[a.tokens[i]]);
    }
  }
}

/**
 * Rate history: entries stored by time with increasing blocks
 * (data/storage/bolt.go), served as intervals of blocks with equal data
 * (data/reserve_data.go).
 */
module RateHistory {
  import opened Wrappers
  import opened OrderedKeys
  import opened VersionStore

  datatype TokenRate = TokenRate(baseBuy: int, compactBuy: int, baseSell: int, compactSell: int)

  datatype RateEntry = RateEntry(data: map<string, TokenRate>, blockNumber: nat)

  /** The fields of a `RateResponse` that `isDuplicated` compares. */
  datatype Shown = Shown(baseBuy: real, compactBuy: int, baseSell: real, compactSell: int, rate: real)

  /** Everything shown for the blocks from `toBlock` up to `block`. */
  datatype Interval = Interval(data: map<string, Shown>, block: nat, toBlock: nat)

  // Storing

  function LastBlock(b: seq<Entry<RateEntry>>): nat {
    if b == [] then 0 else b[|b| - 1].value.blockNumber
  }

  function StoreRateIn(b: seq<Entry<RateEntry>>, data: RateEntry, timepoint: nat): seq<Entry<RateEntry>> {
    if LastBlock(b) < data.blockNumber then Insert(b, timepoint, data) else b
  }

  /** `StoreRate`: an entry whose block is not above the last stored one is dropped. */
  method StoreRate(bucket: Bucket<RateEntry>, data: RateEntry, timepoint: nat)
    requires bucket.Valid() && timepoint < UINT64
    modifies bucket
    ensures bucket.Valid() && bucket.entries == StoreRateIn(old(bucket.entries), data, timepoint)
  {
    var last := if |bucket.entries| == 0 then 0 else bucket.entries[|bucket.entries| - 1].value.blockNumber;
    if last < data.blockNumber {
      bucket.Put(timepoint, data);
    }
  }

  ghost predicate BlocksIncrease(b: seq<Entry<RateEntry>>) {
    forall i, j :: 0 <= i < j < |b| ==> b[i].value.blockNumber < b[j].value.blockNumber
  }

  /** A stored entry keeps the blocks increasing exactly when its time is not before the last stored one. */
  lemma StoreKeepsBlocks(b: seq<Entry<RateEntry>>, data: RateEntry, timepoint: nat)
    requires Increasing(b) && BlocksIncrease(b) && timepoint < UINT64
    ensures BlocksIncrease(StoreRateIn(b, data, timepoint)) <==>
            data.blockNumber <= LastBlock(b) || b == [] || b[|b| - 1].version <= timepoint
  {
    if LastBlock(b) < data.blockNumber && b != [] {
      var i := SeekIndex(b, timepoint);
      var b' := StoreRateIn(b, data, timepoint);
      if b[|b| - 1].version > timepoint {
        assert b'[i].value == data && b'[|b'| - 1] == b[|b| - 1];
      } else {
        assert i >= |b| - 1;
        assert b' == b[..i] + [Entry(timepoint, data)];
      }
    }
  }

  /** Block 6 stored at time 3 comes before block 5 stored at time 10. */
  lemma StoreInThePast()
    ensures var b := [Entry(10, RateEntry(map[], 5))];
            && Increasing(b) && BlocksIncrease(b)
            && StoreRateIn(b, RateEntry(map[], 6), 3) == [Entry(3, RateEntry(map[], 6)), Entry(10, RateEntry(map[], 5))]
            && !BlocksIncrease(StoreRateIn(b, RateEntry(map[], 6), 3))
  {
    var b := [Entry(10, RateEntry(map[], 5))];
    StoreKeepsBlocks(b, RateEntry(map[], 6), 3);
  }

  datatype Store = Store(data: RateEntry, timepoint: nat)

  function Stored(stores: seq<Store>): seq<Entry<RateEntry>> {
    if stores == [] then []
    else
      var last := stores[|stores| - 1];
      StoreRateIn(Stored(stores[..|stores| - 1]), last.data, last.timepoint)
  }

  ghost predicate TimesIncrease(stores: seq<Store>) {
    && (forall i :: 0 <= i < |stores| ==> stores[i].timepoint < UINT64)
    && (forall i, j :: 0 <= i < j < |stores| ==> stores[i].timepoint < stores[j].timepoint)
  }

  ghost predicate Upto(b: seq<Entry<RateEntry>>, t: nat) {
    forall i :: 0 <= i < |b| ==> b[i].version < t
  }

  /** Storing later than everything so far appends or does nothing. */
  lemma StoreAbove(b: seq<Entry<RateEntry>>, s: Store, t: nat)
    requires Increasing(b) && BlocksIncrease(b) && Upto(b, s.timepoint) && s.timepoint < t && s.timepoint < UINT64
    ensures var b' := StoreRateIn(b, s.data, s.timepoint);
            && (b' == b || b' == b + [Entry(s.timepoint, s.data)])
            && Increasing(b') && BlocksIncrease(b') && Upto(b', t)
  {
    InsertAbove(b, s.timepoint, s.data);
    InsertIsPut(b, s.timepoint, s.data);
    StoreKeepsBlocks(b, s.data, s.timepoint);
  }

  /** With increasing store times, stored block numbers strictly increase. */
  lemma {:induction false} StoredBlocksIncrease(stores: seq<Store>, t: nat)
    requires TimesIncrease(stores)
    requires stores != [] ==> stores[|stores| - 1].timepoint < t
    ensures Increasing(Stored(stores)) && BlocksIncrease(Stored(stores)) && Upto(Stored(stores), t)
  {
    if stores != [] {
      var n := |stores| - 1;
      StoredBlocksIncrease(stores[..n], stores[n].timepoint);
      StoreAbove(Stored(stores[..n]), stores[n], t);
    }
  }

  // Serving

  /** `getOneRateData`; `toFloat` is the conversion of an 18-decimal amount. The `Rate` field is never set. */
  function Show(data: map<string, TokenRate>, toFloat: int -> real): map<string, Shown> {
    map token | token in data ::
      Shown(toFloat(data[token].baseBuy), data[token].compactBuy, toFloat(data[token].baseSell),
            data[token].compactSell, 0.0)
  }

  /** `isDuplicated`: every token listed on the left is shown with equal fields on the right. */
  predicate IsDuplicated(oldData: map<string, Shown>, newData: map<string, Shown>) {
    forall token :: token in oldData ==> token in newData && oldData[token] == newData[token]
  }

  /** One iteration of `GetRates`; `current` is the data of the last interval. */
  function Extend(result: seq<Interval>, rate: RateEntry, toFloat: int -> real): seq<Interval> {
    var one := Show(rate.data, toFloat);
    var last := |result| - 1;
    if IsDuplicated(one, if result == [] then map[] else result[last].data) then
      if result == [] then result else result[last := result[last].(toBlock := rate.blockNumber)]
    else result + [Interval(one, rate.blockNumber, rate.blockNumber)]
  }

  function Compressed(rates: seq<RateEntry>, toFloat: int -> real): seq<Interval> {
    if rates == [] then []
    else Extend(Compressed(rates[..|rates| - 1], toFloat), rates[|rates| - 1], toFloat)
  }

  /** The loop of `ReserveData.GetRates`. */
  method Compress(rates: seq<RateEntry>, toFloat: int -> real) returns (result: seq<Interval>)
    ensures result == Compressed(rates, toFloat)
  {
    result := [];
    var current: map<string, Shown> := map[];
    for i := 0 to |rates|
      invariant result == Compressed(rates[..i], toFloat)
      invariant current == if result == [] then map[] else result[|result| - 1].data
    {
      assert rates[..i + 1][..i] == rates[..i];
      var one := Show(rates[i].data, toFloat);
      if IsDuplicated(one, current) {
        if |result| > 0 {
          var last := |result| - 1;
          result := result[last := result[last].(toBlock := rates[i].blockNumber)];
        }
      } else {
        result := result + [Interval(one, rates[i].blockNumber, rates[i].blockNumber)];
        current := one;
      }
    }
    assert rates[..|rates|] == rates;
  }

  /** `ReserveData.GetRates` over the stored bucket. */
  method GetRates(bucket: Bucket<RateEntry>, fromTime: nat, toTime: nat, toFloat: int -> real)
    returns (r: Result<seq<Interval>>)
    requires bucket.Valid() && fromTime < UINT64 && toTime < UINT64
    ensures r.Ok? <==> Sub64(toTime, fromTime) <= MAX_GET_RATES_PERIOD
    ensures r.Ok? ==> r.value == Compressed(Served(bucket.entries, fromTime, toTime), toFloat)
    ensures r.Ok? && BlocksIncrease(bucket.entries) ==>
              && DisjointDescending(r.value)
              && forall i :: 0 <= i < |bucket.entries| && fromTime <= bucket.entries[i].version <= toTime
                             && bucket.entries[i].value.data != map[] ==>
                               Represented(r.value, bucket.entries[i].value, toFloat)
  {
    var rates := bucket.GetRates(fromTime, toTime);
    if rates.Err? {
      return Err(rates.message);
    }
    var result := Compress(rates.value, toFloat);
    r := Ok(result);
    if BlocksIncrease(bucket.entries) {
      forall i | 0 <= i < |bucket.entries|
        ensures fromTime <= bucket.entries[i].version <= toTime && bucket.entries[i].value.data != map[] ==>
                  Represented(result, bucket.entries[i].value, toFloat)
      {
        ServedEntry(bucket.entries, fromTime, toTime, toFloat, i);
      }
      ServedBlocksDecrease(bucket.entries, fromTime, toTime);
      IntervalsDescend(Served(bucket.entries, fromTime, toTime), toFloat);
    }
  }

  lemma ServedEntry(b: seq<Entry<RateEntry>>, from: nat, to: nat, toFloat: int -> real, i: nat)
    requires BlocksIncrease(b) && i < |b|
    ensures DisjointDescending(Compressed(Served(b, from, to), toFloat))
    ensures from <= b[i].version <= to && b[i].value.data != map[] ==>
              Represented(Compressed(Served(b, from, to), toFloat), b[i].value, toFloat)
  {
    ServedBlocksDecrease(b, from, to);
    IntervalsDescend(Served(b, from, to), toFloat);
    if from <= b[i].version <= to && b[i].value.data != map[] {
      var k := PlaceOfEntry(b, from, to, i);
      EntriesAreRepresented(Served(b, from, to), toFloat, k);
    }
  }

  ghost predicate BlocksDecrease(rates: seq<RateEntry>) {
    forall i, j :: 0 <= i < j < |rates| ==> rates[i].blockNumber > rates[j].blockNumber
  }

  predicate Covers(v: Interval, block: nat) { v.toBlock <= block <= v.block }

  ghost predicate DisjointDescending(result: seq<Interval>) {
    && (forall i :: 0 <= i < |result| ==> result[i].toBlock <= result[i].block)
    && (forall i, j :: 0 <= i < j < |result| ==> result[i].toBlock > result[j].block)
  }

  /** The interval shows every token that the entry lists with its two bases, converted, and its two compact values. */
  predicate Agrees(v: Interval, rate: RateEntry, toFloat: int -> real) {
    forall token :: token in rate.data ==>
      && token in v.data
      && v.data[token].baseBuy == toFloat(rate.data[token].baseBuy)
      && v.data[token].compactBuy == rate.data[token].compactBuy
      && v.data[token].baseSell == toFloat(rate.data[token].baseSell)
      && v.data[token].compactSell == rate.data[token].compactSell
  }

  /** The entry is covered by an interval that agrees with every token it lists. */
  ghost predicate Represented(result: seq<Interval>, rate: RateEntry, toFloat: int -> real) {
    exists i :: 0 <= i < |result| && Covers(result[i], rate.blockNumber) && Agrees(result[i], rate, toFloat)
  }

  /** The interval starts at that entry and shows exactly its tokens. */
  predicate ShowsEntry(v: Interval, rate: RateEntry, toFloat: int -> real) {
    && v.block == rate.blockNumber && v.data.Keys == rate.data.Keys && Agrees(v, rate, toFloat)
    && forall token :: token in v.data ==> v.data[token].rate == 0.0
  }

  ghost predicate StartsAt(v: Interval, rates: seq<RateEntry>, toFloat: int -> real) {
    exists k :: 0 <= k < |rates| && ShowsEntry(v, rates[k], toFloat)
  }

  /** `isDuplicated` tells agreement on all compared fields, for an interval that shows some entry. */
  lemma DuplicatedExactly(v: Interval, e: RateEntry, rate: RateEntry, toFloat: int -> real)
    requires ShowsEntry(v, e, toFloat)
    ensures IsDuplicated(Show(rate.data, toFloat), v.data) <==> Agrees(v, rate, toFloat)
  {
    var one := Show(rate.data, toFloat);
    if Agrees(v, rate, toFloat) {
      forall token | token in one ensures token in v.data && one[token] == v.data[token] {
        assert token in rate.data;
      }
    }
    if IsDuplicated(one, v.data) {
      forall token | token in rate.data
        ensures token in v.data && one[token] == v.data[token]
      {
        assert token in one;
      }
    }
  }

  lemma ExtendKeepsRepresented(result: seq<Interval>, rate: RateEntry, e: RateEntry, toFloat: int -> real)
    requires Represented(result, e, toFloat)
    requires result != [] ==> rate.blockNumber <= result[|result| - 1].toBlock
    ensures Represented(Extend(result, rate, toFloat), e, toFloat)
  {
    var i :| 0 <= i < |result| && Covers(result[i], e.blockNumber) && Agrees(result[i], e, toFloat);
    var result' := Extend(result, rate, toFloat);
    assert Covers(result'[i], e.blockNumber) && result'[i].data == result[i].data;
    assert Agrees(result'[i], e, toFloat);
  }

  lemma ExtendRepresents(result: seq<Interval>, rate: RateEntry, toFloat: int -> real)
    requires rate.data != map[]
    requires result != [] ==> rate.blockNumber <= result[|result| - 1].block
    ensures var result' := Extend(result, rate, toFloat);
            result' != [] && Covers(result'[|result'| - 1], rate.blockNumber) && Agrees(result'[|result'| - 1], rate, toFloat)
  {
    var one := Show(rate.data, toFloat);
    var result' := Extend(result, rate, toFloat);
    var token :| token in rate.data;
    assert token in one;
    assert result' != [];
    var last := result'[|result'| - 1];
    assert Covers(last, rate.blockNumber) && IsDuplicated(one, last.data);
    forall token | token in rate.data ensures token in last.data && last.data[token] == one[token] {
      assert token in one;
    }
  }

  lemma ExtendKeepsOrder(result: seq<Interval>, rate: RateEntry, toFloat: int -> real)
    requires DisjointDescending(result)
    requires result != [] ==> rate.blockNumber < result[|result| - 1].toBlock
    ensures var result' := Extend(result, rate, toFloat);
            DisjointDescending(result') && (result' != [] ==> result'[|result'| - 1].toBlock == rate.blockNumber)
  {}

  /** The intervals of descending entries are disjoint and descending, and reach down to the last entry. */
  lemma {:induction false} IntervalsDescend(rates: seq<RateEntry>, toFloat: int -> real)
    requires BlocksDecrease(rates)
    ensures var result := Compressed(rates, toFloat);
            && DisjointDescending(result)
            && (result != [] ==> rates != [] && result[|result| - 1].toBlock == rates[|rates| - 1].blockNumber)
  {
    if rates != [] {
      var n := |rates| - 1;
      IntervalsDescend(rates[..n], toFloat);
      ExtendKeepsOrder(Compressed(rates[..n], toFloat), rates[n], toFloat);
    }
  }

  /** Run-length compression loses nothing: every entry with data is represented. */
  lemma {:induction false} EntriesAreRepresented(rates: seq<RateEntry>, toFloat: int -> real, k: nat)
    requires BlocksDecrease(rates) && k < |rates| && rates[k].data != map[]
    ensures Represented(Compressed(rates, toFloat), rates[k], toFloat)
  {
    var n := |rates| - 1;
    var init := rates[..n];
    var before := Compressed(init, toFloat);
    IntervalsDescend(init, toFloat);
    if k < n {
      EntriesAreRepresented(init, toFloat, k);
      ExtendKeepsRepresented(before, rates[n], rates[k], toFloat);
    } else {
      ExtendRepresents(before, rates[n], toFloat);
      assert Represented(Extend(before, rates[n], toFloat), rates[n], toFloat);
    }
  }

  /** And it invents nothing: every interval starts at an entry and shows its data. */
  lemma {:induction false} IntervalsStartAtEntries(rates: seq<RateEntry>, toFloat: int -> real, i: nat)
    requires i < |Compressed(rates, toFloat)|
    ensures StartsAt(Compressed(rates, toFloat)[i], rates, toFloat)
  {
    var n := |rates| - 1;
    var init := rates[..n];
    var before, v := Compressed(init, toFloat), Compressed(rates, toFloat)[i];
    if i < |before| {
      IntervalsStartAtEntries(init, toFloat, i);
      var k :| 0 <= k < |init| && ShowsEntry(before[i], init[k], toFloat);
      assert v.data == before[i].data && v.block == before[i].block;
      assert rates[k] == init[k] && ShowsEntry(v, rates[k], toFloat);
    } else {
      assert v.data == Show(rates[n].data, toFloat);
      assert ShowsEntry(v, rates[n], toFloat);
    }
  }

  /**
   * When a new interval starts: exactly at an entry that disagrees with the last
   * interval on a compared field of some token. Any other entry lengthens that
   * interval and changes nothing else. Entries without data start none.
   */
  lemma NewIntervalExactly(rates: seq<RateEntry>, toFloat: int -> real)
    requires rates != []
    ensures var e, before, after := rates[|rates| - 1], Compressed(rates[..|rates| - 1], toFloat), Compressed(rates, toFloat);
            var last := |before| - 1;
            if before != [] && Agrees(before[last], e, toFloat) then
              after == before[last := Interval(before[last].data, before[last].block, e.blockNumber)]
            else if before == [] && e.data == map[] then after == []
            else
              && |after| == |before| + 1 && after[..|before|] == before
              && ShowsEntry(after[|before|], e, toFloat) && after[|before|].toBlock == e.blockNumber
  {
    var e, before := rates[|rates| - 1], Compressed(rates[..|rates| - 1], toFloat);
    if before != [] {
      var e0 := EntryOfInterval(rates[..|rates| - 1], toFloat, |before| - 1);
      DuplicatedExactly(before[|before| - 1], e0, e, toFloat);
    }
    NothingIsDuplicated(e, toFloat);
    assert Compressed(rates, toFloat) == Extend(before, e, toFloat);
    ExtendStarts(before, e, toFloat);
  }

  lemma EntryOfInterval(rates: seq<RateEntry>, toFloat: int -> real, i: nat) returns (e: RateEntry)
    requires i < |Compressed(rates, toFloat)|
    ensures ShowsEntry(Compressed(rates, toFloat)[i], e, toFloat)
  {
    IntervalsStartAtEntries(rates, toFloat, i);
    var k :| 0 <= k < |rates| && ShowsEntry(Compressed(rates, toFloat)[i], rates[k], toFloat);
    e := rates[k];
  }

  lemma NothingIsDuplicated(e: RateEntry, toFloat: int -> real)
    ensures IsDuplicated(Show(e.data, toFloat), map[]) <==> e.data == map[]
  {
    if e.data != map[] {
      var token :| token in e.data;
      assert token in Show(e.data, toFloat);
    }
  }

  lemma ExtendStarts(before: seq<Interval>, e: RateEntry, toFloat: int -> real)
    ensures var after, last := Extend(before, e, toFloat), |before| - 1;
            if IsDuplicated(Show(e.data, toFloat), if before == [] then map[] else before[last].data) then
              after == if before == [] then [] else before[last := Interval(before[last].data, before[last].block, e.blockNumber)]
            else
              && |after| == |before| + 1 && after[..|before|] == before
              && ShowsEntry(after[|before|], e, toFloat) && after[|before|].toBlock == e.blockNumber
  {}

  /** The later entry lists tokens of the earlier one only, with the same four fields. */
  predicate Repeats(later: RateEntry, earlier: RateEntry) {
    forall token :: token in later.data ==> token in earlier.data && later.data[token] == earlier.data[token]
  }

  ghost predicate Shared(result: seq<Interval>, block: nat, block': nat) {
    exists i :: 0 <= i < |result| && Covers(result[i], block) && Covers(result[i], block')
  }

  lemma ExtendKeepsShared(result: seq<Interval>, rate: RateEntry, block: nat, block': nat, toFloat: int -> real)
    requires Shared(result, block, block')
    requires result != [] ==> rate.blockNumber <= result[|result| - 1].toBlock
    ensures Shared(Extend(result, rate, toFloat), block, block')
  {
    var i :| 0 <= i < |result| && Covers(result[i], block) && Covers(result[i], block');
    var result' := Extend(result, rate, toFloat);
    assert Covers(result'[i], block) && Covers(result'[i], block');
  }

  lemma RepeatsShow(later: RateEntry, earlier: RateEntry, toFloat: int -> real, data: map<string, Shown>)
    requires Repeats(later, earlier) && IsDuplicated(Show(earlier.data, toFloat), data)
    ensures IsDuplicated(Show(later.data, toFloat), data)
  {
    forall token | token in Show(later.data, toFloat)
      ensures token in data && Show(later.data, toFloat)[token] == data[token]
    {
      assert token in Show(earlier.data, toFloat);
    }
  }

  lemma ExtendTwice(result: seq<Interval>, e: RateEntry, e': RateEntry, toFloat: int -> real)
    requires e.data != map[] && Repeats(e', e) && e'.blockNumber < e.blockNumber
    requires result != [] ==> e.blockNumber <= result[|result| - 1].block
    ensures Shared(Extend(Extend(result, e, toFloat), e', toFloat), e.blockNumber, e'.blockNumber)
  {
    var once := Extend(result, e, toFloat);
    var last := |once| - 1;
    ExtendRepresents(result, e, toFloat);
    RepeatsShow(e', e, toFloat, once[last].data);
    var twice := Extend(once, e', toFloat);
    assert Covers(twice[last], e.blockNumber) && Covers(twice[last], e'.blockNumber);
  }

  /** Consecutive entries with the same rates share an interval. */
  lemma {:induction false} RepeatedRatesShareInterval(rates: seq<RateEntry>, toFloat: int -> real, k: nat)
    requires BlocksDecrease(rates) && k + 1 < |rates|
    requires rates[k].data != map[] && Repeats(rates[k + 1], rates[k])
    ensures Shared(Compressed(rates, toFloat), rates[k].blockNumber, rates[k + 1].blockNumber)
  {
    var n := |rates| - 1;
    var init := rates[..n];
    if k + 1 < n {
      IntervalsDescend(init, toFloat);
      RepeatedRatesShareInterval(init, toFloat, k);
      ExtendKeepsShared(Compressed(init, toFloat), rates[n], rates[k].blockNumber, rates[k + 1].blockNumber, toFloat);
    } else {
      IntervalsDescend(init[..k], toFloat);
      ExtendTwice(Compressed(init[..k], toFloat), rates[k], rates[n], toFloat);
    }
  }

  /** Disjoint intervals cover a block at most once, so the representing interval is the only one. */
  lemma CoveredOnce(result: seq<Interval>, block: nat, i: nat, j: nat)
    requires DisjointDescending(result) && i < |result| && j < |result|
    requires Covers(result[i], block) && Covers(result[j], block)
    ensures i == j
  {}

  lemma {:induction false} RangeBlocksIncrease(b: seq<Entry<RateEntry>>, from: nat, to: nat, i: nat, j: nat)
    requires BlocksIncrease(b) && i < j < |InRange(b, from, to)|
    ensures InRange(b, from, to)[i].blockNumber < InRange(b, from, to)[j].blockNumber
  {
    var tail := InRange(b[1..], from, to);
    if !(from <= b[0].version <= to) {
      assert InRange(b, from, to) == tail;
      RangeBlocksIncrease(b[1..], from, to, i, j);
    } else if i > 0 {
      RangeBlocksIncrease(b[1..], from, to, i - 1, j - 1);
    } else {
      RangeIsStored(b[1..], from, to, tail[j - 1]);
      var k :| 0 <= k < |b[1..]| && b[1..][k].value == tail[j - 1] && from <= b[1..][k].version <= to;
      assert b[k + 1] == b[1..][k];
    }
  }

  function Served(b: seq<Entry<RateEntry>>, from: nat, to: nat): seq<RateEntry> { Reversed(InRange(b, from, to)) }

  lemma ServedBlocksDecrease(b: seq<Entry<RateEntry>>, from: nat, to: nat)
    requires BlocksIncrease(b)
    ensures BlocksDecrease(Served(b, from, to))
  {
    var range, rates := InRange(b, from, to), Served(b, from, to);
    forall i, j | 0 <= i < j < |rates| ensures rates[i].blockNumber > rates[j].blockNumber {
      RangeBlocksIncrease(b, from, to, |range| - 1 - j, |range| - 1 - i);
    }
  }

  /**
   * The whole pipeline: for every history stored at increasing times and every
   * time range, the intervals served are disjoint and descending, and each
   * stored entry of the range that has data lies in exactly one of them
   * (`CoveredOnce`), which agrees with it on every token it lists.
   */
  lemma ServedRatesAreFaithful(stores: seq<Store>, from: nat, to: nat, toFloat: int -> real, i: nat)
    requires TimesIncrease(stores)
    ensures DisjointDescending(Compressed(Served(Stored(stores), from, to), toFloat))
    ensures var b := Stored(stores);
            i < |b| && from <= b[i].version <= to && b[i].value.data != map[] ==>
              Represented(Compressed(Served(b, from, to), toFloat), b[i].value, toFloat)
  {
    StoredBlocksIncrease(stores, UINT64);
    var b := Stored(stores);
    ServedBlocksDecrease(b, from, to);
    IntervalsDescend(Served(b, from, to), toFloat);
    if i < |b| { ServedEntry(b, from, to, toFloat, i); }
  }

  lemma PlaceOfEntry(b: seq<Entry<RateEntry>>, from: nat, to: nat, i: nat) returns (k: nat)
    requires i < |b| && from <= b[i].version <= to
    ensures k < |Served(b, from, to)| && Served(b, from, to)[k] == b[i].value
  {
    var range := InRange(b, from, to);
    RangeHolds(b, from, to, i);
    var j :| 0 <= j < |range| && range[j] == b[i].value;
    k := |range| - 1 - j;
  }
}

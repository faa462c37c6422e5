/**
 * Trades folded into minute, hour and day buckets (stat/fetcher.go) and
 * batches of buckets added to the stored ones (stat/storage/stat_bolt.go).
 * The nested maps key, frequency, timestamp are one map from cells here.
 */
module BucketStats {
  datatype Freq = M | H | D

  datatype Cell = Cell(key: string, freq: Freq, bucket: nat)

  /** A `VolumeStats` uses the first three amounts, a `BurnFeeStats` the last. */
  datatype Amounts = Amounts(eth: real, usd: real, volume: real, burnFee: real)

  type Stats = map<Cell, Amounts>

  const Zero := Amounts(0.0, 0.0, 0.0, 0.0)

  function Plus(a: Amounts, b: Amounts): Amounts {
    Amounts(a.eth + b.eth, a.usd + b.usd, a.volume + b.volume, a.burnFee + b.burnFee)
  }

  const MINUTE := 60_000_000_000
  const HOUR := 3_600_000_000_000
  const DAY := 86_400_000_000_000

  /** `getTimestampFromTimeZone` for the frequencies "M", "H" and "D". */
  function Bucket(t: nat, freq: Freq): nat {
    match freq
    case M => t / MINUTE * MINUTE
    case H => t / HOUR * HOUR
    case D => t / DAY * DAY
  }

  /** One call of an aggregator: amounts of a key at a time. */
  datatype Item = Item(time: nat, key: string, amounts: Amounts)

  function CellOf(i: Item, freq: Freq): Cell { Cell(i.key, freq, Bucket(i.time, freq)) }

  function At(m: Stats, c: Cell): Amounts { if c in m then m[c] else Zero }

  function AddTo(m: Stats, c: Cell, a: Amounts): Stats { m[c := Plus(At(m, c), a)] }

  function AddItem(m: Stats, i: Item): Stats {
    AddTo(AddTo(AddTo(m, CellOf(i, M), i.amounts), CellOf(i, H), i.amounts), CellOf(i, D), i.amounts)
  }

  function AddItems(m: Stats, items: seq<Item>): Stats {
    if items == [] then m else AddItem(AddItems(m, items[..|items| - 1]), items[|items| - 1])
  }

  lemma AddItemsStep(m: Stats, items: seq<Item>, k: nat)
    requires k < |items|
    ensures AddItems(m, items[..k + 1]) == AddItem(AddItems(m, items[..k]), items[k])
  {
    assert items[..k + 1][..k] == items[..k];
  }

  lemma ThreeItems(m: Stats, a: Item, b: Item, c: Item)
    ensures AddItems(m, [a, b, c]) == AddItem(AddItem(AddItem(m, a), b), c)
  {
    AddItemsStep(m, [a, b, c], 0);
    AddItemsStep(m, [a, b, c], 1);
    AddItemsStep(m, [a, b, c], 2);
    assert [a, b, c][..3] == [a, b, c];
  }

  lemma SixItems(m: Stats, a: Item, b: Item, c: Item, d: Item, e: Item, f: Item)
    ensures AddItems(m, [a, b, c, d, e, f]) ==
            AddItem(AddItem(AddItem(AddItem(AddItem(AddItem(m, a), b), c), d), e), f)
  {
    ThreeItems(m, a, b, c);
    ThreeItems(AddItems(m, [a, b, c]), d, e, f);
    AddItemsConcat(m, [a, b, c], [d, e, f]);
    assert [a, b, c] + [d, e, f] == [a, b, c, d, e, f];
  }

  // Aggregators

  const ETH := "0xeeeeeeeeeeeeeeeeeeeeeeeeeeeeeeeeeeeeeeee"

  /** A stored trade log, its addresses printed and its amounts converted. */
  datatype Trade = Trade(
    timestamp: nat, src: string, dest: string, user: string, reserve: string, wallet: string, country: string,
    srcAmount: real, destAmount: real, fiat: real, burnFee: real, walletFee: real)

  /** The ETH amount of `getTradeInfo`: the destination wins, and a pair without ETH has none. */
  function EthAmount(t: Trade): real {
    if t.dest == ETH then t.destAmount else if t.src == ETH then t.srcAmount else 0.0
  }

  function PairKey(a: string, b: string): string { a + "_" + b }

  function Volume(t: Trade, key: string, assetAmount: real): Item {
    Item(t.timestamp, key, Amounts(EthAmount(t), t.fiat, assetAmount, 0.0))
  }

  function AssetAddress(t: Trade): string { if t.src != ETH then t.src else t.dest }

  function AssetAmount(t: Trade): real { if t.src != ETH then t.srcAmount else t.destAmount }

  /** The keys that `aggregateVolumeStats` adds a trade to. */
  function VolumeItems(t: Trade): seq<Item> {
    [ Volume(t, t.src, t.srcAmount),
      Volume(t, t.dest, t.destAmount),
      Volume(t, t.user, t.srcAmount),
      Volume(t, PairKey(t.reserve, AssetAddress(t)), AssetAmount(t)),
      Volume(t, PairKey(t.reserve, ETH), EthAmount(t)),
      Volume(t, PairKey(t.country, AssetAddress(t)), AssetAmount(t)) ]
  }

  function Burn(t: Trade, key: string, fee: real): Item { Item(t.timestamp, key, Amounts(0.0, 0.0, 0.0, fee)) }

  /** The keys that `aggregateBurnFeeStats` adds a trade to. */
  function BurnItems(t: Trade): seq<Item> {
    [Burn(t, t.reserve, t.burnFee), Burn(t, PairKey(t.reserve, t.wallet), t.walletFee)]
  }

  datatype Kind = VolumeStat | BurnFeeStat

  type Aggregator = Trade -> seq<Item>

  function AggregatorOf(kind: Kind): Aggregator { if kind.VolumeStat? then VolumeItems else BurnItems }

  function AllItems(items: Aggregator, trades: seq<Trade>): seq<Item> {
    if trades == [] then []
    else AllItems(items, trades[..|trades| - 1]) + items(trades[|trades| - 1])
  }

  lemma {:induction false} AddItemsConcat(m: Stats, a: seq<Item>, b: seq<Item>)
    ensures AddItems(m, a + b) == AddItems(AddItems(m, a), b)
  {
    if b == [] {
      assert a + b == a;
    } else {
      var n := |b| - 1;
      AddItemsConcat(m, a, b[..n]);
      assert (a + b)[..|a + b| - 1] == a + b[..n];
    }
  }

  lemma AllItemsAppend(items: Aggregator, trades: seq<Trade>, t: Trade)
    ensures AllItems(items, trades + [t]) == AllItems(items, trades) + items(t)
  {
    assert (trades + [t])[..|trades|] == trades;
  }

  lemma Associates(a: seq<Item>, b: seq<Item>, c: seq<Item>)
    ensures (a + b) + c == a + (b + c)
  {}

  lemma {:induction false} AllItemsConcat(items: Aggregator, a: seq<Trade>, b: seq<Trade>)
    ensures AllItems(items, a + b) == AllItems(items, a) + AllItems(items, b)
  {
    if b == [] {
      assert a + b == a;
    } else {
      var init, t := b[..|b| - 1], b[|b| - 1];
      AllItemsConcat(items, a, init);
      assert b == init + [t] && a + b == (a + init) + [t];
      AllItemsAppend(items, a + init, t);
      AllItemsAppend(items, init, t);
      Associates(AllItems(items, a), AllItems(items, init), items(t));
    }
  }

  /** The batch map that the aggregators fill in place. */
  class Batch {
    var cells: Stats

    constructor ()
      ensures cells == map[]
    {
      cells := map[];
    }

    /** The loop of `aggregateVolumeStat` and of `aggregateBurnfee` over the frequencies. */
    method Aggregate(item: Item)
      modifies this
      ensures cells == AddItem(old(cells), item)
      ensures forall key, freq, b: nat :: b % Width(freq) == 0 ==>
                At(cells, Cell(key, freq, b)) ==
                Plus(At(old(cells), Cell(key, freq, b)),
                     When(key == item.key && b <= item.time < b + Width(freq), item.amounts))
    {
      var freqs := [M, H, D];
      for k := 0 to 3
        invariant k == 0 ==> cells == old(cells)
        invariant k == 1 ==> cells == AddTo(old(cells), CellOf(item, M), item.amounts)
        invariant k == 2 ==> cells == AddTo(AddTo(old(cells), CellOf(item, M), item.amounts),
                                            CellOf(item, H), item.amounts)
        invariant k == 3 ==> cells == AddItem(old(cells), item)
      {
        var c := CellOf(item, freqs[k]);
        var data := if c in cells then cells[c] else Zero;
        cells := cells[c := Plus(data, item.amounts)];
      }
      forall key, freq, b: nat | b % Width(freq) == 0
        ensures At(cells, Cell(key, freq, b)) ==
                Plus(At(old(cells), Cell(key, freq, b)),
                     When(key == item.key && b <= item.time < b + Width(freq), item.amounts))
      {
        ItemAt(old(cells), item, key, freq, b);
      }
    }

    method AggregateVolumeStats(t: Trade)
      modifies this
      ensures cells == AddItems(old(cells), VolumeItems(t))
    {
      var ethAmount := 0.0;
      if t.src == ETH {
        ethAmount := t.srcAmount;
      }
      if t.dest == ETH {
        ethAmount := t.destAmount;
      }
      var assetAddr, assetAmount := t.dest, t.destAmount;
      if t.src != ETH {
        assetAddr, assetAmount := t.src, t.srcAmount;
      }
      ghost var before := cells;
      AggregateVolume(t, t.src, t.srcAmount, ethAmount);
      AggregateVolume(t, t.dest, t.destAmount, ethAmount);
      AggregateVolume(t, t.user, t.srcAmount, ethAmount);
      AggregateVolume(t, PairKey(t.reserve, assetAddr), assetAmount, ethAmount);
      AggregateVolume(t, PairKey(t.reserve, ETH), ethAmount, ethAmount);
      AggregateVolume(t, PairKey(t.country, assetAddr), assetAmount, ethAmount);
      SixItems(before, Volume(t, t.src, t.srcAmount), Volume(t, t.dest, t.destAmount),
               Volume(t, t.user, t.srcAmount), Volume(t, PairKey(t.reserve, assetAddr), assetAmount),
               Volume(t, PairKey(t.reserve, ETH), ethAmount), Volume(t, PairKey(t.country, assetAddr), assetAmount));
    }

    method AggregateVolume(t: Trade, key: string, assetAmount: real, ethAmount: real)
      requires ethAmount == EthAmount(t)
      modifies this
      ensures cells == AddItem(old(cells), Volume(t, key, assetAmount))
    {
      Aggregate(Item(t.timestamp, key, Amounts(ethAmount, t.fiat, assetAmount, 0.0)));
    }

    method AggregateBurnFeeStats(t: Trade)
      modifies this
      ensures cells == AddItems(old(cells), BurnItems(t))
    {
      AddItemsStep(cells, BurnItems(t), 0);
      AddItemsStep(cells, BurnItems(t), 1);
      assert BurnItems(t)[..2] == BurnItems(t);
      Aggregate(Burn(t, t.reserve, t.burnFee));
      Aggregate(Burn(t, PairKey(t.reserve, t.wallet), t.walletFee));
    }
  }

  lemma PlusSwap(a: Amounts, b: Amounts, c: Amounts)
    ensures Plus(a, Plus(b, c)) == Plus(b, Plus(a, c))
  {}

  lemma PlusAssociates(a: Amounts, b: Amounts, c: Amounts)
    ensures Plus(Plus(a, b), c) == Plus(a, Plus(b, c))
  {}

  // Sums over the cells that satisfy a predicate

  ghost function SumOver(cells: set<Cell>, m: Stats): Amounts
    requires cells <= m.Keys
  {
    if cells == {} then Zero
    else var c :| c in cells; Plus(m[c], SumOver(cells - {c}, m))
  }

  function CellsWhere(m: Stats, p: Cell -> bool): set<Cell> { set c | c in m.Keys && p(c) }

  ghost function SumWhere(m: Stats, p: Cell -> bool): Amounts { SumOver(CellsWhere(m, p), m) }

  /** The order in which the cells are summed does not matter. */
  lemma {:induction false} SumOverRemove(cells: set<Cell>, m: Stats, x: Cell)
    requires x in cells && cells <= m.Keys
    ensures SumOver(cells, m) == Plus(m[x], SumOver(cells - {x}, m))
    decreases cells
  {
    var y :| y in cells && SumOver(cells, m) == Plus(m[y], SumOver(cells - {y}, m));
    if y != x {
      SumOverRemove(cells - {y}, m, x);
      SumOverRemove(cells - {x}, m, y);
      assert cells - {y} - {x} == cells - {x} - {y};
      PlusSwap(m[y], m[x], SumOver(cells - {x} - {y}, m));
    }
  }

  lemma {:induction false} SumOverSame(cells: set<Cell>, m: Stats, m': Stats)
    requires cells <= m.Keys && cells <= m'.Keys && forall c :: c in cells ==> m[c] == m'[c]
    ensures SumOver(cells, m) == SumOver(cells, m')
    decreases cells
  {
    if cells != {} {
      var x :| x in cells;
      SumOverRemove(cells, m, x);
      SumOverRemove(cells, m', x);
      SumOverSame(cells - {x}, m, m');
    }
  }

  function When(yes: bool, a: Amounts): Amounts { if yes then a else Zero }

  /** Adding to one cell adds to every sum that includes it. */
  lemma SumWhereAdd(m: Stats, x: Cell, a: Amounts, p: Cell -> bool)
    ensures SumWhere(AddTo(m, x, a), p) == Plus(SumWhere(m, p), When(p(x), a))
  {
    var m' := AddTo(m, x, a);
    var s, s' := CellsWhere(m, p), CellsWhere(m', p);
    if !p(x) {
      assert s' == s;
      SumOverSame(s, m, m');
    } else {
      assert s' - {x} == s - {x};
      SumOverRemove(s', m', x);
      SumOverSame(s - {x}, m, m');
      if x in m { SumOverRemove(s, m, x); } else { assert s - {x} == s; }
    }
  }

  function SumItem(i: Item, p: Cell -> bool): Amounts {
    Plus(Plus(When(p(CellOf(i, M)), i.amounts), When(p(CellOf(i, H)), i.amounts)),
         When(p(CellOf(i, D)), i.amounts))
  }

  function SumItems(items: seq<Item>, p: Cell -> bool): Amounts {
    if items == [] then Zero else Plus(SumItems(items[..|items| - 1], p), SumItem(items[|items| - 1], p))
  }

  lemma SumWhereAddItem(m: Stats, i: Item, p: Cell -> bool)
    ensures SumWhere(AddItem(m, i), p) == Plus(SumWhere(m, p), SumItem(i, p))
  {
    var m1 := AddTo(m, CellOf(i, M), i.amounts);
    var m2 := AddTo(m1, CellOf(i, H), i.amounts);
    SumWhereAdd(m, CellOf(i, M), i.amounts, p);
    SumWhereAdd(m1, CellOf(i, H), i.amounts, p);
    SumWhereAdd(m2, CellOf(i, D), i.amounts, p);
    FourSums(SumWhere(m, p), When(p(CellOf(i, M)), i.amounts), When(p(CellOf(i, H)), i.amounts),
             When(p(CellOf(i, D)), i.amounts));
  }

  lemma FourSums(a: Amounts, b: Amounts, c: Amounts, d: Amounts)
    ensures Plus(Plus(Plus(a, b), c), d) == Plus(a, Plus(Plus(b, c), d))
  {}

  /** A sum over an aggregation is the sum of what the items add to the cells concerned. */
  lemma {:induction false} SumOfAggregation(m: Stats, items: seq<Item>, p: Cell -> bool)
    ensures SumWhere(AddItems(m, items), p) == Plus(SumWhere(m, p), SumItems(items, p))
  {
    if items != [] {
      var n := |items| - 1;
      SumOfAggregation(m, items[..n], p);
      SumWhereAddItem(AddItems(m, items[..n]), items[n], p);
      PlusAssociates(SumWhere(m, p), SumItems(items[..n], p), SumItem(items[n], p));
    }
  }

  lemma SumOfNothing(p: Cell -> bool)
    ensures SumWhere(map[], p) == Zero
  {
    assert CellsWhere(map[], p) == {};
  }

  // Conservation between frequencies

  ghost predicate Only(p: Cell -> bool, freq: Freq) { forall c: Cell :: p(c) ==> c.freq == freq }

  lemma {:induction false} SameSums(items: seq<Item>, p: Cell -> bool, f: Freq, q: Cell -> bool, g: Freq)
    requires Only(p, f) && Only(q, g)
    requires forall i :: i in items ==> (p(CellOf(i, f)) <==> q(CellOf(i, g)))
    ensures SumItems(items, p) == SumItems(items, q)
  {
    if items != [] {
      SameSums(items[..|items| - 1], p, f, q, g);
      SumOfItem(items[|items| - 1], p, f);
      SumOfItem(items[|items| - 1], q, g);
    }
  }

  lemma SumOfItem(i: Item, p: Cell -> bool, freq: Freq)
    requires Only(p, freq)
    ensures SumItem(i, p) == When(p(CellOf(i, freq)), i.amounts)
  {}

  function Exactly(x: Cell): Cell -> bool { (c: Cell) => c == x }

  /** The cells of a key and frequency whose buckets start in [from, from + width). */
  function Within(key: string, freq: Freq, from: nat, width: nat): Cell -> bool {
    (c: Cell) => c.key == key && c.freq == freq && from <= c.bucket < from + width
  }

  function Every(key: string, freq: Freq): Cell -> bool { (c: Cell) => c.key == key && c.freq == freq }

  lemma SumOfOne(m: Stats, x: Cell)
    ensures SumWhere(m, Exactly(x)) == At(m, x)
  {
    var s := CellsWhere(m, Exactly(x));
    if x in m {
      assert s == {x};
      SumOverRemove(s, m, x);
      assert s - {x} == {};
    } else {
      assert s == {};
    }
  }

  /** A time is in an hour if and only if its minute bucket lies in that hour. */
  lemma MinutesOfHour(t: nat, hour: nat)
    ensures Bucket(t, H) == hour * HOUR <==> hour * HOUR <= Bucket(t, M) < hour * HOUR + HOUR
  {
    var m, h := t / MINUTE, t / HOUR;
    assert m * MINUTE <= t < m * MINUTE + MINUTE;
    assert h * HOUR <= t < h * HOUR + HOUR;
    assert 60 * h <= m < 60 * h + 60;
    assert Bucket(t, M) == m * MINUTE && Bucket(t, H) == h * HOUR;
  }

  lemma HoursOfDay(t: nat, day: nat)
    ensures Bucket(t, D) == day * DAY <==> day * DAY <= Bucket(t, H) < day * DAY + DAY
  {
    var h, d := t / HOUR, t / DAY;
    assert h * HOUR <= t < h * HOUR + HOUR;
    assert d * DAY <= t < d * DAY + DAY;
    assert 24 * d <= h < 24 * d + 24;
    assert Bucket(t, H) == h * HOUR && Bucket(t, D) == d * DAY;
  }

  /** An hour bucket holds the sum of the minute buckets inside it. */
  lemma HourIsSumOfMinutes(items: seq<Item>, key: string, hour: nat)
    ensures var m := AddItems(map[], items);
            At(m, Cell(key, H, hour * HOUR)) == SumWhere(m, Within(key, M, hour * HOUR, HOUR))
  {
    var m, p, q := AddItems(map[], items), Exactly(Cell(key, H, hour * HOUR)), Within(key, M, hour * HOUR, HOUR);
    forall i | i in items ensures p(CellOf(i, H)) <==> q(CellOf(i, M)) { MinutesOfHour(i.time, hour); }
    SumsAgree(items, p, H, q, M);
    SumOfOne(m, Cell(key, H, hour * HOUR));
  }

  /** A day bucket holds the sum of its hour buckets. */
  lemma DayIsSumOfHours(items: seq<Item>, key: string, day: nat)
    ensures var m := AddItems(map[], items);
            At(m, Cell(key, D, day * DAY)) == SumWhere(m, Within(key, H, day * DAY, DAY))
  {
    var m, p, q := AddItems(map[], items), Exactly(Cell(key, D, day * DAY)), Within(key, H, day * DAY, DAY);
    forall i | i in items ensures p(CellOf(i, D)) <==> q(CellOf(i, H)) { HoursOfDay(i.time, day); }
    SumsAgree(items, p, D, q, H);
    SumOfOne(m, Cell(key, D, day * DAY));
  }

  /** Every frequency has the same grand total for a key. */
  lemma GrandTotalsAgree(items: seq<Item>, key: string, f: Freq, g: Freq)
    ensures var m := AddItems(map[], items); SumWhere(m, Every(key, f)) == SumWhere(m, Every(key, g))
  {
    SumsAgree(items, Every(key, f), f, Every(key, g), g);
  }

  lemma SumsAgree(items: seq<Item>, p: Cell -> bool, f: Freq, q: Cell -> bool, g: Freq)
    requires Only(p, f) && Only(q, g)
    requires forall i :: i in items ==> (p(CellOf(i, f)) <==> q(CellOf(i, g)))
    ensures SumWhere(AddItems(map[], items), p) == SumWhere(AddItems(map[], items), q)
  {
    SumOfNothing(p);
    SumOfNothing(q);
    SumOfAggregation(map[], items, p);
    SumOfAggregation(map[], items, q);
    SameSums(items, p, f, q, g);
  }

  // What a bucket holds, in times and amounts

  /** Nanoseconds of a minute, an hour and a day. */
  function Width(freq: Freq): nat {
    match freq
    case M => 60_000_000_000
    case H => 3600_000_000_000
    case D => 86400_000_000_000
  }

  /** Buckets start at the multiples of their width, and a time lies in its bucket. */
  lemma BucketCovers(t: nat, freq: Freq)
    ensures Bucket(t, freq) <= t < Bucket(t, freq) + Width(freq)
    ensures Bucket(t, freq) % Width(freq) == 0
  {
    var n := t / Width(freq);
    match freq
    case M => assert n * 60_000_000_000 % 60_000_000_000 == 0;
    case H => assert n * 3600_000_000_000 % 3600_000_000_000 == 0;
    case D => assert n * 86400_000_000_000 % 86400_000_000_000 == 0;
  }

  /** So the bucket of a time starts at `b` exactly when the time is in the width that starts there. */
  lemma BucketExactly(t: nat, freq: Freq, b: nat)
    requires b % Width(freq) == 0
    ensures Bucket(t, freq) == b <==> b <= t < b + Width(freq)
  {
    BucketCovers(t, freq);
    var n, k := Bucket(t, freq) / Width(freq), b / Width(freq);
    match freq
    case M => assert Bucket(t, freq) == n * 60_000_000_000 && b == k * 60_000_000_000;
    case H => assert Bucket(t, freq) == n * 3600_000_000_000 && b == k * 3600_000_000_000;
    case D => assert Bucket(t, freq) == n * 86400_000_000_000 && b == k * 86400_000_000_000;
  }

  /** The sum of an amount over the items of a key in a time range. */
  function Sum(items: seq<Item>, key: string, from: nat, to: nat, amount: Amounts -> real): real {
    if items == [] then 0.0
    else
      var i := items[|items| - 1];
      Sum(items[..|items| - 1], key, from, to, amount) +
      (if i.key == key && from <= i.time < to then amount(i.amounts) else 0.0)
  }

  /** The four amounts of a cell are the sums over the items of its key between two times. */
  ghost predicate Holds(a: Amounts, items: seq<Item>, key: string, from: nat, to: nat) {
    && a.eth == Sum(items, key, from, to, (x: Amounts) => x.eth)
    && a.usd == Sum(items, key, from, to, (x: Amounts) => x.usd)
    && a.volume == Sum(items, key, from, to, (x: Amounts) => x.volume)
    && a.burnFee == Sum(items, key, from, to, (x: Amounts) => x.burnFee)
  }

  lemma SumSnoc(items: seq<Item>, i: Item, key: string, from: nat, to: nat, amount: Amounts -> real)
    ensures Sum(items + [i], key, from, to, amount) ==
            Sum(items, key, from, to, amount) + If(i.key == key && from <= i.time < to, amount(i.amounts))
  {
    assert (items + [i])[..|items|] == items;
  }

  function If(yes: bool, x: real): real { if yes then x else 0.0 }

  ghost predicate Additive(amount: Amounts -> real) {
    amount(Zero) == 0.0 && forall a, b :: amount(Plus(a, b)) == amount(a) + amount(b)
  }

  lemma InCell(i: Item, key: string, freq: Freq, b: nat)
    requires b % Width(freq) == 0
    ensures Exactly(Cell(key, freq, b))(CellOf(i, freq)) <==> i.key == key && b <= i.time < b + Width(freq)
  {
    BucketExactly(i.time, freq, b);
  }

  lemma {:induction false} SumHolds(items: seq<Item>, key: string, freq: Freq, b: nat, amount: Amounts -> real)
    requires b % Width(freq) == 0 && Additive(amount)
    ensures amount(SumItems(items, Exactly(Cell(key, freq, b)))) == Sum(items, key, b, b + Width(freq), amount)
  {
    if items != [] {
      var i := items[|items| - 1];
      SumHolds(items[..|items| - 1], key, freq, b, amount);
      InCell(i, key, freq, b);
      SumOfItem(i, Exactly(Cell(key, freq, b)), freq);
    }
  }

  lemma CellOfAggregation(items: seq<Item>, c: Cell)
    ensures At(AddItems(map[], items), c) == SumItems(items, Exactly(c))
  {
    SumOfNothing(Exactly(c));
    SumOfAggregation(map[], items, Exactly(c));
    SumOfOne(AddItems(map[], items), c);
    assert Plus(Zero, SumItems(items, Exactly(c))) == SumItems(items, Exactly(c));
  }

  /** One item adds its amounts to the cell of its time at each frequency, and to no other. */
  lemma ItemAt(m: Stats, i: Item, key: string, freq: Freq, b: nat)
    requires b % Width(freq) == 0
    ensures At(AddItem(m, i), Cell(key, freq, b)) ==
            Plus(At(m, Cell(key, freq, b)), When(i.key == key && b <= i.time < b + Width(freq), i.amounts))
  {
    var c := Cell(key, freq, b);
    SumWhereAddItem(m, i, Exactly(c));
    SumOfOne(m, c);
    SumOfOne(AddItem(m, i), c);
    SumOfItem(i, Exactly(c), freq);
    InCell(i, key, freq, b);
  }

  /** A minute, hour or day cell of an aggregation holds the sums over the items of its key and of its time. */
  lemma CellIsSum(items: seq<Item>, key: string, freq: Freq, b: nat)
    requires b % Width(freq) == 0
    ensures Holds(At(AddItems(map[], items), Cell(key, freq, b)), items, key, b, b + Width(freq))
  {
    CellOfAggregation(items, Cell(key, freq, b));
    SumHolds(items, key, freq, b, (x: Amounts) => x.eth);
    SumHolds(items, key, freq, b, (x: Amounts) => x.usd);
    SumHolds(items, key, freq, b, (x: Amounts) => x.volume);
    SumHolds(items, key, freq, b, (x: Amounts) => x.burnFee);
  }

  // What a trade adds

  lemma SumOfSix(a: Item, b: Item, c: Item, d: Item, e: Item, f: Item, key: string, from: nat, to: nat, amount: Amounts -> real)
    ensures Sum([a, b, c, d, e, f], key, from, to, amount) ==
            If(a.key == key && from <= a.time < to, amount(a.amounts)) +
            If(b.key == key && from <= b.time < to, amount(b.amounts)) +
            If(c.key == key && from <= c.time < to, amount(c.amounts)) +
            If(d.key == key && from <= d.time < to, amount(d.amounts)) +
            If(e.key == key && from <= e.time < to, amount(e.amounts)) +
            If(f.key == key && from <= f.time < to, amount(f.amounts))
  {
    SumSnoc([], a, key, from, to, amount);
    SumSnoc([] + [a], b, key, from, to, amount);
    SumSnoc([] + [a] + [b], c, key, from, to, amount);
    SumSnoc([] + [a] + [b] + [c], d, key, from, to, amount);
    SumSnoc([] + [a] + [b] + [c] + [d], e, key, from, to, amount);
    SumSnoc([] + [a] + [b] + [c] + [d] + [e], f, key, from, to, amount);
    assert [] + [a] + [b] + [c] + [d] + [e] + [f] == [a, b, c, d, e, f];
  }

  /** The sum of what a trade adds to a key, if its six keys gain the given amounts. */
  function OfSixKeys(t: Trade, key: string, src: real, dest: real, user: real, pair: real, pairEth: real, country: real): real {
    var token := if t.src == ETH then t.dest else t.src;
    If(t.src == key, src) + If(t.dest == key, dest) + If(t.user == key, user) +
    If(t.reserve + "_" + token == key, pair) + If(t.reserve + "_" + ETH == key, pairEth) +
    If(t.country + "_" + token == key, country)
  }

  lemma VolumeBy(t: Trade, key: string, from: nat, to: nat, amount: Amounts -> real)
    requires from <= t.timestamp < to
    ensures var eth := if t.dest == ETH then t.destAmount else if t.src == ETH then t.srcAmount else 0.0;
            var asset := if t.src == ETH then t.destAmount else t.srcAmount;
            Sum(VolumeItems(t), key, from, to, amount) ==
              OfSixKeys(t, key, amount(Amounts(eth, t.fiat, t.srcAmount, 0.0)), amount(Amounts(eth, t.fiat, t.destAmount, 0.0)),
                        amount(Amounts(eth, t.fiat, t.srcAmount, 0.0)), amount(Amounts(eth, t.fiat, asset, 0.0)),
                        amount(Amounts(eth, t.fiat, eth, 0.0)), amount(Amounts(eth, t.fiat, asset, 0.0)))
  {
    var v := VolumeItems(t);
    SumOfSix(v[0], v[1], v[2], v[3], v[4], v[5], key, from, to, amount);
    assert v == [v[0], v[1], v[2], v[3], v[4], v[5]];
  }

  /**
   * The volume statistics of a trade: the source token gains the source amount,
   * the destination token the destination amount, the user the source amount,
   * and the reserve and the country gain, under the token of the pair that is
   * not ETH, that token's amount, and the reserve under ETH the ETH amount. Each
   * of these six keys gains the ETH amount and the fiat amount of the trade.
   */
  lemma VolumeOfTrade(t: Trade, key: string, from: nat, to: nat)
    requires from <= t.timestamp < to
    ensures var eth := if t.dest == ETH then t.destAmount else if t.src == ETH then t.srcAmount else 0.0;
            var asset := if t.src == ETH then t.destAmount else t.srcAmount;
            && Sum(VolumeItems(t), key, from, to, (x: Amounts) => x.volume) ==
               OfSixKeys(t, key, t.srcAmount, t.destAmount, t.srcAmount, asset, eth, asset)
            && Sum(VolumeItems(t), key, from, to, (x: Amounts) => x.eth) == OfSixKeys(t, key, eth, eth, eth, eth, eth, eth)
            && Sum(VolumeItems(t), key, from, to, (x: Amounts) => x.usd) ==
               OfSixKeys(t, key, t.fiat, t.fiat, t.fiat, t.fiat, t.fiat, t.fiat)
  {
    VolumeBy(t, key, from, to, (x: Amounts) => x.volume);
    VolumeBy(t, key, from, to, (x: Amounts) => x.eth);
    VolumeBy(t, key, from, to, (x: Amounts) => x.usd);
  }

  /** The fee statistics of a trade: the reserve gains the burn fee, and reserve and wallet the wallet fee. */
  lemma FeesOfTrade(t: Trade, key: string, from: nat, to: nat)
    requires from <= t.timestamp < to
    ensures Sum(BurnItems(t), key, from, to, (x: Amounts) => x.burnFee) ==
            If(t.reserve == key, t.burnFee) + If(t.reserve + "_" + t.wallet == key, t.walletFee)
  {
    var b := BurnItems(t);
    SumSnoc([], b[0], key, from, to, (x: Amounts) => x.burnFee);
    SumSnoc([b[0]], b[1], key, from, to, (x: Amounts) => x.burnFee);
    assert [] + [b[0]] == [b[0]] && [b[0]] + [b[1]] == b;
  }

  /** A trade outside the range adds nothing. */
  lemma {:induction false} NothingOutside(items: seq<Item>, key: string, from: nat, to: nat, amount: Amounts -> real)
    requires forall i :: i in items ==> !(from <= i.time < to)
    ensures Sum(items, key, from, to, amount) == 0.0
  {
    if items != [] { NothingOutside(items[..|items| - 1], key, from, to, amount); }
  }

  lemma {:induction false} SumConcat(a: seq<Item>, b: seq<Item>, key: string, from: nat, to: nat, amount: Amounts -> real)
    ensures Sum(a + b, key, from, to, amount) == Sum(a, key, from, to, amount) + Sum(b, key, from, to, amount)
  {
    if b == [] {
      assert a + b == a;
    } else {
      var n := |b| - 1;
      SumConcat(a, b[..n], key, from, to, amount);
      assert (a + b)[..|a + b| - 1] == a + b[..n];
    }
  }

  /** The sums over the items of many trades are the sums of what the trades add, one by one. */
  function SumOfTrades(
    items: Aggregator, trades: seq<Trade>, key: string, from: nat, to: nat, amount: Amounts -> real): real
  {
    if trades == [] then 0.0
    else SumOfTrades(items, trades[..|trades| - 1], key, from, to, amount) +
         Sum(items(trades[|trades| - 1]), key, from, to, amount)
  }

  lemma {:induction false} TradesAddUp(
    items: Aggregator, trades: seq<Trade>, key: string, from: nat, to: nat, amount: Amounts -> real)
    ensures Sum(AllItems(items, trades), key, from, to, amount) == SumOfTrades(items, trades, key, from, to, amount)
  {
    if trades != [] {
      var n := |trades| - 1;
      TradesAddUp(items, trades[..n], key, from, to, amount);
      SumConcat(AllItems(items, trades[..n]), items(trades[n]), key, from, to, amount);
    }
  }
}

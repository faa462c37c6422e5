/**
 * Building a rate update (blockchain/blockchain.go, blockchain/compact_rate.go):
 * per token a new base or a compact byte, and the bytes packed into bulks of
 * fourteen slots.
 */
module RateUpdate {
  import opened OrderedKeys
  import opened CompactRates

  const BULK_SIZE := 14

  type Address = nat

  datatype Slot = Slot(bulk: nat, position: nat)

  /** A missing token reads as the zero index, as a Go map does. */
  function SlotOf(indices: map<Address, Slot>, a: Address): Slot {
    if a in indices then indices[a] else Slot(0, 0)
  }

  function ByteAt(m: map<Address, byte>, a: Address): byte { if a in m then m[a] else 0 }

  const Zeros: seq<byte> := seq(BULK_SIZE, i => 0 as byte)

  predicate Occupies(indices: map<Address, Slot>, a: Address, bulk: nat, position: nat) {
    SlotOf(indices, a) == Slot(bulk, position)
  }

  /**
   * A slot of a bulk carries the bytes of one of the tokens written there, both
   * from the same token, and zeros if no token was written there.
   */
  ghost predicate SlotRight(
    written: set<Address>, buys: map<Address, byte>, sells: map<Address, byte>, indices: map<Address, Slot>,
    bulk: nat, position: nat, buy: byte, sell: byte)
  {
    || (exists a :: a in written && Occupies(indices, a, bulk, position) && buy == ByteAt(buys, a) && sell == ByteAt(sells, a))
    || (buy == 0 && sell == 0 && forall a :: a in written ==> !Occupies(indices, a, bulk, position))
  }

  ghost predicate BulkRight(
    written: set<Address>, buys: map<Address, byte>, sells: map<Address, byte>, indices: map<Address, Slot>,
    bulk: nat, buy: seq<byte>, sell: seq<byte>)
  {
    && |buy| == BULK_SIZE && |sell| == BULK_SIZE
    && forall p :: 0 <= p < BULK_SIZE ==> SlotRight(written, buys, sells, indices, bulk, p, buy[p], sell[p])
  }

  ghost predicate FitsBulks(tokens: set<Address>, indices: map<Address, Slot>) {
    forall a :: a in tokens ==> SlotOf(indices, a).position < BULK_SIZE
  }

  ghost predicate Touched(written: set<Address>, indices: map<Address, Slot>, bulk: nat) {
    exists a :: a in written && SlotOf(indices, a).bulk == bulk
  }

  /** The two bulk maps while tokens are being written. */
  ghost predicate BulksRight(
    written: set<Address>, buys: map<Address, byte>, sells: map<Address, byte>, indices: map<Address, Slot>,
    buyBulks: map<nat, seq<byte>>, sellBulks: map<nat, seq<byte>>)
  {
    && written <= buys.Keys
    && buyBulks.Keys == sellBulks.Keys
    && (forall k :: k in buyBulks <==> Touched(written, indices, k))
    && (forall k :: k in buyBulks ==> BulkRight(written, buys, sells, indices, k, buyBulks[k], sellBulks[k]))
  }

  lemma WriteSlot(
    written: set<Address>, buys: map<Address, byte>, sells: map<Address, byte>, indices: map<Address, Slot>,
    a: Address, bulk: nat, buy: seq<byte>, sell: seq<byte>)
    requires written <= buys.Keys && a in buys && SlotOf(indices, a).position < BULK_SIZE
    requires BulkRight(written, buys, sells, indices, bulk, buy, sell)
    ensures var p := SlotOf(indices, a).position;
            SlotOf(indices, a).bulk == bulk ==>
              BulkRight(written + {a}, buys, sells, indices, bulk, buy[p := buys[a]], sell[p := ByteAt(sells, a)])
    ensures SlotOf(indices, a).bulk != bulk ==>
              BulkRight(written + {a}, buys, sells, indices, bulk, buy, sell)
  {
    var s := SlotOf(indices, a);
    var buy' := if s.bulk == bulk then buy[s.position := buys[a]] else buy;
    var sell' := if s.bulk == bulk then sell[s.position := ByteAt(sells, a)] else sell;
    forall p | 0 <= p < BULK_SIZE
      ensures SlotRight(written + {a}, buys, sells, indices, bulk, p, buy'[p], sell'[p])
    {
      assert SlotRight(written, buys, sells, indices, bulk, p, buy[p], sell[p]);
      if Occupies(indices, a, bulk, p) {
        assert a in written + {a};
      } else if w :| w in written && Occupies(indices, w, bulk, p) && buy[p] == ByteAt(buys, w) && sell[p] == ByteAt(sells, w) {
        assert w in written + {a};
      }
    }
  }

  lemma EmptyBulkRight(
    written: set<Address>, buys: map<Address, byte>, sells: map<Address, byte>, indices: map<Address, Slot>, bulk: nat)
    requires written <= buys.Keys && !Touched(written, indices, bulk)
    ensures BulkRight(written, buys, sells, indices, bulk, Zeros, Zeros)
  {}

  datatype Bulks = Bulks(buys: seq<seq<byte>>, sells: seq<seq<byte>>, indices: seq<nat>)

  /** The three result slices are aligned: one entry of each per touched bulk, and no bulk twice. */
  ghost predicate Aligned(
    b: Bulks, written: set<Address>, buys: map<Address, byte>, sells: map<Address, byte>, indices: map<Address, Slot>)
  {
    && |b.buys| == |b.indices| && |b.sells| == |b.indices|
    && written <= buys.Keys
    && (forall i, j :: 0 <= i < j < |b.indices| ==> b.indices[i] != b.indices[j])
    && (forall k :: k in b.indices <==> Touched(written, indices, k))
    && (forall j :: 0 <= j < |b.indices| ==>
          BulkRight(written, buys, sells, indices, b.indices[j], b.buys[j], b.sells[j]))
  }

  /** Writing one token into the bulk maps. */
  lemma WriteToken(
    written: set<Address>, buys: map<Address, byte>, sells: map<Address, byte>, indices: map<Address, Slot>,
    a: Address, buyBulks: map<nat, seq<byte>>, sellBulks: map<nat, seq<byte>>)
    requires BulksRight(written, buys, sells, indices, buyBulks, sellBulks)
    requires a in buys && SlotOf(indices, a).position < BULK_SIZE
    ensures var s := SlotOf(indices, a);
            var buy := if s.bulk in buyBulks then buyBulks[s.bulk] else Zeros;
            var sell := if s.bulk in buyBulks then sellBulks[s.bulk] else Zeros;
            && |buy| == BULK_SIZE && |sell| == BULK_SIZE
            && BulksRight(written + {a}, buys, sells, indices,
                          buyBulks[s.bulk := buy[s.position := buys[a]]],
                          sellBulks[s.bulk := sell[s.position := ByteAt(sells, a)]])
  {
    var s := SlotOf(indices, a);
    if s.bulk !in buyBulks { EmptyBulkRight(written, buys, sells, indices, s.bulk); }
    var buy := if s.bulk in buyBulks then buyBulks[s.bulk] else Zeros;
    var sell := if s.bulk in buyBulks then sellBulks[s.bulk] else Zeros;
    assert BulkRight(written, buys, sells, indices, s.bulk, buy, sell);
    WriteSlot(written, buys, sells, indices, a, s.bulk, buy, sell);
    TouchedGrows(written, indices, a);
    forall k | k in buyBulks && k != s.bulk
      ensures BulkRight(written + {a}, buys, sells, indices, k, buyBulks[k], sellBulks[k])
    {
      WriteSlot(written, buys, sells, indices, a, k, buyBulks[k], sellBulks[k]);
    }
  }

  /** First loop of `BuildCompactBulk`, in any order of the map. */
  method FillBulks(newBuys: map<Address, byte>, newSells: map<Address, byte>, indices: map<Address, Slot>)
    returns (buyBulks: map<nat, seq<byte>>, sellBulks: map<nat, seq<byte>>)
    requires FitsBulks(newBuys.Keys, indices)
    ensures BulksRight(newBuys.Keys, newBuys, newSells, indices, buyBulks, sellBulks)
  {
    buyBulks, sellBulks := map[], map[];
    var rest := newBuys.Keys;
    ghost var written: set<Address> := {};
    while rest != {}
      invariant rest <= newBuys.Keys && written == newBuys.Keys - rest
      invariant BulksRight(written, newBuys, newSells, indices, buyBulks, sellBulks)
      decreases |rest|
    {
      var addr :| addr in rest;
      var index := SlotOf(indices, addr);
      var buy := if index.bulk in buyBulks then buyBulks[index.bulk] else Zeros;
      var sell := if index.bulk in buyBulks then sellBulks[index.bulk] else Zeros;
      WriteToken(written, newBuys, newSells, indices, addr, buyBulks, sellBulks);
      buyBulks := buyBulks[index.bulk := buy[index.position := newBuys[addr]]];
      sellBulks := sellBulks[index.bulk := sell[index.position := ByteAt(newSells, addr)]];
      written := written + {addr};
      rest := rest - {addr};
    }
    assert written == newBuys.Keys;
  }

  lemma TouchedGrows(written: set<Address>, indices: map<Address, Slot>, a: Address)
    ensures forall k :: Touched(written + {a}, indices, k) <==>
                        Touched(written, indices, k) || k == SlotOf(indices, a).bulk
  {
    assert a in written + {a};
    forall k | Touched(written, indices, k) ensures Touched(written + {a}, indices, k) {
      var w :| w in written && SlotOf(indices, w).bulk == k;
      assert w in written + {a};
    }
  }

  /** `BuildCompactBulk`: correct for every iteration order of the two maps. */
  method BuildCompactBulk(newBuys: map<Address, byte>, newSells: map<Address, byte>, indices: map<Address, Slot>)
    returns (r: Bulks)
    requires FitsBulks(newBuys.Keys, indices)
    ensures Aligned(r, newBuys.Keys, newBuys, newSells, indices)
  {
    var buyBulks, sellBulks := FillBulks(newBuys, newSells, indices);
    var buyResults, sellResults, indexResults := [], [], [];
    var rest := buyBulks.Keys;
    while rest != {}
      invariant rest <= buyBulks.Keys
      invariant |buyResults| == |indexResults| == |sellResults|
      invariant forall k :: k in indexResults <==> k in buyBulks && k !in rest
      invariant forall i, j :: 0 <= i < j < |indexResults| ==> indexResults[i] != indexResults[j]
      invariant forall j :: 0 <= j < |indexResults| ==>
                  buyResults[j] == buyBulks[indexResults[j]] && sellResults[j] == sellBulks[indexResults[j]]
      decreases |rest|
    {
      var index :| index in rest;
      buyResults := buyResults + [buyBulks[index]];
      sellResults := sellResults + [sellBulks[index]];
      indexResults := indexResults + [index];
      rest := rest - {index};
    }
    r := Bulks(buyResults, sellResults, indexResults);
  }

  ghost predicate DistinctSlots(tokens: set<Address>, indices: map<Address, Slot>) {
    forall a, b :: a in tokens && b in tokens && SlotOf(indices, a) == SlotOf(indices, b) ==> a == b
  }

  /** With distinct slots every token finds its own two bytes, in the entry of its bulk. */
  lemma TokenFindsItsBytes(
    b: Bulks, written: set<Address>, buys: map<Address, byte>, sells: map<Address, byte>,
    indices: map<Address, Slot>, a: Address)
    requires Aligned(b, written, buys, sells, indices) && FitsBulks(written, indices)
    requires DistinctSlots(written, indices) && a in written
    ensures exists j :: 0 <= j < |b.indices| && b.indices[j] == SlotOf(indices, a).bulk
    ensures forall j :: 0 <= j < |b.indices| && b.indices[j] == SlotOf(indices, a).bulk ==>
              && |b.buys[j]| == BULK_SIZE && |b.sells[j]| == BULK_SIZE
              && b.buys[j][SlotOf(indices, a).position] == buys[a]
              && b.sells[j][SlotOf(indices, a).position] == ByteAt(sells, a)
  {
    var s := SlotOf(indices, a);
    assert Touched(written, indices, s.bulk);
    assert s.bulk in b.indices;
    forall j | 0 <= j < |b.indices| && b.indices[j] == s.bulk
      ensures |b.buys[j]| == BULK_SIZE && |b.sells[j]| == BULK_SIZE
      ensures b.buys[j][s.position] == buys[a] && b.sells[j][s.position] == ByteAt(sells, a)
    {
      assert BulkRight(written, buys, sells, indices, s.bulk, b.buys[j], b.sells[j]);
      assert SlotRight(written, buys, sells, indices, s.bulk, s.position,
                       b.buys[j][s.position], b.sells[j][s.position]);
      assert Occupies(indices, a, s.bulk, s.position);
    }
  }

  /** Requested and current rates of one token, and the values computed for the rounding. */
  datatype Quote = Quote(
    token: Address, buy: int, sell: int, baseBuy: int, baseSell: int, buyX: real, sellX: real)

  function BuyRate(q: Quote): CompactRate { Encode(q.buy, q.baseBuy, q.buyX) }

  function SellRate(q: Quote): CompactRate { Encode(q.sell, q.baseSell, q.sellX) }

  /** Both sides get a new base as soon as one of them cannot keep its base. */
  predicate NeedsBase(q: Quote) { BuyRate(q).overflow || SellRate(q).overflow }

  /** What is broadcast: a base update when some token needs one, a compact update otherwise. */
  datatype Update = Update(
    block: nat, baseTokens: seq<Address>, newBaseBuys: seq<int>, newBaseSells: seq<int>, bulks: Bulks)

  ghost predicate DistinctTokens(quotes: seq<Quote>) {
    forall i, j :: 0 <= i < j < |quotes| ==> quotes[i].token != quotes[j].token
  }

  ghost function Tokens(quotes: seq<Quote>): set<Address> { set q | q in quotes :: q.token }

  function BaseQuotes(quotes: seq<Quote>): seq<Quote> {
    if quotes == [] then []
    else BaseQuotes(quotes[..|quotes| - 1]) +
         (var q := quotes[|quotes| - 1]; if NeedsBase(q) then [q] else [])
  }

  lemma {:induction false} BaseQuotesAre(quotes: seq<Quote>, q: Quote)
    ensures q in BaseQuotes(quotes) <==> q in quotes && NeedsBase(q)
  {
    if quotes != [] {
      var last := |quotes| - 1;
      BaseQuotesAre(quotes[..last], q);
      assert quotes == quotes[..last] + [quotes[last]];
    }
  }

  /** The base arrays of an update list the quotes that need a base, in order. */
  predicate ListsBases(u: Update, bases: seq<Quote>) {
    && |u.baseTokens| == |bases| && |u.newBaseBuys| == |bases| && |u.newBaseSells| == |bases|
    && forall i :: 0 <= i < |bases| ==>
         u.baseTokens[i] == bases[i].token && u.newBaseBuys[i] == bases[i].buy && u.newBaseSells[i] == bases[i].sell
  }

  /** The bulks hold, for each token, the bytes of its quote. */
  ghost predicate Packed(quotes: seq<Quote>, b: Bulks, indices: map<Address, Slot>) {
    exists buys: map<Address, byte>, sells: map<Address, byte> ::
      BytesFor(quotes, buys, sells) && Aligned(b, Tokens(quotes), buys, sells, indices)
  }

  /** `Blockchain.SetRates` up to the transaction that it broadcasts. */
  method SetRates(quotes: seq<Quote>, block: nat, indices: map<Address, Slot>) returns (u: Update)
    requires DistinctTokens(quotes) && FitsBulks(Tokens(quotes), indices)
    ensures u.block == block + 1
    ensures ListsBases(u, BaseQuotes(quotes))
    ensures Packed(quotes, u.bulks, indices)
    ensures forall q :: q in quotes ==>
              (q.token in u.baseTokens <==> Leaves(q.buy, q.baseBuy, q.buyX) || Leaves(q.sell, q.baseSell, q.sellX))
  {
    var baseTokens, newBaseBuys, newBaseSells := [], [], [];
    var newBuys: map<Address, byte>, newSells: map<Address, byte> := map[], map[];
    for i := 0 to |quotes|
      invariant ListsBases(BaseUpdate(baseTokens, newBaseBuys, newBaseSells), BaseQuotes(quotes[..i]))
      invariant BytesFor(quotes[..i], newBuys, newSells)
    {
      var q := quotes[i];
      var compactSell, compactBuy := SellRate(q), BuyRate(q);
      BytesForNext(quotes, i, newBuys, newSells);
      ListsBasesNext(baseTokens, newBaseBuys, newBaseSells, quotes, i);
      if compactSell.overflow || compactBuy.overflow {
        baseTokens := baseTokens + [q.token];
        newBaseBuys := newBaseBuys + [q.buy];
        newBaseSells := newBaseSells + [q.sell];
        newSells := newSells[q.token := 0];
        newBuys := newBuys[q.token := 0];
      } else {
        newSells := newSells[q.token := compactSell.compact];
        newBuys := newBuys[q.token := compactBuy.compact];
      }
    }
    assert quotes[..|quotes|] == quotes;
    var bulks := BuildCompactBulk(newBuys, newSells, indices);
    u := Update(block + 1, baseTokens, newBaseBuys, newBaseSells, bulks);
    forall q | q in quotes
      ensures q.token in u.baseTokens <==> Leaves(q.buy, q.baseBuy, q.buyX) || Leaves(q.sell, q.baseSell, q.sellX)
    {
      RebasedExactly(quotes, u, q);
    }
  }

  function BaseUpdate(tokens: seq<Address>, buys: seq<int>, sells: seq<int>): Update {
    Update(0, tokens, buys, sells, Bulks([], [], []))
  }

  lemma ListsBasesNext(tokens: seq<Address>, buys: seq<int>, sells: seq<int>, quotes: seq<Quote>, i: nat)
    requires i < |quotes| && ListsBases(BaseUpdate(tokens, buys, sells), BaseQuotes(quotes[..i]))
    ensures var q := quotes[i];
            if NeedsBase(q)
            then ListsBases(BaseUpdate(tokens + [q.token], buys + [q.buy], sells + [q.sell]), BaseQuotes(quotes[..i + 1]))
            else ListsBases(BaseUpdate(tokens, buys, sells), BaseQuotes(quotes[..i + 1]))
  {
    assert quotes[..i + 1][..i] == quotes[..i];
  }

  function BuyByte(q: Quote): byte { if NeedsBase(q) then 0 else BuyRate(q).compact }

  function SellByte(q: Quote): byte { if NeedsBase(q) then 0 else SellRate(q).compact }

  ghost predicate MapsTo(m: map<Address, byte>, quotes: seq<Quote>, f: Quote -> byte) {
    m.Keys == Tokens(quotes) && forall q :: q in quotes ==> m[q.token] == f(q)
  }

  ghost predicate BytesFor(quotes: seq<Quote>, buys: map<Address, byte>, sells: map<Address, byte>) {
    MapsTo(buys, quotes, BuyByte) && MapsTo(sells, quotes, SellByte)
  }

  lemma TokensNext(quotes: seq<Quote>, i: nat)
    requires DistinctTokens(quotes) && i < |quotes|
    ensures Tokens(quotes[..i + 1]) == Tokens(quotes[..i]) + {quotes[i].token}
    ensures forall r :: r in quotes[..i] ==> r.token != quotes[i].token
  {
    var q := quotes[i];
    assert quotes[..i + 1] == quotes[..i] + [q];
    assert q in quotes[..i + 1];
    forall r | r in quotes[..i] ensures r.token != q.token {
      var j :| 0 <= j < i && quotes[j] == r;
    }
  }

  lemma MapsToNext(m: map<Address, byte>, quotes: seq<Quote>, i: nat, f: Quote -> byte)
    requires DistinctTokens(quotes) && i < |quotes| && MapsTo(m, quotes[..i], f)
    ensures MapsTo(m[quotes[i].token := f(quotes[i])], quotes[..i + 1], f)
  {
    TokensNext(quotes, i);
    assert quotes[..i + 1] == quotes[..i] + [quotes[i]];
  }

  lemma BytesForNext(quotes: seq<Quote>, i: nat, buys: map<Address, byte>, sells: map<Address, byte>)
    requires DistinctTokens(quotes) && i < |quotes| && BytesFor(quotes[..i], buys, sells)
    ensures var q := quotes[i];
            BytesFor(quotes[..i + 1], buys[q.token := BuyByte(q)], sells[q.token := SellByte(q)])
  {
    MapsToNext(buys, quotes, i, BuyByte);
    MapsToNext(sells, quotes, i, SellByte);
  }

  // What the pricing contract holds once the update is applied

  /** The position of a token among the new bases, and its base after the update. */
  function BaseAfter(tokens: seq<Address>, bases: seq<int>, token: Address, current: int): int
    requires |tokens| == |bases|
  {
    if tokens == [] then current
    else if tokens[0] == token then bases[0]
    else BaseAfter(tokens[1..], bases[1..], token, current)
  }

  lemma {:induction false} BaseAfterFound(tokens: seq<Address>, bases: seq<int>, token: Address, current: int, i: nat)
    requires |tokens| == |bases| && i < |tokens| && tokens[i] == token
    requires forall j :: 0 <= j < i ==> tokens[j] != token
    ensures BaseAfter(tokens, bases, token, current) == bases[i]
  {
    if i > 0 { BaseAfterFound(tokens[1..], bases[1..], token, current, i - 1); }
  }

  lemma {:induction false} BaseAfterAbsent(tokens: seq<Address>, bases: seq<int>, token: Address, current: int)
    requires |tokens| == |bases| && token !in tokens
    ensures BaseAfter(tokens, bases, token, current) == current
  {
    if tokens != [] { BaseAfterAbsent(tokens[1..], bases[1..], token, current); }
  }

  /** The base that a quote's token has after the update: the request if it needed a base, else the old one. */
  lemma BasesAfterUpdate(quotes: seq<Quote>, u: Update, q: Quote)
    requires DistinctTokens(quotes) && ListsBases(u, BaseQuotes(quotes)) && q in quotes
    ensures BaseAfter(u.baseTokens, u.newBaseBuys, q.token, q.baseBuy) == if NeedsBase(q) then q.buy else q.baseBuy
    ensures BaseAfter(u.baseTokens, u.newBaseSells, q.token, q.baseSell) == if NeedsBase(q) then q.sell else q.baseSell
  {
    var bases := BaseQuotes(quotes);
    BaseQuotesAre(quotes, q);
    forall r | r in bases && r.token == q.token ensures r == q {
      BaseQuotesAre(quotes, r);
      var i :| 0 <= i < |quotes| && quotes[i] == r;
      var j :| 0 <= j < |quotes| && quotes[j] == q;
    }
    if NeedsBase(q) {
      var i := FirstIndex(u.baseTokens, q.token, bases, q);
      assert bases[i] in bases;
      BaseAfterFound(u.baseTokens, u.newBaseBuys, q.token, q.baseBuy, i);
      BaseAfterFound(u.baseTokens, u.newBaseSells, q.token, q.baseSell, i);
    } else {
      forall i | 0 <= i < |bases| ensures u.baseTokens[i] != q.token {
        assert bases[i] in bases;
      }
      BaseAfterAbsent(u.baseTokens, u.newBaseBuys, q.token, q.baseBuy);
      BaseAfterAbsent(u.baseTokens, u.newBaseSells, q.token, q.baseSell);
    }
  }

  lemma {:induction false} FirstIndex(tokens: seq<Address>, token: Address, bases: seq<Quote>, q: Quote) returns (i: nat)
    requires |tokens| == |bases| && q in bases && q.token == token
    requires forall j :: 0 <= j < |bases| ==> tokens[j] == bases[j].token
    ensures i < |tokens| && tokens[i] == token && forall j :: 0 <= j < i ==> tokens[j] != token
  {
    if tokens[0] == token {
      i := 0;
    } else {
      var k :| 0 <= k < |bases| && bases[k] == q;
      assert bases[1..][k - 1] == q;
      var rest := FirstIndex(tokens[1..], token, bases[1..], q);
      i := rest + 1;
    }
  }

  /** The rate that the updated contract serves: the base after the update, and the byte of the token's slot. */
  ghost predicate Serves(u: Update, indices: map<Address, Slot>, q: Quote, delta: real) {
    exists j :: ServedAt(u, indices, q, delta, j)
  }

  ghost predicate ServedAt(u: Update, indices: map<Address, Slot>, q: Quote, delta: real, j: int) {
    && 0 <= j < |u.bulks.indices| && u.bulks.indices[j] == SlotOf(indices, q.token).bulk
    && j < |u.bulks.buys| && j < |u.bulks.sells|
    && SlotOf(indices, q.token).position < |u.bulks.buys[j]| && SlotOf(indices, q.token).position < |u.bulks.sells[j]|
    && |u.baseTokens| == |u.newBaseBuys| == |u.newBaseSells|
    && var p := SlotOf(indices, q.token).position;
       var buy := Decode(BaseAfter(u.baseTokens, u.newBaseBuys, q.token, q.baseBuy), u.bulks.buys[j][p]);
       var sell := Decode(BaseAfter(u.baseTokens, u.newBaseSells, q.token, q.baseSell), u.bulks.sells[j][p]);
       if NeedsBase(q) then buy == q.buy as real && sell == q.sell as real
       else Abs(buy - q.buy as real) <= Tolerance(q.baseBuy, delta) &&
            Abs(sell - q.sell as real) <= Tolerance(q.baseSell, delta)
  }

  /**
   * The update end to end: for distinct tokens with distinct slots, whatever
   * `SetRates` built, the updated contract serves each token a buy and a sell
   * within half a thousandth of its base of the request, and exactly the
   * request on both sides when either side overflows.
   */
  lemma UpdateServesRequests(
    quotes: seq<Quote>, u: Update, indices: map<Address, Slot>, delta: real, q: Quote)
    requires DistinctTokens(quotes) && FitsBulks(Tokens(quotes), indices) && DistinctSlots(Tokens(quotes), indices)
    requires ListsBases(u, BaseQuotes(quotes)) && Packed(quotes, u.bulks, indices)
    requires q in quotes && delta >= 0.0
    requires Near(q.buy, q.baseBuy, q.buyX, delta) && Near(q.sell, q.baseSell, q.sellX, delta)
    ensures Serves(u, indices, q, delta)
  {
    var j := StoredAt(quotes, u, indices, q);
    BasesAfterUpdate(quotes, u, q);
    SideServes(q.buy, q.baseBuy, q.buyX, delta);
    SideServes(q.sell, q.baseSell, q.sellX, delta);
    assert ServedAt(u, indices, q, delta, j);
  }

  /** The entry of the token's bulk, and the token's two bytes in it. */
  lemma StoredAt(quotes: seq<Quote>, u: Update, indices: map<Address, Slot>, q: Quote) returns (j: nat)
    requires DistinctTokens(quotes) && FitsBulks(Tokens(quotes), indices) && DistinctSlots(Tokens(quotes), indices)
    requires Packed(quotes, u.bulks, indices) && q in quotes
    ensures j < |u.bulks.indices| && u.bulks.indices[j] == SlotOf(indices, q.token).bulk
    ensures j < |u.bulks.buys| && SlotOf(indices, q.token).position < |u.bulks.buys[j]|
    ensures j < |u.bulks.sells| && SlotOf(indices, q.token).position < |u.bulks.sells[j]|
    ensures u.bulks.buys[j][SlotOf(indices, q.token).position] == BuyByte(q)
    ensures u.bulks.sells[j][SlotOf(indices, q.token).position] == SellByte(q)
  {
    var buys: map<Address, byte>, sells: map<Address, byte> :|
      BytesFor(quotes, buys, sells) && Aligned(u.bulks, Tokens(quotes), buys, sells, indices);
    TokenFindsItsBytes(u.bulks, Tokens(quotes), buys, sells, indices, q.token);
    j :| 0 <= j < |u.bulks.indices| && u.bulks.indices[j] == SlotOf(indices, q.token).bulk;
  }

  lemma SideServes(rate: int, base: int, x: real, delta: real)
    requires Near(rate, base, x, delta) && delta >= 0.0
    ensures Decode(rate, 0) == rate as real
    ensures !Encode(rate, base, x).overflow ==>
              Abs(Decode(base, Encode(rate, base, x).compact) - rate as real) <= Tolerance(base, delta)
  {
    EncodeDecodes(rate, base, x, delta);
    ZeroByteIsExact(rate);
  }

  lemma ZeroByteIsExact(rate: int)
    ensures Decode(rate, 0) == rate as real
  {}

  /** What the updated contract stores for a token: the bases after the update and the bytes of its slot. */
  ghost predicate Stores(
    u: Update, indices: map<Address, Slot>, q: Quote, baseBuy: int, buy: byte, baseSell: int, sell: byte)
  {
    && |u.baseTokens| == |u.newBaseBuys| == |u.newBaseSells|
    && baseBuy == BaseAfter(u.baseTokens, u.newBaseBuys, q.token, q.baseBuy)
    && baseSell == BaseAfter(u.baseTokens, u.newBaseSells, q.token, q.baseSell)
    && exists j ::
         && 0 <= j < |u.bulks.indices| && u.bulks.indices[j] == SlotOf(indices, q.token).bulk
         && j < |u.bulks.buys| && SlotOf(indices, q.token).position < |u.bulks.buys[j]|
         && j < |u.bulks.sells| && SlotOf(indices, q.token).position < |u.bulks.sells[j]|
         && u.bulks.buys[j][SlotOf(indices, q.token).position] == buy
         && u.bulks.sells[j][SlotOf(indices, q.token).position] == sell
  }

  /** The pair of a token: the request itself on both sides if either overflowed, else the old bases and the bytes. */
  lemma UpdateStoresQuotes(
    quotes: seq<Quote>, u: Update, indices: map<Address, Slot>, q: Quote,
    baseBuy: int, buy: byte, baseSell: int, sell: byte)
    requires DistinctTokens(quotes) && FitsBulks(Tokens(quotes), indices) && DistinctSlots(Tokens(quotes), indices)
    requires ListsBases(u, BaseQuotes(quotes)) && Packed(quotes, u.bulks, indices) && q in quotes
    requires Stores(u, indices, q, baseBuy, buy, baseSell, sell)
    ensures if NeedsBase(q) then baseBuy == q.buy && baseSell == q.sell && buy == 0 && sell == 0
            else baseBuy == q.baseBuy && baseSell == q.baseSell &&
                 buy == BuyRate(q).compact && sell == SellRate(q).compact
  {
    var buys: map<Address, byte>, sells: map<Address, byte> :|
      BytesFor(quotes, buys, sells) && Aligned(u.bulks, Tokens(quotes), buys, sells, indices);
    TokenFindsItsBytes(u.bulks, Tokens(quotes), buys, sells, indices, q.token);
    BasesAfterUpdate(quotes, u, q);
  }

  // Which tokens get new bases

  /** A rate that does not fit a signed byte over its base: the computed thousandths round outside [-128, 127]. */
  predicate Leaves(rate: int, base: int, x: real) {
    if base == 0 then rate != 0 else x < -128.5 || x >= 127.5
  }

  lemma OverflowIsLeaving(rate: int, base: int, x: real)
    ensures Encode(rate, base, x).overflow <==> Leaves(rate, base, x)
    ensures base != 0 && !Leaves(rate, base, x) ==>
              ToInt8(Encode(rate, base, x).compact) == RoundHalfEven(x)
  {
    RoundingRange(x);
  }

  lemma ListedTokens(bases: seq<Quote>, u: Update, token: Address)
    requires ListsBases(u, bases)
    ensures token in u.baseTokens <==> exists q :: q in bases && q.token == token
  {
    if token in u.baseTokens {
      var i :| 0 <= i < |u.baseTokens| && u.baseTokens[i] == token;
      assert bases[i] in bases;
    }
    if q :| q in bases && q.token == token {
      var i :| 0 <= i < |bases| && bases[i] == q;
      assert u.baseTokens[i] == token;
    }
  }

  /** A token gets new bases if and only if one of its two rates does not fit over its base. */
  lemma RebasedExactly(quotes: seq<Quote>, u: Update, q: Quote)
    requires DistinctTokens(quotes) && ListsBases(u, BaseQuotes(quotes)) && q in quotes
    ensures q.token in u.baseTokens <==> Leaves(q.buy, q.baseBuy, q.buyX) || Leaves(q.sell, q.baseSell, q.sellX)
  {
    OverflowIsLeaving(q.buy, q.baseBuy, q.buyX);
    OverflowIsLeaving(q.sell, q.baseSell, q.sellX);
    ListedTokens(BaseQuotes(quotes), u, q.token);
    BaseQuotesAre(quotes, q);
    if r :| r in BaseQuotes(quotes) && r.token == q.token {
      BaseQuotesAre(quotes, r);
      var i :| 0 <= i < |quotes| && quotes[i] == r;
      var j :| 0 <= j < |quotes| && quotes[j] == q;
    }
  }

  /** The rate lies at least 12.85 % below or 12.75 % above its base. */
  predicate FarFromBase(rate: int, base: int) {
    (rate - base) as real * 1000.0 < -128.5 * base as real || (rate - base) as real * 1000.0 >= 127.5 * base as real
  }

  /** With positive bases and exact quotients, that is if and only if one of the two rates lies too far from its base. */
  lemma RebasedByRates(quotes: seq<Quote>, u: Update, q: Quote)
    requires DistinctTokens(quotes) && ListsBases(u, BaseQuotes(quotes)) && q in quotes
    requires q.baseBuy > 0 && q.buyX * q.baseBuy as real == (q.buy - q.baseBuy) as real * 1000.0
    requires q.baseSell > 0 && q.sellX * q.baseSell as real == (q.sell - q.baseSell) as real * 1000.0
    ensures q.token in u.baseTokens <==> FarFromBase(q.buy, q.baseBuy) || FarFromBase(q.sell, q.baseSell)
  {
    RebasedExactly(quotes, u, q);
    OverflowIsLeaving(q.buy, q.baseBuy, q.buyX);
    OverflowIsLeaving(q.sell, q.baseSell, q.sellX);
    OverflowRange(q.buy, q.baseBuy, q.buyX);
    OverflowRange(q.sell, q.baseSell, q.sellX);
  }

  /**
   * What the contract stores for a token: the two requests with zero bytes if
   * the token is listed, else the two old bases with the two rounded values.
   */
  lemma StoredExactly(
    quotes: seq<Quote>, u: Update, indices: map<Address, Slot>, q: Quote,
    baseBuy: int, buy: byte, baseSell: int, sell: byte)
    requires DistinctTokens(quotes) && FitsBulks(Tokens(quotes), indices) && DistinctSlots(Tokens(quotes), indices)
    requires ListsBases(u, BaseQuotes(quotes)) && Packed(quotes, u.bulks, indices) && q in quotes
    requires Stores(u, indices, q, baseBuy, buy, baseSell, sell) && q.baseBuy != 0 && q.baseSell != 0
    ensures if q.token in u.baseTokens then baseBuy == q.buy && baseSell == q.sell && buy == 0 && sell == 0
            else baseBuy == q.baseBuy && baseSell == q.baseSell &&
                 ToInt8(buy) == RoundHalfEven(q.buyX) && ToInt8(sell) == RoundHalfEven(q.sellX)
  {
    RebasedExactly(quotes, u, q);
    OverflowIsLeaving(q.buy, q.baseBuy, q.buyX);
    OverflowIsLeaving(q.sell, q.baseSell, q.sellX);
    UpdateStoresQuotes(quotes, u, indices, q, baseBuy, buy, baseSell, sell);
  }
}

/**
 * Submitting activities (core/reserve_core.go) and choosing the set_rates
 * transaction to replace (`getLastPendingSetrate`, data/storage/bolt.go).
 */
module ReserveCore {
  import opened Wrappers
  import opened ActivityIds
  import opened Activities
  import opened ActivityStorage
  import opened OrderedKeys

  const INT64_LIMIT := 0x8000_0000_0000_0000
  const FIRST_GAS_PRICE := 50100000000
  const GAS_PRICE_BUMP := 10000000000

  /** `strconv.ParseUint` with its error dropped: saturated above, zero on a sign. */
  function Parsed64(n: int): nat {
    if n < 0 then 0 else if n < UINT64 then n else UINT64 - 1
  }

  /** Conversion of a `uint64` to `int64`. */
  function Int64(n: nat): int
    requires n < UINT64
  {
    if n < INT64_LIMIT then n else n - UINT64
  }

  function NonceOf(r: Record): nat { if r.nonce.Some? then r.nonce.value else 0 }

  function PriceOf(r: Record): (p: nat)
    ensures p < UINT64
  {
    if r.gasPrice.Some? then Parsed64(r.gasPrice.value) else 0
  }

  /** A set_rates record that the scan does not skip as stale. */
  predicate Eligible(r: Record, minedNonce: nat) {
    r.action.SetRates? && NonceOf(r) >= minedNonce
  }

  /** Lexicographic order on (nonce, gas price). */
  predicate Precedes(n1: nat, p1: nat, n2: nat, p2: nat) {
    n1 < n2 || (n1 == n2 && p1 < p2)
  }

  datatype Best = Best(nonce: nat, price: nat, result: Option<Record>)

  function Pick(best: Best, r: Record, minedNonce: nat): Best {
    if Eligible(r, minedNonce) && Precedes(best.nonce, best.price, NonceOf(r), PriceOf(r))
    then Best(NonceOf(r), PriceOf(r), Some(r))
    else best
  }

  function BestOf(pendings: seq<Record>, minedNonce: nat): Best {
    if pendings == [] then Best(0, 0, None)
    else Pick(BestOf(pendings[..|pendings| - 1], minedNonce), pendings[|pendings| - 1], minedNonce)
  }

  /**
   * The variable of a `for` loop: a new one in every iteration, or one for the
   * whole loop, as in the Go versions before 1.22.
   */
  datatype LoopVariable = PerIteration | Shared

  /** What the address kept by the scan shows afterwards: the selected record, or the last one of the list. */
  function Chosen(variable: LoopVariable, pendings: seq<Record>, minedNonce: nat): Option<Record> {
    var picked := BestOf(pendings, minedNonce).result;
    if variable.Shared? && picked.Some? && pendings != [] then Some(pendings[|pendings| - 1]) else picked
  }

  /** A loop variable whose address can be kept. */
  class Variable {
    var act: Option<Record>

    constructor ()
      ensures act == None
    {
      act := None;
    }
  }

  /** `getLastPendingSetrate`: `result` is the address of the loop variable. */
  method LastPendingSetrate(variable: LoopVariable, pendings: seq<Record>, minedNonce: nat)
    returns (r: Option<Record>)
    ensures r == Chosen(variable, pendings, minedNonce)
  {
    var maxNonce, maxPrice := 0, 0;
    var result: Variable? := null;
    var act := new Variable();
    for i := 0 to |pendings|
      invariant fresh(act) && (result != null ==> fresh(result))
      invariant (result == null) == BestOf(pendings[..i], minedNonce).result.None?
      invariant maxNonce == BestOf(pendings[..i], minedNonce).nonce
      invariant maxPrice == BestOf(pendings[..i], minedNonce).price
      invariant i > 0 ==> act.act == Some(pendings[i - 1])
      invariant result != null && variable.Shared? ==> result == act && i > 0
      invariant result != null && variable.PerIteration? ==> result.act == BestOf(pendings[..i], minedNonce).result
    {
      if variable.PerIteration? {
        act := new Variable();
      }
      act.act := Some(pendings[i]);
      assert pendings[..i + 1][..i] == pendings[..i];
      if pendings[i].action.SetRates? {
        var nonce := NonceOf(pendings[i]);
        if nonce < minedNonce {
          continue;
        }
        var gasPrice := PriceOf(pendings[i]);
        if nonce == maxNonce {
          if gasPrice > maxPrice {
            maxNonce, result, maxPrice := nonce, act, gasPrice;
          }
        } else if nonce > maxNonce {
          maxNonce, result, maxPrice := nonce, act, gasPrice;
        }
      }
    }
    assert pendings[..|pendings|] == pendings;
    r := if result == null then None else result.act;
  }

  /**
   * The scan returns the lexicographic maximum of the eligible records, the
   * earliest one among equals, and nothing exactly when no eligible record
   * exceeds nonce 0 and price 0.
   */
  lemma {:induction false} ScanPicksMaximum(pendings: seq<Record>, minedNonce: nat)
    ensures var b := BestOf(pendings, minedNonce);
            && (forall i :: 0 <= i < |pendings| && Eligible(pendings[i], minedNonce) ==>
                              !Precedes(b.nonce, b.price, NonceOf(pendings[i]), PriceOf(pendings[i])))
            && (b.result.None? ==> b.nonce == 0 && b.price == 0)
            && (b.result.Some? ==> exists i :: && 0 <= i < |pendings| && pendings[i] == b.result.value
                                               && IsFirstMaximum(pendings, minedNonce, i, b))
  {
    if pendings != [] {
      var last := |pendings| - 1;
      var init := pendings[..last];
      ScanPicksMaximum(init, minedNonce);
      var b, b' := BestOf(init, minedNonce), BestOf(pendings, minedNonce);
      forall i | 0 <= i < |pendings| && Eligible(pendings[i], minedNonce)
        ensures !Precedes(b'.nonce, b'.price, NonceOf(pendings[i]), PriceOf(pendings[i]))
      {
        if i < last { assert init[i] == pendings[i]; }
      }
      if b' != b {
        assert forall j :: 0 <= j < last ==> init[j] == pendings[j];
        assert IsFirstMaximum(pendings, minedNonce, last, b');
      } else if b.result.Some? {
        var i :| 0 <= i < |init| && init[i] == b.result.value && IsFirstMaximum(init, minedNonce, i, b);
        assert forall j :: 0 <= j < i ==> init[j] == pendings[j];
        assert IsFirstMaximum(pendings, minedNonce, i, b);
      }
    }
  }

  ghost predicate IsFirstMaximum(pendings: seq<Record>, minedNonce: nat, i: nat, b: Best) {
    && i < |pendings| && Eligible(pendings[i], minedNonce)
    && NonceOf(pendings[i]) == b.nonce && PriceOf(pendings[i]) == b.price
    && Precedes(0, 0, b.nonce, b.price)
    && forall j :: 0 <= j < i && Eligible(pendings[j], minedNonce) ==>
                     Precedes(NonceOf(pendings[j]), PriceOf(pendings[j]), b.nonce, b.price)
  }

  /** The pending record with the least timepoint. */
  ghost predicate IsOldest(pending: map<nat, Record>, r: Record) {
    Holds(pending, r) && forall k :: k in pending ==> r.id.timepoint <= k
  }

  lemma LastIsOldest(pending: map<nat, Record>)
    requires KeyedById(pending) && Descending(pending) != []
    ensures IsOldest(pending, Descending(pending)[|Descending(pending)| - 1])
  {
    var pendings := Descending(pending);
    var last := |pendings| - 1;
    DescendingLists(pending, pendings[last]);
    forall k | k in pending ensures pendings[last].id.timepoint <= k {
      DescendingLists(pending, pending[k]);
      var i :| 0 <= i < |pendings| && pendings[i] == pending[k];
      if i < last { DescendingOrder(pending, i, last); }
    }
  }

  /** With one variable for the loop, any selection shows the oldest pending activity, of whatever action. */
  lemma SharedVariableShowsOldest(pending: map<nat, Record>, minedNonce: nat)
    requires KeyedById(pending)
    ensures var shown := Chosen(Shared, Descending(pending), minedNonce);
            && (shown.Some? <==> Chosen(PerIteration, Descending(pending), minedNonce).Some?)
            && (shown.Some? ==> IsOldest(pending, shown.value))
  {
    if Descending(pending) != [] { LastIsOldest(pending); }
  }

  /** So the two kinds of variable agree exactly when the selected record is the oldest pending activity. */
  lemma SharedVariableAgrees(pending: map<nat, Record>, minedNonce: nat)
    requires KeyedById(pending)
    ensures var picked := Chosen(PerIteration, Descending(pending), minedNonce);
            Chosen(Shared, Descending(pending), minedNonce) == picked <==>
            picked.None? || IsOldest(pending, picked.value)
  {
    SharedVariableShowsOldest(pending, minedNonce);
  }

  // The prices of the transactions to outbid

  predicate IsRival(r: Record, nonce: nat) { r.action.SetRates? && NonceOf(r) == nonce }

  /** The highest price of the listed set_rates of a nonce, -1 if there is none. */
  function HighestRival(pendings: seq<Record>, nonce: nat): (p: int)
    ensures forall i :: 0 <= i < |pendings| && IsRival(pendings[i], nonce) ==> PriceOf(pendings[i]) <= p
    ensures p == -1 || exists i :: 0 <= i < |pendings| && IsRival(pendings[i], nonce) && PriceOf(pendings[i]) == p
  {
    if pendings == [] then -1
    else
      var p, r := HighestRival(pendings[..|pendings| - 1], nonce), pendings[|pendings| - 1];
      if IsRival(r, nonce) && PriceOf(r) > p then PriceOf(r) else p
  }

  /** The gas price of the transaction that replaces `r`. */
  function ReplacementPrice(r: Record): int {
    Int64(PriceOf(r)) + GAS_PRICE_BUMP
  }

  /** The replacement outbids the old transaction exactly while the old price fits an `int64`. */
  lemma ReplacementOutbids(r: Record)
    requires r.gasPrice.Some?
    ensures 0 <= r.gasPrice.value ==>
              (r.gasPrice.value < ReplacementPrice(r) <==> r.gasPrice.value < INT64_LIMIT)
  {}

  datatype Sent = Sent(hash: nat, nonce: nat, gasPrice: int)

  /** A `Deposit` call: what the exchange, the fee check and the broadcast answered. */
  datatype DepositCall = DepositCall(
    id: ActivityID, exchange: string, token: string, supported: bool, amountOk: bool,
    broadcast: Option<Sent>, timepoint: nat)

  /** A `SetRates` call: argument checks, mined nonce, next free nonce, and the broadcast hash. */
  datatype SetRatesCall = SetRatesCall(
    id: ActivityID, accepted: bool, minedNonce: Option<nat>, freshNonce: nat,
    broadcast: Option<nat>, timepoint: nat)

  function Submission(action: Action, id: ActivityID, destination: string, token: string,
                      sent: Option<Sent>, timepoint: nat): Record
  {
    var s := if sent.Some? then sent.value else Sent(0, 0, 0);
    Record(action, id, destination, token, Some(Tx(s.hash)), Some(s.nonce), Some(s.gasPrice), "", 0,
           Blank, if sent.Some? then Submitted else Failed, timepoint)
  }

  ghost function DepositRecord(s: Store, call: DepositCall): Record {
    var goes := call.supported && !HasPendingDepositTo(s, call.token, call.exchange) && call.amountOk;
    Submission(Deposit, call.id, call.exchange, call.token,
               if goes then call.broadcast else None, call.timepoint)
  }

  /** Nonce and price of the transaction that a `SetRates` call sends. */
  function NextTransaction(replaced: Option<Record>, freshNonce: nat, hash: nat): Sent {
    match replaced
    case Some(stuck) => Sent(hash, NonceOf(stuck), ReplacementPrice(stuck))
    case None => Sent(hash, freshNonce, FIRST_GAS_PRICE)
  }

  /** The record to be replaced, if the call gets as far as asking for it. */
  ghost function Replaced(variable: LoopVariable, s: Store, call: SetRatesCall): Option<Record> {
    if call.accepted && call.minedNonce.Some?
    then Chosen(variable, Descending(s.pending), call.minedNonce.value)
    else None
  }

  /** `pendingSetrateInfo` asserts that the result has both entries, and panics if one is missing. */
  predicate Readable(r: Record) { r.nonce.Some? && r.gasPrice.Some? }

  ghost predicate Crashes(variable: LoopVariable, s: Store, call: SetRatesCall) {
    Replaced(variable, s, call).Some? && !Readable(Replaced(variable, s, call).value)
  }

  ghost function SetRatesRecord(variable: LoopVariable, s: Store, call: SetRatesCall): Record {
    var sent :=
      if call.accepted && call.minedNonce.Some? && call.broadcast.Some? then
        Some(NextTransaction(Replaced(variable, s, call), call.freshNonce, call.broadcast.value))
      else None;
    Submission(SetRates, call.id, "blockchain", "", sent, call.timepoint)
  }

  /**
   * The record of a deposit: submitted with the hash, nonce and price of its
   * transaction exactly if the token is supported, no deposit of it to that
   * exchange is pending, the amount is acceptable and the broadcast succeeds;
   * otherwise failed, with zeros.
   */
  lemma DepositExactly(s: Store, call: DepositCall)
    ensures var r := DepositRecord(s, call);
            && r.action.Deposit? && r.id == call.id && r.destination == call.exchange && r.token == call.token
            && r.timestamp == call.timepoint && r.exchangeStatus.Blank?
            && (r.miningStatus.Submitted? <==>
                && call.supported && call.amountOk && call.broadcast.Some?
                && forall k :: k in s.pending && s.pending[k].action.Deposit? && s.pending[k].token == call.token
                               ==> s.pending[k].destination != call.exchange)
            && (r.miningStatus.Submitted? ==>
                  var sent := call.broadcast.value;
                  r.tx == Some(Tx(sent.hash)) && r.nonce == Some(sent.nonce) && r.gasPrice == Some(sent.gasPrice))
            && (!r.miningStatus.Submitted? ==>
                  r.miningStatus.Failed? && r.tx == Some(Tx(0)) && r.nonce == Some(0) && r.gasPrice == Some(0))
  {}

  /**
   * The record of a set_rates: submitted exactly if the call is accepted, the
   * mined nonce is known and the broadcast succeeds; without a record to
   * replace with the fresh nonce at 50.1 gwei, else with the nonce of that
   * record at 10 gwei more than its price.
   */
  lemma SetRatesExactly(variable: LoopVariable, s: Store, call: SetRatesCall)
    requires !Crashes(variable, s, call)
    ensures var r, replaced := SetRatesRecord(variable, s, call), Replaced(variable, s, call);
            && r.action.SetRates? && r.id == call.id && r.exchangeStatus.Blank? && r.timestamp == call.timepoint
            && (r.miningStatus.Submitted? <==> call.accepted && call.minedNonce.Some? && call.broadcast.Some?)
            && (r.miningStatus.Submitted? ==> r.tx == Some(Tx(call.broadcast.value)))
            && (r.miningStatus.Submitted? && replaced.None? ==>
                  r.nonce == Some(call.freshNonce) && r.gasPrice == Some(50_100_000_000))
            && (r.miningStatus.Submitted? && replaced.Some? ==>
                  && r.nonce == replaced.value.nonce
                  && (0 <= replaced.value.gasPrice.value < INT64_LIMIT ==>
                        r.gasPrice == Some(replaced.value.gasPrice.value + 10_000_000_000)))
            && (!r.miningStatus.Submitted? ==>
                  r.miningStatus.Failed? && r.tx == Some(Tx(0)) && r.nonce == Some(0) && r.gasPrice == Some(0))
  {}

  class Core {
    const storage: BoltStorage
    const variable: LoopVariable

    constructor (storage: BoltStorage, variable: LoopVariable)
      ensures this.storage == storage && this.variable == variable
    {
      this.storage, this.variable := storage, variable;
    }

    /** `sending`: whether the transaction was given to the chain to be signed and broadcast. */
    method Deposit(call: DepositCall) returns (ok: bool, sending: bool)
      modifies storage
      ensures sending <==> && call.supported && call.amountOk
                           && !HasPendingDepositTo(old(storage.State()), call.token, call.exchange)
      ensures storage.State() == PutRecord(old(storage.State()), DepositRecord(old(storage.State()), call))
      ensures ok <==> DepositRecord(old(storage.State()), call).miningStatus.Submitted?
    {
      var tx: Option<Sent> := None;
      sending := false;
      if call.supported {
        var duplicate := storage.HasPendingDeposit(call.token, call.exchange);
        if !duplicate && call.amountOk {
          sending, tx := true, call.broadcast;
        }
      }
      ok := tx.Some?;
      storage.Record(Submission(Activities.Deposit, call.id, call.exchange, call.token, tx, call.timepoint));
    }

    /** A panic stops the call before anything is recorded. */
    method SetRates(call: SetRatesCall) returns (crashed: bool, ok: bool, sending: bool)
      modifies storage
      ensures sending <==> call.accepted && call.minedNonce.Some? && !crashed
      ensures crashed <==> Crashes(variable, old(storage.State()), call)
      ensures crashed ==> storage.State() == old(storage.State()) && !ok
      ensures !crashed ==>
                && storage.State() == PutRecord(old(storage.State()), SetRatesRecord(variable, old(storage.State()), call))
                && (ok <==> SetRatesRecord(variable, old(storage.State()), call).miningStatus.Submitted?)
    {
      var tx: Option<Sent> := None;
      sending := false;
      if call.accepted && call.minedNonce.Some? {
        var pendings := storage.GetPendingActivities();
        var act := LastPendingSetrate(variable, pendings, call.minedNonce.value);
        if act.Some? && !Readable(act.value) {
          return true, false, false;
        }
        sending := true;
        if call.broadcast.Some? {
          tx := Some(NextTransaction(act, call.freshNonce, call.broadcast.value));
        }
      }
      crashed, ok := false, tx.Some?;
      storage.Record(Submission(Activities.SetRates, call.id, "blockchain", "", tx, call.timepoint));
    }
  }
}

/**
 * Whole runs of the activity ledger: records, deposits and set_rates calls
 * arriving one at a time, interleaved with the per-activity updates of the
 * fetcher's ticks (data/fetcher/fetcher.go, data/storage/bolt.go,
 * core/reserve_core.go).
 */
module Lifecycle {
  import opened Wrappers
  import opened ActivityIds
  import opened Activities
  import opened ActivityStorage
  import opened ReserveCore

  /**
   * `variable` is the loop variable of the language the service is built with,
   * `queue` is what the running tick has still to persist, and `order` lists
   * the keys as submitted.
   */
  datatype Ledger = Ledger(variable: LoopVariable, store: Store, queue: seq<Record>, order: seq<nat>)

  datatype Event =
    | Recorded(record: Record)
    | DepositCalled(deposit: DepositCall)
    | SetRatesCalled(setRates: SetRatesCall)
    | TickBegan
    | ActivityPersisted(exchange: Option<ActivityStatus>, chain: Option<ActivityStatus>)

  function Start(variable: LoopVariable): Ledger { Ledger(variable, Store(map[], map[]), [], []) }

  /** The event that stores a new record, and not a call that panics before it does. */
  ghost predicate Submits(l: Ledger, e: Event) {
    || e.Recorded? || e.DepositCalled?
    || (e.SetRatesCalled? && !Crashes(l.variable, l.store, e.setRates))
  }

  ghost function Submitted(l: Ledger, e: Event): Record
    requires Submits(l, e)
  {
    match e
    case Recorded(r) => r
    case DepositCalled(call) => DepositRecord(l.store, call)
    case SetRatesCalled(call) => SetRatesRecord(l.variable, l.store, call)
  }

  /**
   * Timepoints are distinct, a fresh nonce is not below the mined one, a tick
   * starts only when the previous one is over, and statuses come from the fetchers.
   */
  ghost predicate Enabled(l: Ledger, e: Event) {
    match e
    case Recorded(r) =>
      r.id.timepoint !in l.store.activities && !r.action.Deposit? && !r.action.SetRates?
    case DepositCalled(call) => call.id.timepoint !in l.store.activities
    case SetRatesCalled(call) =>
      && call.id.timepoint !in l.store.activities
      && (call.minedNonce.Some? ==> call.minedNonce.value <= call.freshNonce)
    case TickBegan => l.queue == []
    case ActivityPersisted(exchange, chain) => l.queue != [] && Reportable(l.queue[0], exchange, chain)
  }

  ghost function Next(l: Ledger, e: Event): Ledger
    requires Enabled(l, e)
  {
    if Submits(l, e) then
      var r := Submitted(l, e);
      l.(store := PutRecord(l.store, r), order := l.order + [r.id.timepoint])
    else
      match e
      case TickBegan => l.(queue := Descending(l.store.pending))
      case ActivityPersisted(exchange, chain) =>
        l.(store := PutUpdate(l.store, Settle(l.queue[0], exchange, chain)), queue := l.queue[1..])
      case _ => l
  }

  ghost predicate IsRun(states: seq<Ledger>, events: seq<Event>) {
    && |states| == |events| + 1
    && states[0] == Start(states[0].variable)
    && forall i :: 0 <= i < |events| ==> Enabled(states[i], events[i]) && states[i + 1] == Next(states[i], events[i])
  }

  /** A running tick holds distinct records that are still pending, exactly as stored. */
  ghost predicate QueueCurrent(l: Ledger) {
    && (forall i :: 0 <= i < |l.queue| ==> Holds(l.store.pending, l.queue[i]))
    && (forall i, j :: 0 <= i < j < |l.queue| ==> l.queue[i].id.timepoint != l.queue[j].id.timepoint)
  }

  ghost predicate OneDeposit(l: Ledger) {
    forall k1, k2 ::
      (k1 in l.store.pending && k2 in l.store.pending && l.store.pending[k2].action.Deposit? &&
       IsDepositTo(l.store.pending[k1], l.store.pending[k2].token, l.store.pending[k2].destination))
      ==> k1 == k2
  }

  ghost predicate OrderCovers(l: Ledger) {
    && (forall k :: k in l.store.activities <==> k in l.order)
    && (forall i, j :: 0 <= i < j < |l.order| ==> l.order[i] != l.order[j])
  }

  ghost predicate Sound(l: Ledger) {
    Agreement(l.store) && QueueCurrent(l) && OneDeposit(l) && OrderCovers(l)
  }

  lemma SubmitKeepsSound(l: Ledger, e: Event)
    requires Sound(l) && Enabled(l, e) && Submits(l, e)
    ensures Sound(Next(l, e))
  {
    var r := Submitted(l, e);
    var l' := Next(l, e);
    RecordAgreement(l.store, r);
    assert forall i :: 0 <= i < |l.queue| ==> Holds(l.store.pending, l.queue[i]);
    assert OneDeposit(l') by {
      if r.action.Deposit? && r.IsPending() {
        assert !HasPendingDepositTo(l.store, r.token, r.destination);
      }
    }
  }

  lemma TickKeepsSound(l: Ledger)
    requires Sound(l) && Enabled(l, TickBegan)
    ensures Sound(Next(l, TickBegan))
  {
    var queue := Descending(l.store.pending);
    assert KeyedById(l.store.pending);
    forall i | 0 <= i < |queue| ensures Holds(l.store.pending, queue[i]) {
      DescendingLists(l.store.pending, queue[i]);
    }
    forall i, j | 0 <= i < j < |queue| ensures queue[i].id.timepoint != queue[j].id.timepoint {
      DescendingOrder(l.store.pending, i, j);
    }
  }

  lemma PersistKeepsSound(l: Ledger, e: Event)
    requires Sound(l) && e.ActivityPersisted? && Enabled(l, e)
    ensures Sound(Next(l, e))
  {
    var r := l.queue[0];
    var r' := Settle(r, e.exchange, e.chain);
    var l' := Next(l, e);
    SettleIsLater(r, e.exchange, e.chain);
    UpdateAgreement(l.store, r');
    assert QueueCurrent(l') by {
      forall i | 0 <= i < |l'.queue| ensures Holds(l'.store.pending, l'.queue[i]) {
        assert l'.queue[i] == l.queue[i + 1];
      }
    }
  }

  lemma StepKeepsSound(l: Ledger, e: Event)
    requires Sound(l) && Enabled(l, e)
    ensures Sound(Next(l, e))
  {
    match e
    case TickBegan => TickKeepsSound(l);
    case ActivityPersisted(_, _) => PersistKeepsSound(l, e);
    case _ => if Submits(l, e) { SubmitKeepsSound(l, e); }
  }

  lemma {:induction false} RunIsSound(states: seq<Ledger>, events: seq<Event>, i: nat)
    requires IsRun(states, events) && i < |states|
    ensures Sound(states[i])
  {
    if i > 0 {
      RunIsSound(states, events, i - 1);
      StepKeepsSound(states[i - 1], events[i - 1]);
    }
  }

  /** In every run the pending bucket is the activity bucket filtered by `IsPending`. */
  lemma PendingIndexAgrees(states: seq<Ledger>, events: seq<Event>, i: nat)
    requires IsRun(states, events) && i < |states|
    ensures states[i].store.pending ==
            map k | k in states[i].store.activities && states[i].store.activities[k].IsPending()
              :: states[i].store.activities[k]
  {
    RunIsSound(states, events, i);
  }

  /** In every run at most one deposit per token and exchange is pending. */
  lemma SinglePendingDeposit(states: seq<Ledger>, events: seq<Event>, i: nat, k1: nat, k2: nat)
    requires IsRun(states, events) && i < |states|
    requires k1 in states[i].store.activities && k2 in states[i].store.activities
    requires var a, b := states[i].store.activities[k1], states[i].store.activities[k2];
             && a.IsPending() && b.IsPending() && a.action.Deposit? && b.action.Deposit?
             && a.token == b.token && a.destination == b.destination
    ensures k1 == k2
  {
    RunIsSound(states, events, i);
  }

  /** What one step may do to a stored activity. */
  lemma StepIsLater(l: Ledger, e: Event, k: nat)
    requires Sound(l) && Enabled(l, e) && k in l.store.activities
    ensures k in Next(l, e).store.activities
    ensures Later(l.store.activities[k], Next(l, e).store.activities[k])
  {
    if e.ActivityPersisted? {
      var r := l.queue[0];
      assert Holds(l.store.pending, r);
      SettleIsLater(r, e.exchange, e.chain);
    }
  }

  /**
   * Settled statuses are frozen: between any two moments of any run each
   * activity only moves along `Later`.
   */
  lemma {:induction false} SettledStatusesAreFrozen(
    states: seq<Ledger>, events: seq<Event>, i: nat, j: nat, k: nat)
    requires IsRun(states, events) && i <= j < |states| && k in states[i].store.activities
    ensures k in states[j].store.activities
    ensures Later(states[i].store.activities[k], states[j].store.activities[k])
    decreases j
  {
    if i < j {
      SettledStatusesAreFrozen(states, events, i, j - 1, k);
      RunIsSound(states, events, j - 1);
      StepIsLater(states[j - 1], events[j - 1], k);
      LaterTransitive(states[i].store.activities[k], states[j - 1].store.activities[k],
                      states[j].store.activities[k]);
    }
  }

  /** The loop variable is that of the whole run. */
  lemma {:induction false} SameVariable(states: seq<Ledger>, events: seq<Event>, i: nat)
    requires IsRun(states, events) && i < |states|
    ensures states[i].variable == states[0].variable
  {
    if i > 0 { SameVariable(states, events, i - 1); }
  }

  // Set-rate replacement

  ghost predicate PendingSetRates(l: Ledger, k: nat) {
    k in l.store.pending && l.store.pending[k].action.SetRates?
  }

  /** Pending set_rates that share a nonce have strictly increasing gas prices in submission order. */
  ghost predicate Outbidding(l: Ledger) {
    forall i, j ::
      (0 <= i < j < |l.order| && PendingSetRates(l, l.order[i]) && PendingSetRates(l, l.order[j]) &&
       NonceOf(l.store.pending[l.order[i]]) == NonceOf(l.store.pending[l.order[j]]))
      ==> PriceOf(l.store.pending[l.order[i]]) < PriceOf(l.store.pending[l.order[j]])
  }

  /** A `SetRates` call that broadcasts a replacement of the record it was shown. */
  ghost predicate Replaces(l: Ledger, e: Event) {
    && e.SetRatesCalled? && e.setRates.broadcast.Some? && Submits(l, e)
    && Replaced(l.variable, l.store, e.setRates).Some?
  }

  ghost function ReplacedBy(l: Ledger, e: Event): Record
    requires Replaces(l, e)
  {
    Replaced(l.variable, l.store, e.setRates).value
  }

  /** The check a caller could make on the pending listing: the replacement outbids every rival. */
  ghost predicate OutbidsRivals(l: Ledger, e: Event) {
    Replaces(l, e) ==>
      var r := ReplacedBy(l, e);
      HighestRival(Descending(l.store.pending), NonceOf(r)) < Parsed64(ReplacementPrice(r))
  }

  lemma ListedRival(l: Ledger, k: nat)
    requires Sound(l) && k in l.store.pending
    ensures exists i :: 0 <= i < |Descending(l.store.pending)| && Descending(l.store.pending)[i] == l.store.pending[k]
  {
    DescendingLists(l.store.pending, l.store.pending[k]);
  }

  /** A transaction with a fresh nonce outbids every pending one of that nonce. */
  lemma FreshNonceIsHighest(l: Ledger, call: SetRatesCall, k: nat)
    requires Sound(l) && Enabled(l, SetRatesCalled(call))
    requires call.accepted && call.minedNonce.Some? && Replaced(l.variable, l.store, call).None?
    requires PendingSetRates(l, k) && NonceOf(l.store.pending[k]) == call.freshNonce
    ensures PriceOf(l.store.pending[k]) < FIRST_GAS_PRICE
  {
    var pendings := Descending(l.store.pending);
    ScanPicksMaximum(pendings, call.minedNonce.value);
    ListedRival(l, k);
    var i :| 0 <= i < |pendings| && pendings[i] == l.store.pending[k];
    assert Eligible(pendings[i], call.minedNonce.value);
  }

  /** The record of a call outbids every pending set_rates of its nonce. */
  ghost predicate HighestOfItsNonce(l: Ledger, r: Record) {
    forall k :: PendingSetRates(l, k) && NonceOf(l.store.pending[k]) == NonceOf(r) ==>
                  PriceOf(l.store.pending[k]) < PriceOf(r)
  }

  lemma NewPriceIsHighest(l: Ledger, e: Event)
    requires Sound(l) && Enabled(l, e) && e.SetRatesCalled? && Submits(l, e) && Submitted(l, e).IsPending()
    ensures HighestOfItsNonce(l, Submitted(l, e)) <==> OutbidsRivals(l, e)
  {
    var r, pendings := Submitted(l, e), Descending(l.store.pending);
    if Replaces(l, e) {
      var nonce := NonceOf(r);
      var highest := HighestRival(pendings, nonce);
      forall k | PendingSetRates(l, k) && NonceOf(l.store.pending[k]) == nonce
        ensures PriceOf(l.store.pending[k]) <= highest
      {
        ListedRival(l, k);
      }
      if highest >= PriceOf(r) {
        var i :| 0 <= i < |pendings| && IsRival(pendings[i], nonce) && PriceOf(pendings[i]) == highest;
        DescendingLists(l.store.pending, pendings[i]);
        assert PendingSetRates(l, pendings[i].id.timepoint);
      }
    } else {
      forall k | PendingSetRates(l, k) && NonceOf(l.store.pending[k]) == NonceOf(r)
        ensures PriceOf(l.store.pending[k]) < PriceOf(r)
      {
        FreshNonceIsHighest(l, e.setRates, k);
      }
    }
  }

  lemma SubmitKeepsOutbidding(l: Ledger, e: Event)
    requires Sound(l) && Outbidding(l) && Enabled(l, e) && Submits(l, e)
    requires var r := Submitted(l, e); r.IsPending() && r.action.SetRates? ==> HighestOfItsNonce(l, r)
    ensures Outbidding(Next(l, e))
  {
    var l', r := Next(l, e), Submitted(l, e);
    forall i, j | (0 <= i < j < |l'.order| &&
        PendingSetRates(l', l'.order[i]) && PendingSetRates(l', l'.order[j]) &&
        NonceOf(l'.store.pending[l'.order[i]]) == NonceOf(l'.store.pending[l'.order[j]]))
      ensures PriceOf(l'.store.pending[l'.order[i]]) < PriceOf(l'.store.pending[l'.order[j]])
    {
      assert l'.order[i] == l.order[i] && l.order[i] in l.order;
      assert PendingSetRates(l, l.order[i]);
      if j < |l.order| {
        assert l'.order[j] == l.order[j] && l.order[j] in l.order;
        assert PendingSetRates(l, l.order[j]);
      }
    }
  }

  /** A price at or below a rival's breaks the order. */
  lemma LowPriceBreaksOutbidding(l: Ledger, e: Event)
    requires Sound(l) && Enabled(l, e) && Submits(l, e)
    requires var r := Submitted(l, e); r.IsPending() && r.action.SetRates? && !HighestOfItsNonce(l, r)
    ensures !Outbidding(Next(l, e))
  {
    var l', r := Next(l, e), Submitted(l, e);
    var k :| PendingSetRates(l, k) && NonceOf(l.store.pending[k]) == NonceOf(r) &&
             PriceOf(l.store.pending[k]) >= PriceOf(r);
    assert k in l.store.activities;
    var i :| 0 <= i < |l.order| && l.order[i] == k;
    assert l'.order[i] == k && l'.order[|l.order|] == r.id.timepoint;
    assert PendingSetRates(l', l'.order[i]) && PendingSetRates(l', l'.order[|l.order|]);
  }

  lemma PersistKeepsOutbidding(l: Ledger, e: Event)
    requires Sound(l) && Outbidding(l) && e.ActivityPersisted? && Enabled(l, e)
    ensures Outbidding(Next(l, e))
    ensures forall k :: PendingSetRates(Next(l, e), k) ==>
              PendingSetRates(l, k) && PriceOf(Next(l, e).store.pending[k]) == PriceOf(l.store.pending[k])
  {
    var l' := Next(l, e);
    assert Holds(l.store.pending, l.queue[0]);
    forall k | PendingSetRates(l', k)
      ensures PendingSetRates(l, k) && NonceOf(l'.store.pending[k]) == NonceOf(l.store.pending[k])
      ensures PriceOf(l'.store.pending[k]) == PriceOf(l.store.pending[k])
    {}
  }

  /** One step keeps the order of prices if and only if its replacement, if it sends one, outbids every rival. */
  lemma OutbiddingKeptExactly(l: Ledger, e: Event)
    requires Sound(l) && Outbidding(l) && Enabled(l, e)
    ensures Outbidding(Next(l, e)) <==> OutbidsRivals(l, e)
  {
    if e.ActivityPersisted? {
      PersistKeepsOutbidding(l, e);
    } else if Submits(l, e) {
      var r := Submitted(l, e);
      if r.action.SetRates? && r.IsPending() {
        NewPriceIsHighest(l, e);
        if HighestOfItsNonce(l, r) { SubmitKeepsOutbidding(l, e); } else { LowPriceBreaksOutbidding(l, e); }
      } else {
        SubmitKeepsOutbidding(l, e);
      }
    }
  }

  lemma StepOutbidsExactly(states: seq<Ledger>, events: seq<Event>, i: nat)
    requires IsRun(states, events) && i < |events| && Outbidding(states[i])
    ensures Outbidding(states[i + 1]) <==> OutbidsRivals(states[i], events[i])
  {
    RunIsSound(states, events, i);
    OutbiddingKeptExactly(states[i], events[i]);
  }

  ghost predicate OutbiddingUpTo(states: seq<Ledger>, n: nat)
    requires n < |states|
  {
    forall i :: 0 <= i <= n ==> Outbidding(states[i])
  }

  ghost predicate RivalsOutbidBefore(states: seq<Ledger>, events: seq<Event>, n: nat)
    requires n <= |events| && n <= |states|
  {
    forall i :: 0 <= i < n ==> OutbidsRivals(states[i], events[i])
  }

  /**
   * Set-rate replacement over whole runs, for either kind of loop variable:
   * prices are in order at every moment if and only if every replacement sent
   * on the way outbid the rivals in the listing of its moment.
   */
  lemma {:induction false} RunsOutbidExactly(states: seq<Ledger>, events: seq<Event>, n: nat)
    requires IsRun(states, events) && n < |states|
    ensures OutbiddingUpTo(states, n) <==> RivalsOutbidBefore(states, events, n)
  {
    if n > 0 {
      RunsOutbidExactly(states, events, n - 1);
      if Outbidding(states[n - 1]) { StepOutbidsExactly(states, events, n - 1); }
      assert OutbiddingUpTo(states, n) <==> OutbiddingUpTo(states, n - 1) && Outbidding(states[n]);
      assert RivalsOutbidBefore(states, events, n) <==>
             RivalsOutbidBefore(states, events, n - 1) && OutbidsRivals(states[n - 1], events[n - 1]);
    }
  }

  // A loop variable of its own in every iteration

  /** The replaced price, if there is one, is one that the core converts to `int64` without wrapping. */
  ghost predicate ReplacedFits(l: Ledger, e: Event) {
    Replaces(l, e) ==> PriceOf(ReplacedBy(l, e)) < INT64_LIMIT
  }

  lemma SelectedIsHighest(pendings: seq<Record>, minedNonce: nat)
    requires BestOf(pendings, minedNonce).result.Some?
    ensures var r := BestOf(pendings, minedNonce).result.value;
            r in pendings && HighestRival(pendings, NonceOf(r)) == PriceOf(r)
  {
    ScanPicksMaximum(pendings, minedNonce);
    var b := BestOf(pendings, minedNonce);
    var i :| 0 <= i < |pendings| && pendings[i] == b.result.value && IsFirstMaximum(pendings, minedNonce, i, b);
    assert IsRival(pendings[i], NonceOf(pendings[i]));
    var highest := HighestRival(pendings, b.nonce);
    var j :| 0 <= j < |pendings| && IsRival(pendings[j], b.nonce) && PriceOf(pendings[j]) == highest;
    assert Eligible(pendings[j], minedNonce);
  }

  /** With a variable per iteration, a replacement outbids its rivals if and only if the replaced price fits an `int64`. */
  lemma PerIterationOutbidsExactly(l: Ledger, e: Event)
    requires l.variable.PerIteration?
    ensures OutbidsRivals(l, e) <==> ReplacedFits(l, e)
  {
    if Replaces(l, e) {
      SelectedIsHighest(Descending(l.store.pending), e.setRates.minedNonce.value);
    }
  }

  /** So it keeps the order, in every run with a variable per iteration, exactly as long as replaced prices fit. */
  lemma PerIterationRunsOutbid(states: seq<Ledger>, events: seq<Event>, n: nat)
    requires IsRun(states, events) && n < |states| && states[0].variable.PerIteration?
    ensures OutbiddingUpTo(states, n) <==> forall i :: 0 <= i < n ==> ReplacedFits(states[i], events[i])
  {
    RunsOutbidExactly(states, events, n);
    forall i | 0 <= i < n ensures OutbidsRivals(states[i], events[i]) <==> ReplacedFits(states[i], events[i]) {
      SameVariable(states, events, i);
      PerIterationOutbidsExactly(states[i], events[i]);
    }
  }

  function PriceAfter(n: nat): nat { FIRST_GAS_PRICE + GAS_PRICE_BUMP * n }

  /** Prices of pending set_rates are at most `n` bumps above the first price. */
  ghost predicate Priced(l: Ledger, n: nat) {
    forall k :: PendingSetRates(l, k) ==> PriceOf(l.store.pending[k]) <= PriceAfter(n)
  }

  lemma SelectedIsPending(l: Ledger, e: Event)
    requires Sound(l) && l.variable.PerIteration? && Replaces(l, e)
    ensures PendingSetRates(l, ReplacedBy(l, e).id.timepoint) && Holds(l.store.pending, ReplacedBy(l, e))
  {
    ScanPicksMaximum(Descending(l.store.pending), e.setRates.minedNonce.value);
    DescendingLists(l.store.pending, ReplacedBy(l, e));
  }

  lemma StepKeepsPriced(l: Ledger, e: Event, n: nat)
    requires Sound(l) && Enabled(l, e) && l.variable.PerIteration? && Priced(l, n) && PriceAfter(n) < INT64_LIMIT
    ensures ReplacedFits(l, e) && Priced(Next(l, e), n + 1)
  {
    if Replaces(l, e) { SelectedIsPending(l, e); }
    var l' := Next(l, e);
    assert e.ActivityPersisted? ==> Holds(l.store.pending, l.queue[0]);
    forall k | PendingSetRates(l', k) ensures PriceOf(l'.store.pending[k]) <= PriceAfter(n + 1) {
      if PendingSetRates(l, k) { assert PriceOf(l.store.pending[k]) <= PriceAfter(n); }
    }
  }

  /** The number of steps below which no price can leave the `int64` range. */
  const SAFE_STEPS := 922337198

  /** With a variable per iteration, the order holds without condition for the first 922337198 steps of every run. */
  lemma {:induction false} PerIterationOutbidsInShortRuns(states: seq<Ledger>, events: seq<Event>, i: nat)
    requires IsRun(states, events) && i < |states| && i <= SAFE_STEPS && states[0].variable.PerIteration?
    ensures Priced(states[i], i) && Outbidding(states[i])
  {
    if i > 0 {
      var l, e := states[i - 1], events[i - 1];
      PerIterationOutbidsInShortRuns(states, events, i - 1);
      RunIsSound(states, events, i - 1);
      SameVariable(states, events, i - 1);
      StepKeepsPriced(l, e, i - 1);
      PerIterationOutbidsExactly(l, e);
      StepOutbidsExactly(states, events, i - 1);
    }
  }

  // One loop variable for all iterations

  /**
   * With a shared variable, what a replacement takes over is the nonce and the
   * price of the oldest pending activity, and it keeps the prices in order
   * exactly under a condition on that activity: if it is a set_rates, its price
   * fits and every other pending one of its nonce bids less than a bump above
   * it; otherwise every pending set_rates that happens to have the same nonce
   * bids less than a bump above its price.
   */
  lemma SharedOutbidsExactly(l: Ledger, e: Event)
    requires Sound(l) && Enabled(l, e) && l.variable.Shared? && Replaces(l, e)
    ensures var o := ReplacedBy(l, e);
            && IsOldest(l.store.pending, o)
            && NonceOf(Submitted(l, e)) == NonceOf(o)
            && (o.action.SetRates? ==>
                  (OutbidsRivals(l, e) <==>
                   && PriceOf(o) < INT64_LIMIT
                   && forall k :: k != o.id.timepoint && PendingSetRates(l, k) &&
                                  NonceOf(l.store.pending[k]) == NonceOf(o) ==>
                                    PriceOf(l.store.pending[k]) < PriceOf(o) + GAS_PRICE_BUMP))
            && (!o.action.SetRates? ==>
                  (OutbidsRivals(l, e) <==>
                   forall k :: PendingSetRates(l, k) && NonceOf(l.store.pending[k]) == NonceOf(o) ==>
                                 PriceOf(l.store.pending[k]) < Parsed64(ReplacementPrice(o))))
  {
    var o, pendings := ReplacedBy(l, e), Descending(l.store.pending);
    SharedVariableShowsOldest(l.store.pending, e.setRates.minedNonce.value);
    NewPriceIsHighest(l, e);
    if o.action.SetRates? {
      assert PendingSetRates(l, o.id.timepoint);
    }
  }

  /** A pending trade or withdrawal older than everything else makes every replacement panic: nothing happens. */
  lemma OldestWithoutNonceBlocks(l: Ledger, call: SetRatesCall)
    requires Sound(l) && l.variable.Shared? && Enabled(l, SetRatesCalled(call))
    requires call.accepted && call.minedNonce.Some?
    requires BestOf(Descending(l.store.pending), call.minedNonce.value).result.Some?
    requires exists o :: IsOldest(l.store.pending, o) && !Readable(o)
    ensures Next(l, SetRatesCalled(call)) == l
  {
    SharedVariableShowsOldest(l.store.pending, call.minedNonce.value);
  }

  // Inputs at which the order is lost

  function ExampleCall(timepoint: nat): Event {
    SetRatesCalled(SetRatesCall(ActivityID(timepoint, ""), true, Some(5), 5, Some(timepoint), 0))
  }

  function ExampleRates(timepoint: nat, nonce: nat, gasPrice: int): Record {
    Submission(SetRates, ActivityID(timepoint, ""), "blockchain", "", Some(Sent(timepoint, nonce, gasPrice)), 0)
  }

  lemma ListingOfOne(k: nat, r: Record)
    ensures Descending(map[k := r]) == [r]
  {
    DescendingAbove(map[k := r], k);
    assert map[k := r] - {k} == map[];
  }

  lemma ListingOfTwo(k1: nat, r1: Record, k2: nat, r2: Record)
    requires k1 < k2
    ensures Descending(map[k1 := r1, k2 := r2]) == [r2, r1]
  {
    DescendingAbove(map[k1 := r1, k2 := r2], k2);
    assert map[k1 := r1, k2 := r2] - {k2} == map[k1 := r1];
    ListingOfOne(k1, r1);
  }

  lemma PickOfOne(r: Record, minedNonce: nat)
    requires Eligible(r, minedNonce) && Precedes(0, 0, NonceOf(r), PriceOf(r))
    ensures BestOf([r], minedNonce) == Best(NonceOf(r), PriceOf(r), Some(r))
  {
    assert [r][..0] == [];
  }

  lemma NoPickOfOne(r: Record, minedNonce: nat)
    requires !Eligible(r, minedNonce)
    ensures BestOf([r], minedNonce) == Best(0, 0, None)
  {
    assert [r][..0] == [];
  }

  lemma PickOfTwo(r: Record, r': Record, minedNonce: nat)
    requires Eligible(r, minedNonce) && Precedes(0, 0, NonceOf(r), PriceOf(r))
    ensures BestOf([r, r'], minedNonce).result.Some?
  {
    assert [r, r'][..1] == [r];
    PickOfOne(r, minedNonce);
  }

  function Stage(m: map<nat, Record>, order: seq<nat>): Ledger { Ledger(Shared, Store(m, m), [], order) }

  /** A set_rates call behind one pending set_rates of nonce 5 outbids it. */
  lemma SecondCall(r: Record)
    requires r == ExampleRates(1, 5, FIRST_GAS_PRICE)
    ensures var l := Stage(map[1 := r], [1]);
            && Enabled(l, ExampleCall(2))
            && Next(l, ExampleCall(2)) ==
               Stage(map[1 := r, 2 := ExampleRates(2, 5, FIRST_GAS_PRICE + GAS_PRICE_BUMP)], [1, 2])
  {
    ListingOfOne(1, r);
    PickOfOne(r, 5);
  }

  /** Behind a deposit it takes the fresh nonce. */
  lemma CallBehindDeposit(d: Record)
    requires d.action.Deposit?
    ensures var l := Stage(map[1 := d], [1]);
            && Enabled(l, ExampleCall(2))
            && Next(l, ExampleCall(2)) == Stage(map[1 := d, 2 := ExampleRates(2, 5, FIRST_GAS_PRICE)], [1, 2])
  {
    ListingOfOne(1, d);
    NoPickOfOne(d, 5);
  }

  /** The next call replaces whatever is oldest. */
  lemma ThirdCall(first: Record, second: Record)
    requires Readable(first) && Eligible(second, 5) && PriceOf(second) > 0
    ensures var l := Stage(map[1 := first, 2 := second], [1, 2]);
            var r := ExampleRates(3, NonceOf(first), ReplacementPrice(first));
            && Enabled(l, ExampleCall(3))
            && Next(l, ExampleCall(3)) == Stage(map[1 := first, 2 := second, 3 := r], [1, 2, 3])
  {
    ListingOfTwo(1, first, 2, second);
    PickOfTwo(second, first, 5);
  }

  /** Some run over these events ends in that ledger. */
  ghost predicate Reaches(events: seq<Event>, l: Ledger) {
    exists states: seq<Ledger> :: IsRun(states, events) && states[|events|] == l
  }

  lemma ReachesStart(variable: LoopVariable)
    ensures Reaches([], Start(variable))
  {
    assert IsRun([Start(variable)], []);
  }

  lemma ReachesNext(events: seq<Event>, l: Ledger, e: Event, l': Ledger)
    requires Reaches(events, l) && Enabled(l, e) && l' == Next(l, e)
    ensures Reaches(events + [e], l')
  {
    var states: seq<Ledger> :| IsRun(states, events) && states[|events|] == l;
    assert IsRun(states + [l'], events + [e]);
    assert (states + [l'])[|events + [e]|] == l';
  }

  lemma FirstCall()
    ensures var e := ExampleCall(1);
            && Enabled(Start(Shared), e)
            && Next(Start(Shared), e) == Stage(map[1 := ExampleRates(1, 5, FIRST_GAS_PRICE)], [1])
  {}

  lemma EqualBids(r1: Record, r2: Record, r3: Record)
    requires r2.action.SetRates? && r3.action.SetRates? && NonceOf(r2) == NonceOf(r3) && PriceOf(r2) >= PriceOf(r3)
    ensures !Outbidding(Stage(map[1 := r1, 2 := r2, 3 := r3], [1, 2, 3]))
  {
    var l := Stage(map[1 := r1, 2 := r2, 3 := r3], [1, 2, 3]);
    assert PendingSetRates(l, l.order[1]) && PendingSetRates(l, l.order[2]);
  }

  lemma TwoCallsReach()
    ensures var r1, r2 := ExampleRates(1, 5, FIRST_GAS_PRICE), ExampleRates(2, 5, FIRST_GAS_PRICE + GAS_PRICE_BUMP);
            Reaches([] + [ExampleCall(1)] + [ExampleCall(2)], Stage(map[1 := r1, 2 := r2], [1, 2]))
  {
    var r1, r2 := ExampleRates(1, 5, FIRST_GAS_PRICE), ExampleRates(2, 5, FIRST_GAS_PRICE + GAS_PRICE_BUMP);
    ReachesStart(Shared);
    FirstCall();
    ReachesNext([], Start(Shared), ExampleCall(1), Stage(map[1 := r1], [1]));
    SecondCall(r1);
    ReachesNext([] + [ExampleCall(1)], Stage(map[1 := r1], [1]), ExampleCall(2), Stage(map[1 := r1, 2 := r2], [1, 2]));
  }

  /** Three calls in a row: the second replacement is shown the first transaction, and bids what the other one bid. */
  lemma SharedVariableBreaksOutbidding()
    ensures exists l: Ledger ::
              && l.variable.Shared? && Reaches([ExampleCall(1), ExampleCall(2), ExampleCall(3)], l)
              && !Outbidding(l)
  {
    var bid := FIRST_GAS_PRICE + GAS_PRICE_BUMP;
    var r1, r2, r3 := ExampleRates(1, 5, FIRST_GAS_PRICE), ExampleRates(2, 5, bid), ExampleRates(3, 5, bid);
    var l, l' := Stage(map[1 := r1, 2 := r2], [1, 2]), Stage(map[1 := r1, 2 := r2, 3 := r3], [1, 2, 3]);
    TwoCallsReach();
    ThirdCall(r1, r2);
    ReachesNext([] + [ExampleCall(1)] + [ExampleCall(2)], l, ExampleCall(3), l');
    assert [] + [ExampleCall(1)] + [ExampleCall(2)] + [ExampleCall(3)] ==
           [ExampleCall(1), ExampleCall(2), ExampleCall(3)];
    EqualBids(r1, r2, r3);
  }

  function ExampleDeposit(): Record {
    Submission(Deposit, ActivityID(1, ""), "huobi", "KNC", Some(Sent(1, 7, 1)), 0)
  }

  function ExampleDepositCall(): Event {
    DepositCalled(DepositCall(ActivityID(1, ""), "huobi", "KNC", true, true, Some(Sent(1, 7, 1)), 0))
  }

  lemma DepositAndCallReach()
    ensures Reaches([] + [ExampleDepositCall()] + [ExampleCall(2)],
                    Stage(map[1 := ExampleDeposit(), 2 := ExampleRates(2, 5, FIRST_GAS_PRICE)], [1, 2]))
  {
    var d, r2 := ExampleDeposit(), ExampleRates(2, 5, FIRST_GAS_PRICE);
    ReachesStart(Shared);
    ReachesNext([], Start(Shared), ExampleDepositCall(), Stage(map[1 := d], [1]));
    CallBehindDeposit(d);
    ReachesNext([] + [ExampleDepositCall()], Stage(map[1 := d], [1]), ExampleCall(2),
                Stage(map[1 := d, 2 := r2], [1, 2]));
  }

  /** Behind a pending deposit, the second set_rates is sent with the deposit's nonce, 7, although the first had 5. */
  lemma SharedVariableTakesDepositNonce()
    ensures exists l: Ledger ::
              && l.variable.Shared? && Reaches([ExampleDepositCall(), ExampleCall(2), ExampleCall(3)], l)
              && PendingSetRates(l, 2) && NonceOf(l.store.pending[2]) == 5
              && PendingSetRates(l, 3) && NonceOf(l.store.pending[3]) == 7
  {
    var d, r2 := ExampleDeposit(), ExampleRates(2, 5, FIRST_GAS_PRICE);
    var r3 := ExampleRates(3, 7, ReplacementPrice(d));
    var l, l' := Stage(map[1 := d, 2 := r2], [1, 2]), Stage(map[1 := d, 2 := r2, 3 := r3], [1, 2, 3]);
    DepositAndCallReach();
    ThirdCall(d, r2);
    ReachesNext([] + [ExampleDepositCall()] + [ExampleCall(2)], l, ExampleCall(3), l');
    assert [] + [ExampleDepositCall()] + [ExampleCall(2)] + [ExampleCall(3)] ==
           [ExampleDepositCall(), ExampleCall(2), ExampleCall(3)];
    assert PendingSetRates(l', 2) && PendingSetRates(l', 3);
  }

  /** Even with a variable per iteration: a pending price outside the `int64` range is replaced by a lower one. */
  lemma OverflowBreaksOutbidding()
    ensures exists l: Ledger :: && l.variable.PerIteration? && Sound(l) && Outbidding(l) && Enabled(l, ExampleCall(2))
                        && !ReplacedFits(l, ExampleCall(2)) && !Outbidding(Next(l, ExampleCall(2)))
  {
    var r := ExampleRates(1, 5, INT64_LIMIT);
    var l := Ledger(PerIteration, Store(map[1 := r], map[1 := r]), [], [1]);
    ListingOfOne(1, r);
    PickOfOne(r, 5);
    PerIterationOutbidsExactly(l, ExampleCall(2));
    OutbiddingKeptExactly(l, ExampleCall(2));
  }
}

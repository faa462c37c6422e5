/**
 * One authenticated-data tick (data/fetcher/fetcher.go): poll every exchange
 * and the chain, merge the statuses into the pending activities, and store
 * each of them back.
 */
module AuthSnapshot {
  import opened Wrappers
  import opened ActivityIds
  import opened Activities
  import opened ActivityStorage
  import opened StatusPolling
  import opened Lifecycle

  /** The transaction of a withdrawal, once the exchange has told it. */
  function Adopt(r: Record, e: Option<ActivityStatus>): Record {
    if e.Some? && r.tx == Some(NoTx) then r.(tx := Some(e.value.tx)) else r
  }

  /** Adopting the transaction early does not change what is stored in the end. */
  lemma AdoptThenSettle(r: Record, e: Option<ActivityStatus>, b: Option<ActivityStatus>)
    ensures Settle(Adopt(r, e), e, b) == Settle(r, e, b)
  {}

  function SettleAt(pendings: seq<Record>, es: Statuses, bs: Statuses, i: nat): Record
    requires i < |pendings|
  {
    Settle(pendings[i], Lookup(es, pendings[i].id), Lookup(bs, pendings[i].id))
  }

  /** The store after the first `n` updates of a tick. */
  function PersistPrefix(s: Store, pendings: seq<Record>, es: Statuses, bs: Statuses, n: nat): Store
    requires n <= |pendings|
  {
    if n == 0 then s
    else PutUpdate(PersistPrefix(s, pendings, es, bs, n - 1), SettleAt(pendings, es, bs, n - 1))
  }

  function StillPending(pendings: seq<Record>, es: Statuses, bs: Statuses, n: nat): seq<Record>
    requires n <= |pendings|
  {
    if n == 0 then []
    else
      StillPending(pendings, es, bs, n - 1) +
      (var r := SettleAt(pendings, es, bs, n - 1); if r.IsPending() then [r] else [])
  }

  predicate Faultless(m: Statuses, id: ActivityID) { id in m ==> m[id].error.None? }

  /** `PersistSnapshot`, apart from copying the balances. */
  method PersistSnapshot(
    storage: BoltStorage, pendings: seq<Record>, es: Statuses, bs: Statuses, balancesValid: bool)
    returns (valid: bool, pendingActivities: seq<Record>)
    modifies storage
    ensures storage.State() == PersistPrefix(old(storage.State()), pendings, es, bs, |pendings|)
    ensures pendingActivities == StillPending(pendings, es, bs, |pendings|)
    ensures valid <==> balancesValid && forall i :: 0 <= i < |pendings| ==>
                         Faultless(es, pendings[i].id) && Faultless(bs, pendings[i].id)
  {
    valid, pendingActivities := balancesValid, [];
    for i := 0 to |pendings|
      invariant storage.State() == PersistPrefix(old(storage.State()), pendings, es, bs, i)
      invariant pendingActivities == StillPending(pendings, es, bs, i)
      invariant valid <==> balancesValid && forall j :: 0 <= j < i ==>
                             Faultless(es, pendings[j].id) && Faultless(bs, pendings[j].id)
    {
      var activity := pendings[i];
      var id := activity.id;
      var blockNumber := 0;
      if id in es {
        var status := es[id];
        if activity.IsExchangePending() {
          activity := activity.(exchangeStatus := status.exchangeStatus);
        }
        if activity.tx == Some(NoTx) {
          activity := activity.(tx := Some(status.tx));
        }
        if status.error.Some? {
          valid := false;
        }
        activity := activity.(statusError := ErrorText(status.error));
      }
      if id in bs {
        var status := bs[id];
        blockNumber := status.blockNumber;
        if activity.IsBlockchainPending() {
          activity := activity.(miningStatus := status.miningStatus);
        }
        if status.error.Some? {
          valid := false;
        }
        activity := activity.(statusError := ErrorText(status.error));
      }
      activity := activity.(blockNumber := blockNumber);
      assert activity == SettleAt(pendings, es, bs, i);
      if activity.IsPending() {
        pendingActivities := pendingActivities + [activity];
      }
      storage.UpdateActivity(activity);
    }
  }

  ghost predicate AllReportable(pendings: seq<Record>, es: Statuses, bs: Statuses) {
    forall i :: 0 <= i < |pendings| ==>
                  Reportable(pendings[i], Lookup(es, pendings[i].id), Lookup(bs, pendings[i].id))
  }

  function Adopted(pendings: seq<Record>, es: Statuses): seq<Record> {
    seq(|pendings|, i requires 0 <= i < |pendings| => Adopt(pendings[i], Lookup(es, pendings[i].id)))
  }

  ghost predicate ExchangeReportable(pendings: seq<Record>, es: Statuses) {
    forall i :: 0 <= i < |pendings| && pendings[i].id in es ==>
                  pendings[i].OnExchange() && pendings[i].IsExchangePending()
  }

  lemma {:induction false} AdoptedPersists(s: Store, pendings: seq<Record>, es: Statuses, bs: Statuses, n: nat)
    requires n <= |pendings|
    ensures PersistPrefix(s, Adopted(pendings, es), es, bs, n) == PersistPrefix(s, pendings, es, bs, n)
  {
    if n > 0 {
      AdoptedPersists(s, pendings, es, bs, n - 1);
      var r := pendings[n - 1];
      AdoptThenSettle(r, Lookup(es, r.id), Lookup(bs, r.id));
    }
  }

  /** An exchange, and the ladder that its answers climb. */
  datatype Venue = Venue(exchange: Exchange, rank: ActivityStatus -> nat, height: nat)

  ghost predicate ClimbingVenues(venues: seq<Venue>, pendings: seq<Record>) {
    forall v :: v in venues ==> Progressive(v.exchange, pendings, v.rank, v.height)
  }

  ghost predicate DistinctVenues(venues: seq<Venue>) {
    forall v, w :: 0 <= v < w < |venues| ==> venues[v].exchange.id != venues[w].exchange.id
  }

  /**
   * At one moment the balances of the exchange were read, and every activity
   * destined for it has the report, or the absence, that the exchange would
   * have given at that moment; or the balances could not be read, and none has
   * a report.
   */
  ghost predicate VenueToldAt(x: Exchange, pendings: seq<Record>, es: Statuses, moment: nat) {
    forall i :: 0 <= i < |pendings| && pendings[i].destination == x.id ==>
      SameReport(Lookup(es, pendings[i].id), if x.balances(moment).Ok? then Ask(x, pendings[i], moment) else None)
  }

  ghost predicate VenueTold(x: Exchange, pendings: seq<Record>, es: Statuses, from: nat, to: nat) {
    exists moment: nat :: from <= moment < to && VenueToldAt(x, pendings, es, moment)
  }

  /** Only activities destined for one of the venues have reports. */
  ghost predicate OnlyVenues(venues: seq<Venue>, n: nat, pendings: seq<Record>, es: Statuses)
    requires n <= |venues|
  {
    forall i :: 0 <= i < |pendings| && pendings[i].id in es ==>
                  exists v :: 0 <= v < n && venues[v].exchange.id == pendings[i].destination
  }

  /** What one exchange adds to the map: reports of its own activities only. */
  lemma OwnReports(x: Exchange, pendings: seq<Record>, statuses: Statuses, balances: Balances, from: nat, to: nat)
    returns (moment: nat)
    requires DistinctIds(pendings)
    requires ExchangeTold(x, pendings, balances, statuses, from, to) || ExchangeFailed(x, balances, statuses, from, to)
    ensures from <= moment < to && VenueToldAt(x, pendings, statuses, moment)
    ensures forall i :: 0 <= i < |pendings| && pendings[i].id in statuses ==> pendings[i].destination == x.id
  {
    if ExchangeTold(x, pendings, balances, statuses, from, to) {
      moment :| from <= moment && moment + |pendings| < to
                && statuses == ExchangeStatuses(x, pendings, moment + 1)
                && AnsweredAt(x, pendings, balances, statuses, moment);
      forall i | 0 <= i < |pendings| && pendings[i].id in statuses ensures pendings[i].destination == x.id {
        AnswerOf(x, pendings, moment + 1, i);
      }
    } else {
      moment :| from <= moment < to && x.balances(moment).Err?;
    }
  }

  lemma OthersUntouched(x: Exchange, pendings: seq<Record>, es: Statuses, statuses: Statuses, from: nat, to: nat, to': nat)
    requires VenueTold(x, pendings, es, from, to) && to <= to'
    requires forall i :: 0 <= i < |pendings| && pendings[i].id in statuses ==> pendings[i].destination != x.id
    ensures VenueTold(x, pendings, es + statuses, from, to')
  {
    var moment: nat :| from <= moment < to && VenueToldAt(x, pendings, es, moment);
    assert VenueToldAt(x, pendings, es + statuses, moment);
  }

  lemma VenueAdded(x: Exchange, pendings: seq<Record>, es: Statuses, statuses: Statuses, from: nat, moment: nat, to: nat)
    requires from <= moment < to && VenueToldAt(x, pendings, statuses, moment)
    requires forall i :: 0 <= i < |pendings| && pendings[i].id in es ==> pendings[i].destination != x.id
    ensures VenueTold(x, pendings, es + statuses, from, to)
  {
    assert VenueToldAt(x, pendings, es + statuses, moment);
  }

  /** All venues polled so far have told. */
  ghost predicate VenuesTold(venues: seq<Venue>, n: nat, pendings: seq<Record>, es: Statuses, from: nat, to: nat)
    requires n <= |venues|
  {
    && OnlyVenues(venues, n, pendings, es)
    && forall v :: 0 <= v < n ==> VenueTold(venues[v].exchange, pendings, es, from, to)
  }

  lemma OneMoreVenue(
    venues: seq<Venue>, n: nat, pendings: seq<Record>, es: Statuses, statuses: Statuses, balances: Balances,
    start: nat, from: nat, to: nat)
    requires n < |venues| && DistinctVenues(venues) && DistinctIds(pendings) && start <= from
    requires VenuesTold(venues, n, pendings, es, start, from)
    requires var x := venues[n].exchange;
             ExchangeTold(x, pendings, balances, statuses, from, to) || ExchangeFailed(x, balances, statuses, from, to)
    ensures VenuesTold(venues, n + 1, pendings, es + statuses, start, to)
  {
    var x := venues[n].exchange;
    var moment := OwnReports(x, pendings, statuses, balances, from, to);
    VenueAdded(x, pendings, es, statuses, start, moment, to);
    forall v | 0 <= v < n ensures VenueTold(venues[v].exchange, pendings, es + statuses, start, to) {
      OthersUntouched(venues[v].exchange, pendings, es, statuses, start, from, to);
    }
  }

  /** Polls every exchange; the entries of the exchanges are collected in one map. */
  method PollVenues(venues: seq<Venue>, pendings: seq<Record>, start: nat)
    returns (estatuses: Statuses, moment: nat)
    requires DistinctIds(pendings) && ClimbingVenues(venues, pendings) && DistinctVenues(venues)
    ensures ExchangeReportable(pendings, estatuses)
    ensures start <= moment && VenuesTold(venues, |venues|, pendings, estatuses, start, moment)
  {
    estatuses, moment := map[], start;
    for v := 0 to |venues|
      invariant ExchangeReportable(pendings, estatuses)
      invariant start <= moment && VenuesTold(venues, v, pendings, estatuses, start, moment)
    {
      var venue := venues[v];
      assert venue in venues;
      var _, balances, statuses, next, _ :=
        FetchAuthDataFromExchange(venue.exchange, pendings, venue.rank, venue.height, moment);
      AskedAreReportable(venue.exchange, pendings, statuses);
      OneMoreVenue(venues, v, pendings, estatuses, statuses, balances, start, moment, next);
      estatuses := estatuses + statuses;
      moment := next;
    }
  }

  /** The chain reports of a record are stable whichever transaction it adopts. */
  ghost predicate StableWithAnyTx(chain: Chain, pendings: seq<Record>) {
    forall i, tx :: 0 <= i < |pendings| ==> StableFor(chain, pendings[i].(tx := tx))
  }

  lemma AdoptedIsOrderly(chain: Chain, pendings: seq<Record>, es: Statuses)
    requires (Settling(chain, pendings) || StableWithAnyTx(chain, pendings)) && DistinctIds(pendings)
    ensures Orderly(chain, Adopted(pendings, es)) && DistinctIds(Adopted(pendings, es))
  {
    var adopted := Adopted(pendings, es);
    if StableWithAnyTx(chain, pendings) {
      forall i | 0 <= i < |adopted| ensures StableFor(chain, adopted[i]) {
        assert adopted[i] == pendings[i].(tx := adopted[i].tx);
      }
    } else {
      forall i | 0 <= i < |adopted| ensures Begun(chain, adopted[i]) {
        assert Begun(chain, pendings[i]) && adopted[i].timestamp == pendings[i].timestamp;
      }
    }
  }

  lemma ReportableTogether(pendings: seq<Record>, es: Statuses, bs: Statuses)
    requires ExchangeReportable(pendings, es) && ChainReportable(Adopted(pendings, es), bs)
    ensures AllReportable(pendings, es, bs)
  {
    forall i | 0 <= i < |pendings|
      ensures Reportable(pendings[i], Lookup(es, pendings[i].id), Lookup(bs, pendings[i].id))
    {
      assert Adopted(pendings, es)[i] == Adopt(pendings[i], Lookup(es, pendings[i].id));
    }
  }

  /** What the chain told between two moments: true statuses at the moment of its balances, or none without balances. */
  ghost predicate ChainOutcome(chain: Chain, pendings: seq<Record>, bs: Statuses, from: nat, to: nat) {
    || (exists balances :: ChainTold(chain, pendings, balances, bs, from, to))
    || ChainFailed(chain, map[], bs, from, to)
  }

  /**
   * `FetchAllAuthData`: the exchanges are polled first, then the chain about the
   * activities with the transactions that the exchanges told. What is stored is
   * the merge of the reports, all of which held at moments of the tick.
   */
  method FetchAllAuthData(
    storage: BoltStorage, venues: seq<Venue>, chain: Chain, start: nat, balancesValid: bool)
    returns (valid: bool, end: nat, ghost es: Statuses, ghost bs: Statuses, ghost polled: nat)
    requires KeyedById(storage.pending)
    requires ClimbingVenues(venues, Descending(storage.pending)) && DistinctVenues(venues)
    requires Settling(chain, Descending(storage.pending)) || StableWithAnyTx(chain, Descending(storage.pending))
    modifies storage
    ensures AllReportable(Descending(old(storage.pending)), es, bs)
    ensures start <= polled < end
    ensures VenuesTold(venues, |venues|, Descending(old(storage.pending)), es, start, polled)
    ensures ChainOutcome(chain, Adopted(Descending(old(storage.pending)), es), bs, polled, end)
    ensures var pendings := Descending(old(storage.pending));
            storage.State() == PersistPrefix(old(storage.State()), pendings, es, bs, |pendings|)
  {
    var pendings := storage.GetPendingActivities();
    ListingHasDistinctTimepoints(storage.pending);
    var estatuses, moment := PollVenues(venues, pendings, start);
    var adopted := Adopted(pendings, estatuses);
    AdoptedIsOrderly(chain, pendings, estatuses);
    var ok, balances, bstatuses, next, _ := FetchAuthDataFromBlockchain(chain, adopted, moment);
    assert ok ==> ChainTold(chain, adopted, balances, bstatuses, moment, next);
    JudgedAreReportable(chain, adopted, bstatuses);
    ReportableTogether(pendings, estatuses, bstatuses);
    var pendingActivities;
    valid, pendingActivities := PersistSnapshot(storage, adopted, estatuses, bstatuses, balancesValid);
    es, bs, polled, end := estatuses, bstatuses, moment, next;
    AdoptedPersists(old(storage.State()), pendings, es, bs, |pendings|);
  }

  // What a tick stores

  ghost predicate DistinctTimepoints(pendings: seq<Record>) {
    forall i, j :: 0 <= i < j < |pendings| ==> pendings[i].id.timepoint != pendings[j].id.timepoint
  }

  lemma ListingHasDistinctTimepoints(pending: map<nat, Record>)
    requires KeyedById(pending)
    ensures DistinctTimepoints(Descending(pending)) && DistinctIds(Descending(pending))
  {
    var l := Descending(pending);
    forall i, j | 0 <= i < j < |l| ensures l[i].id.timepoint != l[j].id.timepoint {
      DescendingOrder(pending, i, j);
    }
  }

  /** After the updates of a tick every listed activity is stored as the merge of its reports. */
  lemma {:induction false} MergesAreStored(s: Store, pendings: seq<Record>, es: Statuses, bs: Statuses, n: nat, i: nat)
    requires i < n <= |pendings| && DistinctTimepoints(pendings)
    ensures var s', k := PersistPrefix(s, pendings, es, bs, n), pendings[i].id.timepoint;
            && k in s'.activities && s'.activities[k] == SettleAt(pendings, es, bs, i)
            && (!SettleAt(pendings, es, bs, i).IsPending() ==> k !in s'.pending)
  {
    if i < n - 1 {
      MergesAreStored(s, pendings, es, bs, n - 1, i);
      assert pendings[i].id.timepoint != pendings[n - 1].id.timepoint;
    }
  }

  /** The snapshot lists exactly the merges that are still pending. */
  lemma {:induction false} SnapshotLists(pendings: seq<Record>, es: Statuses, bs: Statuses, n: nat, r: Record)
    requires n <= |pendings|
    ensures r in StillPending(pendings, es, bs, n) <==>
            r.IsPending() && exists i :: 0 <= i < n && SettleAt(pendings, es, bs, i) == r
  {
    if n > 0 { SnapshotLists(pendings, es, bs, n - 1, r); }
  }

  /** A transaction that every poll of the chain finds mined is reported mined. */
  lemma MinedIsReported(c: Chain, pendings: seq<Record>, balances: Balances, bs: Statuses, from: nat, to: nat, i: nat)
    requires DistinctIds(pendings) && ChainTold(c, pendings, balances, bs, from, to) && i < |pendings|
    requires Polled(pendings[i])
    requires forall t: nat :: from <= t < to ==> c.txStatus(t, HashOf(pendings[i])).status.TxMined?
    ensures pendings[i].id in bs && bs[pendings[i].id].miningStatus.Mined?
    ensures exists t: nat :: from <= t < to && bs[pendings[i].id].blockNumber == c.txStatus(t, HashOf(pendings[i])).block
  {
    var moment: nat :| from <= moment && moment + 2 * |pendings| + 1 < to
                       && bs == ChainStatuses(c, pendings, moment + 1)
                       && TrueAt(c, pendings, balances, bs, moment);
    ReportOf(c, pendings, moment + 1, i);
    var t := moment + 2 + 2 * i;
    assert from <= t < to && c.txStatus(t, HashOf(pendings[i])).status.TxMined?;
    assert Lookup(bs, pendings[i].id) == JudgeAt(c, pendings[i], moment + 1, t, t + 1);
  }

  /**
   * A pending set_rates whose transaction is answered mined throughout the tick
   * is stored as mined, with the answered block, and is no longer pending,
   * unless the balances of the chain could not be read.
   */
  lemma MinedIsStored(
    s: Store, chain: Chain, es: Statuses, bs: Statuses, from: nat, to: nat, i: nat)
    requires KeyedById(s.pending) && i < |Descending(s.pending)|
    requires AllReportable(Descending(s.pending), es, bs)
    requires ChainOutcome(chain, Adopted(Descending(s.pending), es), bs, from, to)
    requires forall t: nat :: from <= t < to ==> chain.balances(t).Ok?
    requires var a := Descending(s.pending)[i];
             && a.action.SetRates? && Polled(a)
             && forall t: nat :: from <= t < to ==> chain.txStatus(t, HashOf(a)).status.TxMined?
    ensures var pendings := Descending(s.pending);
            var s', k := PersistPrefix(s, pendings, es, bs, |pendings|), pendings[i].id.timepoint;
            && k in s'.activities && s'.activities[k].miningStatus.Mined? && k !in s'.pending
            && exists t: nat :: from <= t < to &&
                 s'.activities[k].blockNumber == chain.txStatus(t, HashOf(pendings[i])).block
  {
    var pendings := Descending(s.pending);
    ListingHasDistinctTimepoints(s.pending);
    var adopted := AdoptedSetRates(pendings, es, bs, i);
    var balances :| ChainTold(chain, adopted, balances, bs, from, to);
    MinedIsReported(chain, adopted, balances, bs, from, to, i);
    MergesAreStored(s, pendings, es, bs, |pendings|, i);
    MinedMerge(pendings[i], Lookup(es, pendings[i].id), Lookup(bs, pendings[i].id));
  }

  lemma AdoptedSetRates(pendings: seq<Record>, es: Statuses, bs: Statuses, i: nat) returns (adopted: seq<Record>)
    requires DistinctIds(pendings) && i < |pendings| && pendings[i].action.SetRates?
    requires AllReportable(pendings, es, bs)
    ensures adopted == Adopted(pendings, es) && DistinctIds(adopted)
    ensures |adopted| == |pendings| && adopted[i] == pendings[i] && Lookup(es, pendings[i].id) == None
  {
    adopted := Adopted(pendings, es);
    assert Reportable(pendings[i], Lookup(es, pendings[i].id), Lookup(bs, pendings[i].id));
    forall j, k | 0 <= j < k < |adopted| ensures adopted[j].id != adopted[k].id {
      assert pendings[j].id != pendings[k].id;
    }
  }

  lemma MinedMerge(a: Record, e: Option<ActivityStatus>, b: Option<ActivityStatus>)
    requires a.action.SetRates? && Polled(a) && e.None? && b.Some? && b.value.miningStatus.Mined?
    ensures var r := Settle(a, e, b);
            r.miningStatus.Mined? && !r.IsPending() && r.blockNumber == b.value.blockNumber
  {}

  lemma AskedAreReportable(x: Exchange, pendings: seq<Record>, statuses: Statuses)
    requires DistinctIds(pendings)
    requires statuses == map[] || exists k: nat :: statuses == ExchangeStatuses(x, pendings, k)
    ensures ExchangeReportable(pendings, statuses)
  {
    if k: nat :| statuses == ExchangeStatuses(x, pendings, k) {
      ExchangeReports(x, pendings, k, |pendings|);
      forall i | 0 <= i < |pendings| && pendings[i].id in statuses
        ensures pendings[i].OnExchange() && pendings[i].IsExchangePending()
      {
        assert Lookup(statuses, pendings[i].id) == Ask(x, pendings[i], k + i);
      }
    }
  }

  ghost predicate ChainReportable(pendings: seq<Record>, bs: Statuses) {
    forall i :: 0 <= i < |pendings| && pendings[i].id in bs ==>
      && pendings[i].OnChain() && pendings[i].IsBlockchainPending()
      && (bs[pendings[i].id].miningStatus.Mined? || bs[pendings[i].id].miningStatus.Failed?)
  }

  lemma JudgedAreReportable(c: Chain, pendings: seq<Record>, statuses: Statuses)
    requires DistinctIds(pendings)
    requires statuses == map[] || exists k: nat :: statuses == ChainStatuses(c, pendings, k)
    ensures ChainReportable(pendings, statuses)
  {
    if k: nat :| statuses == ChainStatuses(c, pendings, k) {
      ChainReports(c, pendings, k, |pendings|);
      forall i | 0 <= i < |pendings| && pendings[i].id in statuses
        ensures && pendings[i].OnChain() && pendings[i].IsBlockchainPending()
                && (statuses[pendings[i].id].miningStatus.Mined? || statuses[pendings[i].id].miningStatus.Failed?)
      {
        assert Lookup(statuses, pendings[i].id) == JudgeAt(c, pendings[i], k, k + 2 * i + 1, k + 2 * i + 2);
      }
    }
  }

  // The tick as a run of the ledger

  /** The ledger in the middle of a tick: `n` activities persisted, the others waiting. */
  ghost function MidTick(l: Ledger, es: Statuses, bs: Statuses, n: nat): Ledger
    requires n <= |Descending(l.store.pending)|
  {
    var pendings := Descending(l.store.pending);
    l.(store := PersistPrefix(l.store, pendings, es, bs, n), queue := pendings[n..])
  }

  /**
   * A tick is a run of ledger events: it begins with the pending listing, and
   * each stored activity is one enabled `ActivityPersisted` step.
   */
  lemma TickIsRun(l: Ledger, es: Statuses, bs: Statuses, n: nat)
    requires l.queue == [] && AllReportable(Descending(l.store.pending), es, bs)
    requires n < |Descending(l.store.pending)|
    ensures Enabled(l, TickBegan) && Next(l, TickBegan) == MidTick(l, es, bs, 0)
    ensures var r := Descending(l.store.pending)[n];
            var e := ActivityPersisted(Lookup(es, r.id), Lookup(bs, r.id));
            && Enabled(MidTick(l, es, bs, n), e)
            && Next(MidTick(l, es, bs, n), e) == MidTick(l, es, bs, n + 1)
  {
    var pendings := Descending(l.store.pending);
    assert pendings[0..] == pendings;
    assert pendings[n..][0] == pendings[n] && pendings[n..][1..] == pendings[n + 1..];
  }
}

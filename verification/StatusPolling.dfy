/**
 * Polling statuses and balances (data/fetcher/fetcher.go).
 *
 * The outside world is a history indexed by time, and every remote read takes
 * the world at its own moment: two reads never share one, so anything may
 * happen between them. A poll of `n` records that starts at `k` reads the mined
 * nonce at `k`, and for record `i` the transaction at `k+1+2i` and the local
 * clock at `k+2+2i`.
 */
module StatusPolling {
  import opened Wrappers
  import opened OrderedKeys
  import opened ActivityIds
  import opened Activities

  const LOST_AFTER := 15 * 60 * 1000

  datatype TxState = Unconfirmed | TxMined | TxFailed | TxLost

  datatype TxAnswer = TxAnswer(status: TxState, block: nat, error: Option<string>)

  type Balances = map<string, int>

  type Statuses = map<ActivityID, ActivityStatus>

  datatype Chain = Chain(
    minedNonce: nat -> nat,
    txStatus: (nat, nat) -> TxAnswer,
    clock: nat -> nat,
    balances: nat -> Result<Balances>)

  function Lookup(m: Statuses, id: ActivityID): Option<ActivityStatus> {
    if id in m then Some(m[id]) else None
  }

  ghost predicate DistinctIds(pendings: seq<Record>) {
    forall i, j :: 0 <= i < j < |pendings| ==> pendings[i].id != pendings[j].id
  }

  function HashOf(a: Record): nat {
    if a.tx.Some? && a.tx.value.Tx? then a.tx.value.hash else 0
  }

  /** The body of the loop in `FetchStatusFromBlockchain` for one activity. */
  function Judge(a: Record, minedNonce: nat, answer: TxAnswer, now: nat): Option<ActivityStatus> {
    if !a.IsBlockchainPending() || !a.OnChain() || HashOf(a) == 0 then None
    else
      var verdict := (m: Status) =>
        Some(ActivityStatus(a.exchangeStatus, Tx(HashOf(a)), answer.block, m, answer.error));
      match answer.status
      case Unconfirmed =>
        if a.action.SetRates? && a.nonce.Some? && a.nonce.value < minedNonce then verdict(Failed) else None
      case TxMined => verdict(Mined)
      case TxFailed => verdict(Failed)
      case TxLost => if Elapsed(now, a.timestamp) > LOST_AFTER then verdict(Failed) else None
  }

  /** Subtraction of two `uint64` instants. */
  function Elapsed(now: nat, since: nat): int {
    if since <= now then now - since else now - since + UINT64
  }

  function JudgeAt(c: Chain, a: Record, t0: nat, t1: nat, t2: nat): Option<ActivityStatus> {
    Judge(a, c.minedNonce(t0), c.txStatus(t1, HashOf(a)), c.clock(t2))
  }

  function ChainPrefix(c: Chain, pendings: seq<Record>, k: nat, n: nat): Statuses
    requires n <= |pendings|
  {
    if n == 0 then map[]
    else
      var before := ChainPrefix(c, pendings, k, n - 1);
      match JudgeAt(c, pendings[n - 1], k, k + 2 * n - 1, k + 2 * n)
      case None => before
      case Some(s) => before[pendings[n - 1].id := s]
  }

  function ChainStatuses(c: Chain, pendings: seq<Record>, k: nat): Statuses {
    ChainPrefix(c, pendings, k, |pendings|)
  }

  /** `FetchStatusFromBlockchain`, started at moment `k`; `next` is the first moment after it. */
  method FetchStatusFromBlockchain(c: Chain, pendings: seq<Record>, k: nat)
    returns (result: Statuses, next: nat)
    ensures result == ChainStatuses(c, pendings, k) && next == k + 2 * |pendings| + 1
  {
    result := map[];
    var minedNonce := c.minedNonce(k);
    for i := 0 to |pendings|
      invariant result == ChainPrefix(c, pendings, k, i)
    {
      var activity := pendings[i];
      if activity.IsBlockchainPending() && activity.OnChain() {
        var tx := HashOf(activity);
        if tx == 0 {
          continue;
        }
        var answer := c.txStatus(k + 2 * i + 1, tx);
        var found := (m: Status) =>
          ActivityStatus(activity.exchangeStatus, Tx(tx), answer.block, m, answer.error);
        match answer.status {
          case Unconfirmed =>
            if activity.action.SetRates? && activity.nonce.Some? && activity.nonce.value < minedNonce {
              result := result[activity.id := found(Failed)];
            }
          case TxMined =>
            result := result[activity.id := found(Mined)];
          case TxFailed =>
            result := result[activity.id := found(Failed)];
          case TxLost =>
            if Elapsed(c.clock(k + 2 * i + 2), activity.timestamp) > LOST_AFTER {
              result := result[activity.id := found(Failed)];
            }
        }
      }
    }
    next := k + 2 * |pendings| + 1;
  }

  /**
   * What a chain judgement is: mined exactly for a mined transaction; failed for
   * a failed one, one lost for more than 15 minutes, and an unconfirmed
   * set_rates whose nonce is below the mined one; nothing otherwise. It carries
   * the hash asked for, the block and the error of the answer, and leaves the
   * exchange status. Only activities whose chain side is pending are asked for.
   */
  lemma JudgeExactly(a: Record, minedNonce: nat, answer: TxAnswer, now: nat)
    ensures var r := Judge(a, minedNonce, answer, now);
            var asked := && (a.action.SetRates? || a.action.Deposit? || a.action.Withdraw?)
                         && a.miningStatus in {Blank, Submitted} && a.exchangeStatus != Failed && HashOf(a) != 0;
            && (r.Some? && r.value.miningStatus.Mined? <==> asked && answer.status.TxMined?)
            && (r.Some? && r.value.miningStatus.Failed? <==>
                asked && (|| answer.status.TxFailed?
                          || (answer.status.TxLost? &&
                              (if a.timestamp <= now then now - a.timestamp else now - a.timestamp + UINT64) > 900_000)
                          || (answer.status.Unconfirmed? && a.action.SetRates? &&
                              a.nonce.Some? && a.nonce.value < minedNonce)))
            && (r.Some? ==> && (r.value.miningStatus.Mined? || r.value.miningStatus.Failed?)
                            && r.value.tx == Tx(HashOf(a)) && r.value.blockNumber == answer.block
                            && r.value.error == answer.error && r.value.exchangeStatus == a.exchangeStatus)
  {}

  /** What a poll reports for record `i`, and that it reports nothing else. */
  lemma {:induction false} ChainReports(c: Chain, pendings: seq<Record>, k: nat, n: nat)
    requires DistinctIds(pendings) && n <= |pendings|
    ensures var m := ChainPrefix(c, pendings, k, n);
            && (forall i :: 0 <= i < n ==>
                  Lookup(m, pendings[i].id) == JudgeAt(c, pendings[i], k, k + 2 * i + 1, k + 2 * i + 2))
            && (forall id :: id in m ==> exists i :: 0 <= i < n && pendings[i].id == id)
  {
    if n > 0 { ChainReports(c, pendings, k, n - 1); }
  }

  /** An exchange: the answers to the three kinds of status queries, and its balances. */
  datatype Exchange = Exchange(
    id: string,
    orderStatus: (nat, Record) -> ExchangeAnswer,
    depositStatus: (nat, Record) -> ExchangeAnswer,
    withdrawStatus: (nat, Record) -> (ExchangeAnswer, TxRef),
    balances: nat -> Result<Balances>)

  datatype ExchangeAnswer = ExchangeAnswer(status: Status, error: Option<string>)

  /** The body of the loop in `FetchStatusFromExchange` for one activity. */
  function Ask(x: Exchange, a: Record, t: nat): Option<ActivityStatus> {
    if !a.IsExchangePending() || a.destination != x.id then None
    else
      match a.action
      case Trade =>
        var r := x.orderStatus(t, a);
        Some(ActivityStatus(r.status, NoTx, 0, a.miningStatus, r.error))
      case Deposit =>
        var r := x.depositStatus(t, a);
        Some(ActivityStatus(r.status, NoTx, 0, a.miningStatus, r.error))
      case Withdraw =>
        var r := x.withdrawStatus(t, a);
        Some(ActivityStatus(r.0.status, r.1, 0, a.miningStatus, r.0.error))
      case _ => None
  }

  /**
   * What an exchange is asked, and what is reported: only the destination of an
   * activity is asked, only about a trade, deposit or withdrawal whose exchange
   * side is pending; the status of a trade is that of its order, of a deposit
   * that of the deposit, of a withdrawal that of the withdrawal together with
   * its transaction. The mining status is left.
   */
  lemma AskExactly(x: Exchange, a: Record, t: nat)
    ensures var r := Ask(x, a, t);
            && (r.Some? <==>
                && a.destination == x.id
                && (|| (a.action.Trade? && a.exchangeStatus in {Blank, Submitted})
                    || (a.action.Deposit? && a.exchangeStatus in {Blank, Pending} && a.miningStatus != Failed)
                    || (a.action.Withdraw? && a.exchangeStatus in {Blank, Submitted} && a.miningStatus != Failed)))
            && (r.Some? ==> r.value.miningStatus == a.miningStatus && r.value.blockNumber == 0)
            && (r.Some? && a.action.Trade? ==>
                  r.value.exchangeStatus == x.orderStatus(t, a).status && r.value.tx == NoTx
                  && r.value.error == x.orderStatus(t, a).error)
            && (r.Some? && a.action.Deposit? ==>
                  r.value.exchangeStatus == x.depositStatus(t, a).status && r.value.tx == NoTx
                  && r.value.error == x.depositStatus(t, a).error)
            && (r.Some? && a.action.Withdraw? ==>
                  r.value.exchangeStatus == x.withdrawStatus(t, a).0.status && r.value.tx == x.withdrawStatus(t, a).1
                  && r.value.error == x.withdrawStatus(t, a).0.error)
  {}

  function ExchangePrefix(x: Exchange, pendings: seq<Record>, k: nat, n: nat): Statuses
    requires n <= |pendings|
  {
    if n == 0 then map[]
    else
      var before := ExchangePrefix(x, pendings, k, n - 1);
      match Ask(x, pendings[n - 1], k + n - 1)
      case None => before
      case Some(s) => before[pendings[n - 1].id := s]
  }

  function ExchangeStatuses(x: Exchange, pendings: seq<Record>, k: nat): Statuses {
    ExchangePrefix(x, pendings, k, |pendings|)
  }

  /** `FetchStatusFromExchange`, started at moment `k`. */
  method FetchStatusFromExchange(x: Exchange, pendings: seq<Record>, k: nat)
    returns (result: Statuses, next: nat)
    ensures result == ExchangeStatuses(x, pendings, k) && next == k + |pendings|
  {
    result := map[];
    for i := 0 to |pendings|
      invariant result == ExchangePrefix(x, pendings, k, i)
    {
      var activity := pendings[i];
      if activity.IsExchangePending() && activity.destination == x.id {
        var answer: ExchangeAnswer;
        var tx := NoTx;
        match activity.action {
          case Trade => answer := x.orderStatus(k + i, activity);
          case Deposit => answer := x.depositStatus(k + i, activity);
          case Withdraw =>
            var r := x.withdrawStatus(k + i, activity);
            answer, tx := r.0, r.1;
          case _ => continue;
        }
        result := result[activity.id :=
          ActivityStatus(answer.status, tx, 0, activity.miningStatus, answer.error)];
      }
    }
    next := k + |pendings|;
  }

  lemma {:induction false} ExchangeReports(x: Exchange, pendings: seq<Record>, k: nat, n: nat)
    requires DistinctIds(pendings) && n <= |pendings|
    ensures var m := ExchangePrefix(x, pendings, k, n);
            && (forall i :: 0 <= i < n ==> Lookup(m, pendings[i].id) == Ask(x, pendings[i], k + i))
            && (forall id :: id in m ==> exists i :: 0 <= i < n && pendings[i].id == id)
  {
    if n > 0 { ExchangeReports(x, pendings, k, n - 1); }
  }

  // The comparison of two polls

  ghost predicate SameStatuses(pre: Statuses, post: Statuses) {
    pre.Keys == post.Keys && forall id :: id in pre ==> Same(pre[id], post[id])
  }

  lemma SubsetOfSameSize<T>(a: set<T>, b: set<T>)
    requires a <= b && |a| == |b|
    ensures a == b
  {
    assert |b - a| == |b| - |a|;
    assert b == a + (b - a);
  }

  /** `unchanged` walks only one of the maps; equal sizes make it map equality on the compared fields. */
  method Unchanged(pre: Statuses, post: Statuses) returns (result: bool)
    ensures result <==> SameStatuses(pre, post)
  {
    if |pre| != |post| {
      assert |pre| == |pre.Keys| && |post| == |post.Keys|;
      return false;
    }
    var rest := pre.Keys;
    while rest != {}
      invariant rest <= pre.Keys
      invariant forall id :: id in pre && id !in rest ==> id in post && Same(pre[id], post[id])
      decreases |rest|
    {
      var id :| id in rest;
      if id !in post || !Same(pre[id], post[id]) {
        return false;
      }
      rest := rest - {id};
    }
    assert |pre| == |pre.Keys| && |post| == |post.Keys|;
    SubsetOfSameSize(pre.Keys, post.Keys);
    result := true;
  }

  // The retry loop: a rank that only climbs bounds the number of rounds

  function Rank(rank: ActivityStatus -> nat, m: Statuses, id: ActivityID): nat {
    if id in m then rank(m[id]) else 0
  }

  function Weight(rank: ActivityStatus -> nat, m: Statuses, pendings: seq<Record>): nat {
    if pendings == [] then 0
    else Rank(rank, m, pendings[0].id) + Weight(rank, m, pendings[1..])
  }

  ghost predicate RankOfReport(rank: ActivityStatus -> nat, height: nat) {
    && (forall s :: rank(s) <= height)
    && (forall s, s' :: Same(s, s') ==> rank(s) == rank(s'))
  }

  /** From `m` to `m'` the report of the id is the same, or has a higher rank. */
  predicate Climbs(rank: ActivityStatus -> nat, m: Statuses, m': Statuses, id: ActivityID) {
    SameReport(Lookup(m, id), Lookup(m', id)) || Rank(rank, m, id) < Rank(rank, m', id)
  }

  lemma {:induction false} WeightBound(rank: ActivityStatus -> nat, height: nat, m: Statuses, pendings: seq<Record>)
    requires RankOfReport(rank, height)
    ensures Weight(rank, m, pendings) <= |pendings| * height
  {
    if pendings != [] {
      WeightBound(rank, height, m, pendings[1..]);
      assert |pendings| * height == height + |pendings[1..]| * height;
    }
  }

  lemma ClimbingHead(rank: ActivityStatus -> nat, height: nat, m: Statuses, m': Statuses, id: ActivityID)
    requires RankOfReport(rank, height) && Climbs(rank, m, m', id)
    ensures Rank(rank, m, id) <= Rank(rank, m', id)
    ensures !SameReport(Lookup(m, id), Lookup(m', id)) ==> Rank(rank, m, id) < Rank(rank, m', id)
  {}

  lemma {:induction false} WeightClimbs(
    rank: ActivityStatus -> nat, height: nat, m: Statuses, m': Statuses, pendings: seq<Record>)
    requires RankOfReport(rank, height)
    requires forall i :: 0 <= i < |pendings| ==> Climbs(rank, m, m', pendings[i].id)
    ensures Weight(rank, m, pendings) <= Weight(rank, m', pendings) <= |pendings| * height
    ensures (exists i :: 0 <= i < |pendings| && !SameReport(Lookup(m, pendings[i].id), Lookup(m', pendings[i].id)))
            ==> Weight(rank, m, pendings) < Weight(rank, m', pendings)
  {
    WeightBound(rank, height, m', pendings);
    if pendings != [] {
      var tail := pendings[1..];
      forall i | 0 <= i < |tail| ensures Climbs(rank, m, m', tail[i].id) {
        assert tail[i] == pendings[i + 1];
      }
      WeightClimbs(rank, height, m, m', tail);
      ClimbingHead(rank, height, m, m', pendings[0].id);
      if i :| 0 <= i < |pendings| && !SameReport(Lookup(m, pendings[i].id), Lookup(m', pendings[i].id)) {
        if i > 0 { assert tail[i - 1] == pendings[i]; }
      }
    }
  }

  ghost predicate OnlyIdsOf(m: Statuses, pendings: seq<Record>) {
    forall id :: id in m ==> exists i :: 0 <= i < |pendings| && pendings[i].id == id
  }

  /** A round that does not end the loop gains weight. */
  lemma RoundGains(rank: ActivityStatus -> nat, height: nat, m: Statuses, m': Statuses, pendings: seq<Record>)
    requires RankOfReport(rank, height) && OnlyIdsOf(m, pendings) && OnlyIdsOf(m', pendings)
    requires forall i :: 0 <= i < |pendings| ==> Climbs(rank, m, m', pendings[i].id)
    requires !SameStatuses(m, m')
    ensures Weight(rank, m, pendings) < Weight(rank, m', pendings)
  {
    WeightClimbs(rank, height, m, m', pendings);
    var id :| id in m.Keys + m'.Keys && !SameReport(Lookup(m, id), Lookup(m', id));
  }

  // Polling the chain

  /** If a judgement made of three reads reports something, a later one reports the same. */
  predicate Repeated(c: Chain, a: Record, t0: nat, t1: nat, t2: nat, u0: nat, u1: nat, u2: nat) {
    t0 <= t1 <= t2 <= u0 <= u1 <= u2 && JudgeAt(c, a, t0, t1, t2).Some? ==>
      SameReport(JudgeAt(c, a, t0, t1, t2), JudgeAt(c, a, u0, u1, u2))
  }

  /** A poll that reports a final status is confirmed by every later poll, whatever happens in between. */
  ghost predicate StableFor(c: Chain, a: Record) {
    forall t0: nat, t1: nat, t2: nat, u0: nat, u1: nat, u2: nat :: Repeated(c, a, t0, t1, t2, u0, u1, u2)
  }

  ghost predicate StableReports(c: Chain, pendings: seq<Record>) {
    forall i :: 0 <= i < |pendings| ==> StableFor(c, pendings[i])
  }

  /**
   * Laws of the environment: mined nonce and clock never go back, and a
   * transaction once answered mined, failed or lost is always answered so. A
   * query that fails after such an answer is excluded, since it is answered
   * like an unconfirmed transaction.
   */
  ghost predicate Lawful(c: Chain) {
    && (forall t: nat, u: nat :: t <= u ==> c.minedNonce(t) <= c.minedNonce(u))
    && (forall t: nat, u: nat :: t <= u ==> c.clock(t) <= c.clock(u))
    && (forall t: nat, u: nat, h: nat :: t <= u && !c.txStatus(t, h).status.Unconfirmed? ==>
          c.txStatus(u, h).status == c.txStatus(t, h).status)
  }

  /** The activity is not stamped later than any clock read. */
  ghost predicate Begun(c: Chain, a: Record) { forall t: nat :: a.timestamp <= c.clock(t) }

  ghost predicate Settling(c: Chain, pendings: seq<Record>) {
    Lawful(c) && forall i :: 0 <= i < |pendings| ==> Begun(c, pendings[i])
  }

  predicate Polled(a: Record) { a.IsBlockchainPending() && a.OnChain() && HashOf(a) != 0 }

  /** The chain at one moment gives the failed verdict by nonce. */
  predicate Superseded(c: Chain, a: Record, t: nat) {
    && Polled(a) && c.txStatus(t, HashOf(a)).status.Unconfirmed?
    && a.action.SetRates? && a.nonce.Some? && a.nonce.value < c.minedNonce(t)
  }

  /** The transaction is lost, but not yet for long enough to be called failed. */
  predicate LostEarly(c: Chain, a: Record, t: nat) {
    c.txStatus(t, HashOf(a)).status.TxLost? && Elapsed(c.clock(t), a.timestamp) <= LOST_AFTER
  }

  /** How far a judgement is: waiting, superseded, lost early, final. Only the second and the last are reported. */
  function Phase(c: Chain, a: Record, t0: nat, t1: nat, t2: nat): nat {
    if !Polled(a) then 0
    else
      match c.txStatus(t1, HashOf(a)).status
      case Unconfirmed => if a.action.SetRates? && a.nonce.Some? && a.nonce.value < c.minedNonce(t0) then 1 else 0
      case TxLost => if Elapsed(c.clock(t2), a.timestamp) > LOST_AFTER then 3 else 2
      case _ => 3
  }

  /** Phases never go back, and a judgement changes only with its phase. */
  lemma PhaseClimbs(c: Chain, a: Record, t0: nat, t1: nat, t2: nat, u0: nat, u1: nat, u2: nat)
    requires Lawful(c) && Begun(c, a) && t0 <= u0 && t1 <= u1 && t2 <= u2
    ensures Phase(c, a, t0, t1, t2) <= Phase(c, a, u0, u1, u2) <= 3
    ensures Phase(c, a, t0, t1, t2) == Phase(c, a, u0, u1, u2) ==>
              SameReport(JudgeAt(c, a, t0, t1, t2), JudgeAt(c, a, u0, u1, u2))
  {
    assert c.minedNonce(t0) <= c.minedNonce(u0) && c.clock(t2) <= c.clock(u2);
    assert a.timestamp <= c.clock(t2);
  }

  /**
   * The exact condition for stable reports: a superseded transaction is later
   * neither mined nor lost early.
   */
  ghost predicate StaysSuperseded(c: Chain, a: Record) {
    forall t: nat, u: nat :: t <= u && Superseded(c, a, t) ==>
      !c.txStatus(u, HashOf(a)).status.TxMined? && !LostEarly(c, a, u)
  }

  lemma SupersededIsRepeated(c: Chain, a: Record, t0: nat, t1: nat, t2: nat, u0: nat, u1: nat, u2: nat)
    requires Lawful(c) && Begun(c, a) && StaysSuperseded(c, a)
    ensures Repeated(c, a, t0, t1, t2, u0, u1, u2)
  {
    if t0 <= t1 <= t2 <= u0 <= u1 <= u2 && JudgeAt(c, a, t0, t1, t2).Some? {
      PhaseClimbs(c, a, t0, t1, t2, u0, u1, u2);
      if c.txStatus(t1, HashOf(a)).status.Unconfirmed? {
        assert c.minedNonce(t0) <= c.minedNonce(t1);
        assert Superseded(c, a, t1);
        assert !LostEarly(c, a, u2) && !c.txStatus(u2, HashOf(a)).status.TxMined?;
        assert c.txStatus(u1, HashOf(a)).status.Unconfirmed? ||
               c.txStatus(u2, HashOf(a)).status == c.txStatus(u1, HashOf(a)).status;
      }
    }
  }

  lemma StableExactly(c: Chain, a: Record)
    requires Lawful(c) && Begun(c, a)
    ensures StableFor(c, a) <==> StaysSuperseded(c, a)
  {
    if StaysSuperseded(c, a) {
      forall t0: nat, t1: nat, t2: nat, u0: nat, u1: nat, u2: nat
        ensures Repeated(c, a, t0, t1, t2, u0, u1, u2)
      {
        SupersededIsRepeated(c, a, t0, t1, t2, u0, u1, u2);
      }
    }
    if StableFor(c, a) {
      forall t: nat, u: nat | t <= u && Superseded(c, a, t)
        ensures !c.txStatus(u, HashOf(a)).status.TxMined? && !LostEarly(c, a, u)
      {
        assert JudgeAt(c, a, t, t, t).Some?;
        assert Repeated(c, a, t, t, t, u, u, u);
      }
    }
  }

  /** The report that reading everything at the single moment `t` would give. */
  function Truth(c: Chain, a: Record, t: nat): Option<ActivityStatus> { JudgeAt(c, a, t, t, t) }

  const Reported: ActivityStatus -> nat := s => 1

  lemma ChainPollsClimb(c: Chain, pendings: seq<Record>, k: nat, k': nat)
    requires DistinctIds(pendings) && StableReports(c, pendings) && k + 2 * |pendings| < k'
    ensures forall i :: 0 <= i < |pendings| ==>
              Climbs(Reported, ChainStatuses(c, pendings, k), ChainStatuses(c, pendings, k'), pendings[i].id)
  {
    ChainReports(c, pendings, k, |pendings|);
    ChainReports(c, pendings, k', |pendings|);
    forall i | 0 <= i < |pendings|
      ensures Climbs(Reported, ChainStatuses(c, pendings, k), ChainStatuses(c, pendings, k'), pendings[i].id)
    {
      assert StableFor(c, pendings[i]);
      assert Repeated(c, pendings[i], k, k + 2 * i + 1, k + 2 * i + 2, k', k' + 2 * i + 1, k' + 2 * i + 2);
    }
  }

  /** A poll's report: the nonce is read at `k`, the transaction at `b` and the clock right after. */
  function ReportAt(c: Chain, a: Record, k: nat, b: nat): Option<ActivityStatus> { JudgeAt(c, a, k, b, b + 1) }

  /** Two equal judgements around a moment, each made of three reads, are the judgement of that moment. */
  ghost predicate Sandwiched(c: Chain, a: Record) {
    forall k: nat, b: nat, moment: nat, k': nat, b': nat ::
      (k <= b && b + 1 < moment < k' <= b' && SameReport(ReportAt(c, a, k, b), ReportAt(c, a, k', b')))
      ==> SameReport(ReportAt(c, a, k', b'), Truth(c, a, moment))
  }

  lemma StableIsSandwiched(c: Chain, a: Record)
    requires StableFor(c, a)
    ensures Sandwiched(c, a)
  {
    forall k: nat, b: nat, moment: nat, k': nat, b': nat |
      k <= b && b + 1 < moment < k' <= b' && SameReport(ReportAt(c, a, k, b), ReportAt(c, a, k', b'))
      ensures SameReport(ReportAt(c, a, k', b'), Truth(c, a, moment))
    {
      assert Repeated(c, a, k, b, b + 1, moment, moment, moment);
      assert Repeated(c, a, moment, moment, moment, k', b', b' + 1);
    }
  }

  /** A superseded transaction is not lost while it is still young. */
  ghost predicate NeverLostEarly(c: Chain, a: Record) {
    forall t: nat, u: nat :: t + 1 < u && Superseded(c, a, t) ==> !LostEarly(c, a, u)
  }

  lemma NeverLostEarlyIsSandwiched(c: Chain, a: Record)
    requires Lawful(c) && Begun(c, a) && NeverLostEarly(c, a)
    ensures Sandwiched(c, a)
  {
    forall k: nat, b: nat, moment: nat, k': nat, b': nat |
      k <= b && b + 1 < moment < k' <= b' && SameReport(ReportAt(c, a, k, b), ReportAt(c, a, k', b'))
      ensures SameReport(ReportAt(c, a, k', b'), Truth(c, a, moment))
    {
      SandwichByPhases(c, a, k, b, moment, k', b');
    }
  }

  lemma SandwichByPhases(c: Chain, a: Record, k: nat, b: nat, moment: nat, k': nat, b': nat)
    requires Lawful(c) && Begun(c, a) && NeverLostEarly(c, a) && k <= b && b + 1 < moment < k' <= b'
    requires SameReport(ReportAt(c, a, k, b), ReportAt(c, a, k', b'))
    ensures SameReport(ReportAt(c, a, k', b'), Truth(c, a, moment))
  {
    PhaseClimbs(c, a, k, b, b + 1, moment, moment, moment);
    PhaseClimbs(c, a, moment, moment, moment, k', b', b' + 1);
    if Phase(c, a, moment, moment, moment) == 1 {
      assert Superseded(c, a, moment);
      assert !LostEarly(c, a, b' + 1);
    } else if Phase(c, a, k, b, b + 1) == 1 {
      assert c.minedNonce(k) <= c.minedNonce(b);
      assert Superseded(c, a, b);
      assert !LostEarly(c, a, moment);
    }
  }

  ghost predicate Passes(c: Chain, n: nat) { exists t: nat :: c.clock(t) > n }

  ghost predicate ClockRuns(c: Chain) { forall n: nat :: Passes(c, n) }

  lemma LaterClock(c: Chain, u: nat, n: nat) returns (v: nat)
    requires Lawful(c) && ClockRuns(c)
    ensures u < v && c.clock(v) > n
  {
    assert Passes(c, n + c.clock(u));
    v :| c.clock(v) > n + c.clock(u);
    assert v <= u ==> c.clock(v) <= c.clock(u);
  }

  /**
   * The exact condition for the double check: what it says of an activity, a
   * report or its absence, is true of the moment between the polls if and only
   * if its transaction is not answered lost within 15 minutes after having been
   * superseded.
   */
  lemma SandwichExactly(c: Chain, a: Record)
    requires Lawful(c) && Begun(c, a) && ClockRuns(c)
    ensures Sandwiched(c, a) <==> NeverLostEarly(c, a)
  {
    if NeverLostEarly(c, a) {
      NeverLostEarlyIsSandwiched(c, a);
    } else {
      var t: nat, u: nat :| t + 1 < u && Superseded(c, a, t) && LostEarly(c, a, u);
      var v := LaterClock(c, u, a.timestamp + LOST_AFTER);
      assert c.minedNonce(t) <= c.minedNonce(v) && c.clock(v) <= c.clock(v + 1);
      assert c.txStatus(v, HashOf(a)).status == c.txStatus(u, HashOf(a)).status;
      assert Elapsed(c.clock(v + 1), a.timestamp) > LOST_AFTER;
      assert SameReport(ReportAt(c, a, t, t), ReportAt(c, a, v, v));
      assert !SameReport(ReportAt(c, a, v, v), Truth(c, a, u));
    }
  }

  lemma SameLookup(pre: Statuses, post: Statuses, id: ActivityID)
    requires SameStatuses(pre, post)
    ensures SameReport(Lookup(pre, id), Lookup(post, id))
  {}

  lemma ReportOf(c: Chain, pendings: seq<Record>, k: nat, i: nat)
    requires DistinctIds(pendings) && i < |pendings|
    ensures Lookup(ChainStatuses(c, pendings, k), pendings[i].id) ==
            JudgeAt(c, pendings[i], k, k + 2 * i + 1, k + 2 * i + 2)
  {
    ChainReports(c, pendings, k, |pendings|);
  }

  /** Two equal polls around a moment tell the truth of that moment, presence and absence alike. */
  lemma ChainSandwich(c: Chain, pendings: seq<Record>, k: nat, moment: nat, k': nat, i: nat)
    requires DistinctIds(pendings) && i < |pendings| && Sandwiched(c, pendings[i])
    requires k + 2 * |pendings| < moment < k'
    requires SameStatuses(ChainStatuses(c, pendings, k), ChainStatuses(c, pendings, k'))
    ensures SameReport(Lookup(ChainStatuses(c, pendings, k'), pendings[i].id), Truth(c, pendings[i], moment))
  {
    ReportOf(c, pendings, k, i);
    ReportOf(c, pendings, k', i);
    SameLookup(ChainStatuses(c, pendings, k), ChainStatuses(c, pendings, k'), pendings[i].id);
    SandwichAt(c, pendings[i], k, k + 2 * i + 1, moment, k', k' + 2 * i + 1);
  }

  lemma SandwichAt(c: Chain, a: Record, k: nat, b: nat, moment: nat, k': nat, b': nat)
    requires Sandwiched(c, a) && k <= b && b + 1 < moment < k' <= b'
    requires SameReport(ReportAt(c, a, k, b), ReportAt(c, a, k', b'))
    ensures SameReport(ReportAt(c, a, k', b'), Truth(c, a, moment))
  {}

  /** What is known of an activity's transaction suffices for the double check. */
  ghost predicate Checkable(c: Chain, a: Record) {
    StableFor(c, a) || (Lawful(c) && Begun(c, a) && NeverLostEarly(c, a))
  }

  /** Balances of one moment, and statuses, absences included, that hold at that moment. */
  ghost predicate TrueAt(
    c: Chain, pendings: seq<Record>, balances: Balances, statuses: Statuses, moment: nat)
  {
    && c.balances(moment) == Ok(balances) && OnlyIdsOf(statuses, pendings)
    && forall i :: 0 <= i < |pendings| && Checkable(c, pendings[i]) ==>
         SameReport(Lookup(statuses, pendings[i].id), Truth(c, pendings[i], moment))
  }

  /** The reports of a chain poll that started at `k`, weighed. */
  ghost function ChainWeight(c: Chain, pendings: seq<Record>, k: nat): nat {
    Weight(Reported, ChainStatuses(c, pendings, k), pendings)
  }

  lemma LaterChainWeight(c: Chain, pendings: seq<Record>, k: nat, k': nat)
    requires DistinctIds(pendings) && StableReports(c, pendings) && k + 2 * |pendings| < k'
    ensures ChainWeight(c, pendings, k) <= ChainWeight(c, pendings, k') <= |pendings|
    ensures !SameStatuses(ChainStatuses(c, pendings, k), ChainStatuses(c, pendings, k')) ==>
              ChainWeight(c, pendings, k) < ChainWeight(c, pendings, k')
  {
    ChainPollsClimb(c, pendings, k, k');
    WeightClimbs(Reported, 1, ChainStatuses(c, pendings, k), ChainStatuses(c, pendings, k'), pendings);
    ChainReports(c, pendings, k, |pendings|);
    ChainReports(c, pendings, k', |pendings|);
    if !SameStatuses(ChainStatuses(c, pendings, k), ChainStatuses(c, pendings, k')) {
      RoundGains(Reported, 1, ChainStatuses(c, pendings, k), ChainStatuses(c, pendings, k'), pendings);
    }
  }

  /** The phase of a record in a poll that started at `k`. */
  function PhaseIn(c: Chain, pendings: seq<Record>, k: nat, i: nat): nat
    requires i < |pendings|
  {
    Phase(c, pendings[i], k, k + 2 * i + 1, k + 2 * i + 2)
  }

  function PhaseSum(c: Chain, pendings: seq<Record>, k: nat, n: nat): nat
    requires n <= |pendings|
  {
    if n == 0 then 0 else PhaseSum(c, pendings, k, n - 1) + PhaseIn(c, pendings, k, n - 1)
  }

  lemma {:induction false} PhaseSumClimbs(c: Chain, pendings: seq<Record>, k: nat, k': nat, n: nat)
    requires n <= |pendings|
    requires forall i :: 0 <= i < |pendings| ==> PhaseIn(c, pendings, k, i) <= PhaseIn(c, pendings, k', i) <= 3
    ensures PhaseSum(c, pendings, k, n) <= PhaseSum(c, pendings, k', n) <= 3 * n
    ensures PhaseSum(c, pendings, k, n) == PhaseSum(c, pendings, k', n) ==>
              forall i :: 0 <= i < n ==> PhaseIn(c, pendings, k, i) == PhaseIn(c, pendings, k', i)
  {
    if n > 0 { PhaseSumClimbs(c, pendings, k, k', n - 1); }
  }

  lemma PhasesClimb(c: Chain, pendings: seq<Record>, k: nat, k': nat, i: nat)
    requires Settling(c, pendings) && i < |pendings| && k <= k'
    ensures PhaseIn(c, pendings, k, i) <= PhaseIn(c, pendings, k', i) <= 3
    ensures PhaseIn(c, pendings, k, i) == PhaseIn(c, pendings, k', i) ==>
              SameReport(JudgeAt(c, pendings[i], k, k + 2 * i + 1, k + 2 * i + 2),
                         JudgeAt(c, pendings[i], k', k' + 2 * i + 1, k' + 2 * i + 2))
  {
    PhaseClimbs(c, pendings[i], k, k + 2 * i + 1, k + 2 * i + 2, k', k' + 2 * i + 1, k' + 2 * i + 2);
  }

  lemma SamePhases(c: Chain, pendings: seq<Record>, k: nat, k': nat)
    requires DistinctIds(pendings) && Settling(c, pendings) && k <= k'
    requires forall i :: 0 <= i < |pendings| ==> PhaseIn(c, pendings, k, i) == PhaseIn(c, pendings, k', i)
    ensures SameStatuses(ChainStatuses(c, pendings, k), ChainStatuses(c, pendings, k'))
  {
    var pre, post := ChainStatuses(c, pendings, k), ChainStatuses(c, pendings, k');
    ChainReports(c, pendings, k, |pendings|);
    ChainReports(c, pendings, k', |pendings|);
    forall id | id in pre.Keys + post.Keys ensures id in pre && id in post && Same(pre[id], post[id]) {
      var i :| 0 <= i < |pendings| && pendings[i].id == id;
      PhasesClimb(c, pendings, k, k', i);
      assert SameReport(Lookup(pre, id), Lookup(post, id));
    }
  }

  lemma LaterPhases(c: Chain, pendings: seq<Record>, k: nat, k': nat)
    requires DistinctIds(pendings) && Settling(c, pendings) && k <= k'
    ensures PhaseSum(c, pendings, k, |pendings|) <= PhaseSum(c, pendings, k', |pendings|) <= 3 * |pendings|
    ensures !SameStatuses(ChainStatuses(c, pendings, k), ChainStatuses(c, pendings, k')) ==>
              PhaseSum(c, pendings, k, |pendings|) < PhaseSum(c, pendings, k', |pendings|)
  {
    forall i | 0 <= i < |pendings| ensures PhaseIn(c, pendings, k, i) <= PhaseIn(c, pendings, k', i) <= 3 {
      PhasesClimb(c, pendings, k, k', i);
    }
    PhaseSumClimbs(c, pendings, k, k', |pendings|);
    if PhaseSum(c, pendings, k, |pendings|) == PhaseSum(c, pendings, k', |pendings|) {
      SamePhases(c, pendings, k, k');
    }
  }

  /** The environment is lawful, or the reports are stable for some other reason. */
  ghost predicate Orderly(c: Chain, pendings: seq<Record>) { Settling(c, pendings) || StableReports(c, pendings) }

  /** How many different reports in a row an activity can have, less one. */
  ghost function Changes(c: Chain, pendings: seq<Record>): nat { if StableReports(c, pendings) then 1 else 3 }

  /** What grows with every round that does not end the loop. */
  ghost function Advance(c: Chain, pendings: seq<Record>, k: nat): nat {
    if StableReports(c, pendings) then ChainWeight(c, pendings, k) else PhaseSum(c, pendings, k, |pendings|)
  }

  lemma LaterAdvance(c: Chain, pendings: seq<Record>, k: nat, k': nat)
    requires DistinctIds(pendings) && Orderly(c, pendings) && k + 2 * |pendings| < k'
    ensures Advance(c, pendings, k) <= Advance(c, pendings, k') <= |pendings| * Changes(c, pendings)
    ensures !SameStatuses(ChainStatuses(c, pendings, k), ChainStatuses(c, pendings, k')) ==>
              Advance(c, pendings, k) < Advance(c, pendings, k')
  {
    if StableReports(c, pendings) { LaterChainWeight(c, pendings, k, k'); } else { LaterPhases(c, pendings, k, k'); }
  }

  type Polls = nat -> Statuses

  ghost predicate ClimbsBetween(poll: Polls, advance: nat -> nat, bound: nat, width: nat, k: nat, k': nat) {
    k + width <= k' ==>
      && advance(k) <= advance(k') <= bound
      && (SameStatuses(poll(k), poll(k')) || advance(k) < advance(k'))
  }

  /** A measure that never decreases from a poll to one after it, is bounded, and grows if they differ. */
  ghost predicate ClimbingPolls(poll: Polls, advance: nat -> nat, bound: nat, width: nat) {
    forall k: nat, k': nat :: ClimbsBetween(poll, advance, bound, width, k, k')
  }

  /** All polls from `next` on measure at least so much. */
  ghost predicate Ahead(advance: nat -> nat, next: nat, rounds: nat) {
    forall j: nat :: next <= j ==> rounds <= advance(j)
  }

  /** A round whose polls differ. */
  lemma DisagreedRound(
    poll: Polls, advance: nat -> nat, bound: nat, width: nat, k: nat, k': nat, next: nat, rounds: nat)
    requires ClimbingPolls(poll, advance, bound, width) && k + width <= k' && k' + width <= next
    requires Ahead(advance, k, rounds) && !SameStatuses(poll(k), poll(k'))
    ensures rounds + 1 <= bound && Ahead(advance, next, rounds + 1)
  {
    assert ClimbsBetween(poll, advance, bound, width, k, k');
    forall j: nat | next <= j ensures rounds + 1 <= advance(j) {
      assert ClimbsBetween(poll, advance, bound, width, k', j);
    }
  }

  lemma ChainPollsAdvance(c: Chain, pendings: seq<Record>)
    returns (poll: Polls, advance: nat -> nat, bound: nat)
    requires DistinctIds(pendings) && Orderly(c, pendings)
    ensures forall k: nat :: poll(k) == ChainStatuses(c, pendings, k)
    ensures ClimbingPolls(poll, advance, bound, 2 * |pendings| + 1) && bound == |pendings| * Changes(c, pendings)
  {
    poll, advance := (k: nat) => ChainStatuses(c, pendings, k), (k: nat) => Advance(c, pendings, k);
    bound := |pendings| * Changes(c, pendings);
    var width := 2 * |pendings| + 1;
    forall k: nat, k': nat ensures ClimbsBetween(poll, advance, bound, width, k, k') {
      if k + 2 * |pendings| + 1 <= k' { LaterAdvance(c, pendings, k, k'); }
    }
  }

  /** Balances and statuses that a round between two moments has read and found true. */
  ghost predicate ChainTold(
    c: Chain, pendings: seq<Record>, balances: Balances, statuses: Statuses, from: nat, to: nat)
  {
    exists moment: nat ::
      && from <= moment && moment + 2 * |pendings| + 1 < to
      && statuses == ChainStatuses(c, pendings, moment + 1)
      && TrueAt(c, pendings, balances, statuses, moment)
  }

  /** Or balances that could not be read, and no statuses. */
  ghost predicate ChainFailed(c: Chain, balances: Balances, statuses: Statuses, from: nat, to: nat) {
    statuses == map[] && balances == map[] && exists moment: nat :: from <= moment < to && c.balances(moment).Err?
  }

  lemma AgreedChainRound(
    c: Chain, pendings: seq<Record>, k: nat, moment: nat, again: nat, balances: Balances, statuses: Statuses)
    requires DistinctIds(pendings) && ChainMoments(pendings, k, moment, again)
    requires c.balances(moment) == Ok(balances) && statuses == ChainStatuses(c, pendings, again)
    requires SameStatuses(ChainStatuses(c, pendings, k), statuses)
    ensures TrueAt(c, pendings, balances, statuses, moment)
  {
    ChainReports(c, pendings, again, |pendings|);
    forall i | 0 <= i < |pendings| && Checkable(c, pendings[i])
      ensures SameReport(Lookup(statuses, pendings[i].id), Truth(c, pendings[i], moment))
    {
      CheckableIsSandwiched(c, pendings[i]);
      ChainSandwich(c, pendings, k, moment, again, i);
    }
  }

  lemma ToldByRound(
    c: Chain, pendings: seq<Record>, start: nat, k: nat, moment: nat, again: nat, next: nat,
    balances: Balances, statuses: Statuses)
    requires DistinctIds(pendings) && ChainMoments(pendings, k, moment, again)
    requires start <= k && next == again + 2 * |pendings| + 1
    requires c.balances(moment) == Ok(balances) && statuses == ChainStatuses(c, pendings, again)
    requires SameStatuses(ChainStatuses(c, pendings, k), statuses)
    ensures ChainTold(c, pendings, balances, statuses, start, next)
  {
    AgreedChainRound(c, pendings, k, moment, again, balances, statuses);
    assert start <= moment && moment + 2 * |pendings| + 1 < next && statuses == ChainStatuses(c, pendings, moment + 1);
  }

  lemma CheckableIsSandwiched(c: Chain, a: Record)
    requires Checkable(c, a)
    ensures Sandwiched(c, a)
  {
    if StableFor(c, a) { StableIsSandwiched(c, a); } else { NeverLostEarlyIsSandwiched(c, a); }
  }

  /** The moments of a round that starts at `k`: the balances are read after the first poll, right before the second. */
  ghost predicate ChainMoments(pendings: seq<Record>, k: nat, moment: nat, again: nat) {
    moment == k + 2 * |pendings| + 1 && again == moment + 1
  }

  /** One round of the loop: status, balance, and if that was answered status again and the comparison. */
  method ChainRound(c: Chain, pendings: seq<Record>, k: nat)
    returns (fetched: Result<Balances>, statuses: Statuses, same: bool, next: nat, ghost moment: nat, ghost again: nat)
    ensures ChainMoments(pendings, k, moment, again) && fetched == c.balances(moment)
    ensures fetched.Err? ==> next == again
    ensures fetched.Ok? ==>
              && next == again + 2 * |pendings| + 1 && statuses == ChainStatuses(c, pendings, again)
              && (same <==> SameStatuses(ChainStatuses(c, pendings, k), statuses))
  {
    var preStatuses;
    preStatuses, next := FetchStatusFromBlockchain(c, pendings, k);
    fetched := c.balances(next);
    moment, again, next := next, next + 1, next + 1;
    if fetched.Err? {
      return fetched, map[], false, next, moment, again;
    }
    statuses, next := FetchStatusFromBlockchain(c, pendings, next);
    same := Unchanged(preStatuses, statuses);
  }

  /** The loop of `FetchAuthDataFromBlockchain`: rounds until the polls agree; the last one starts at `k`. */
  method RepeatChainRounds(
    c: Chain, pendings: seq<Record>, start: nat, ghost poll: Polls, ghost advance: nat -> nat, ghost bound: nat)
    returns (fetched: Result<Balances>, statuses: Statuses, next: nat, rounds: nat,
             ghost k: nat, ghost moment: nat, ghost again: nat)
    requires ClimbingPolls(poll, advance, bound, 2 * |pendings| + 1)
    requires forall k: nat :: poll(k) == ChainStatuses(c, pendings, k)
    ensures rounds <= bound + 1 && start <= k
    ensures ChainMoments(pendings, k, moment, again) && fetched == c.balances(moment)
    ensures fetched.Err? ==> next == again
    ensures fetched.Ok? ==>
              && next == again + 2 * |pendings| + 1 && statuses == ChainStatuses(c, pendings, again)
              && SameStatuses(ChainStatuses(c, pendings, k), statuses)
  {
    next, rounds := start, 0;
    while true
      invariant start <= next && rounds <= bound
      invariant Ahead(advance, next, rounds)
      decreases bound - rounds
    {
      k := next;
      var same;
      fetched, statuses, same, next, moment, again := ChainRound(c, pendings, next);
      rounds := rounds + 1;
      if fetched.Err? || same {
        return;
      }
      assert poll(k) == ChainStatuses(c, pendings, k) && poll(again) == statuses;
      DisagreedRound(poll, advance, bound, 2 * |pendings| + 1, k, again, next, rounds - 1);
    }
  }

  /**
   * `FetchAuthDataFromBlockchain`: status, balance, status again, until the two
   * polls agree. In a lawful environment it takes at most 3n + 1 rounds, and
   * n + 1 rounds if reports are stable. What it returns of a checkable activity
   * is true of the moment at which the returned balances were read;
   * `SandwichExactly` tells which activities are.
   */
  method FetchAuthDataFromBlockchain(c: Chain, pendings: seq<Record>, start: nat)
    returns (ok: bool, balances: Balances, statuses: Statuses, next: nat, rounds: nat)
    requires DistinctIds(pendings) && Orderly(c, pendings)
    ensures start < next && rounds <= |pendings| * Changes(c, pendings) + 1
    ensures ok ==> ChainTold(c, pendings, balances, statuses, start, next)
    ensures !ok ==> ChainFailed(c, balances, statuses, start, next)
  {
    ghost var poll, advance, bound := ChainPollsAdvance(c, pendings);
    var fetched;
    ghost var k, moment, again;
    fetched, statuses, next, rounds, k, moment, again :=
      RepeatChainRounds(c, pendings, start, poll, advance, bound);
    ok := fetched.Ok?;
    if ok {
      balances := fetched.value;
      ToldByRound(c, pendings, start, k, moment, again, next, balances, statuses);
    } else {
      balances, statuses := map[], map[];
    }
  }

  // An environment in which the double check is wrong

  /** A set_rates transaction of nonce 5, and a chain that uses its nonce at moment 3 and loses it at moment 5. */
  const ReplacedTx := Record(
    SetRates, ActivityID(1, ""), "blockchain", "", Some(Tx(1)), Some(5), Some(1), "", 0, Blank, Submitted, 0)

  function NonceFrom3(t: nat): nat { if t >= 3 then 6 else 5 }

  function LostFrom5(t: nat, h: nat): TxAnswer { TxAnswer(if t >= 5 then TxLost else Unconfirmed, 0, None) }

  function LosingChain(): Chain { Chain(NonceFrom3, LostFrom5, (t: nat) => t, (t: nat) => Ok(map[])) }

  /**
   * Both polls around the balances read at moment 3 report nothing, although
   * the transaction is superseded at that moment.
   */
  lemma EarlyLossIsMissed()
    ensures var c := LosingChain();
            && Settling(c, [ReplacedTx]) && ClockRuns(c)
            && ChainStatuses(c, [ReplacedTx], 0) == ChainStatuses(c, [ReplacedTx], 4) == map[]
            && Truth(c, ReplacedTx, 3).Some?
  {
    var c := LosingChain();
    forall n: nat ensures Passes(c, n) { assert c.clock(n + 1) == n + 1; }
    assert JudgeAt(c, ReplacedTx, 0, 1, 2) == None && JudgeAt(c, ReplacedTx, 4, 5, 6) == None;
    ReportOf(c, [ReplacedTx], 0, 0);
    ReportOf(c, [ReplacedTx], 4, 0);
    ChainReports(c, [ReplacedTx], 0, 1);
    ChainReports(c, [ReplacedTx], 4, 1);
  }

  // Polling an exchange

  predicate Progress(rank: ActivityStatus -> nat, s: ActivityStatus, s': ActivityStatus) {
    Same(s, s') || rank(s) < rank(s')
  }

  /**
   * An exchange whose answers only progress: over time each answer stays the
   * same or climbs a ladder of `height` steps. With final statuses that never
   * change and one pending answer the height is 1; a withdrawal that first
   * shows its transaction and then completes has height 2.
   */
  ghost predicate Progressive(x: Exchange, pendings: seq<Record>, rank: ActivityStatus -> nat, height: nat) {
    RankOfReport(rank, height) && forall i :: 0 <= i < |pendings| ==> ProgressiveFor(x, pendings[i], rank)
  }

  ghost predicate ProgressiveFor(x: Exchange, a: Record, rank: ActivityStatus -> nat) {
    forall t: nat, u: nat :: t <= u && Ask(x, a, t).Some? && Ask(x, a, u).Some? ==>
                               Progress(rank, Ask(x, a, t).value, Ask(x, a, u).value)
  }

  lemma ExchangePollsClimb(
    x: Exchange, pendings: seq<Record>, rank: ActivityStatus -> nat, height: nat, k: nat, k': nat)
    requires DistinctIds(pendings) && Progressive(x, pendings, rank, height) && k + |pendings| <= k'
    ensures forall i :: 0 <= i < |pendings| ==>
              Climbs(rank, ExchangeStatuses(x, pendings, k), ExchangeStatuses(x, pendings, k'), pendings[i].id)
  {
    ExchangeReports(x, pendings, k, |pendings|);
    ExchangeReports(x, pendings, k', |pendings|);
    forall i | 0 <= i < |pendings|
      ensures Climbs(rank, ExchangeStatuses(x, pendings, k), ExchangeStatuses(x, pendings, k'), pendings[i].id)
    {
      assert ProgressiveFor(x, pendings[i], rank);
      assert Ask(x, pendings[i], k + i).Some? <==> Ask(x, pendings[i], k' + i).Some?;
    }
  }

  lemma AnswerSandwich(
    x: Exchange, a: Record, rank: ActivityStatus -> nat, height: nat, t: nat, moment: nat, u: nat)
    requires ProgressiveFor(x, a, rank) && RankOfReport(rank, height) && t <= moment <= u
    requires SameReport(Ask(x, a, t), Ask(x, a, u))
    ensures SameReport(Ask(x, a, u), Ask(x, a, moment))
  {
    var pre, now, post := Ask(x, a, t), Ask(x, a, moment), Ask(x, a, u);
    if pre.Some? { BetweenEqualReports(rank, height, pre.value, now.value, post.value); }
  }

  lemma AnswerOf(x: Exchange, pendings: seq<Record>, k: nat, i: nat)
    requires DistinctIds(pendings) && i < |pendings|
    ensures Lookup(ExchangeStatuses(x, pendings, k), pendings[i].id) == Ask(x, pendings[i], k + i)
  {
    ExchangeReports(x, pendings, k, |pendings|);
  }

  /** Two equal polls around a moment tell the truth of that moment. */
  lemma ExchangeSandwich(
    x: Exchange, pendings: seq<Record>, rank: ActivityStatus -> nat, height: nat,
    k: nat, moment: nat, k': nat, i: nat)
    requires DistinctIds(pendings) && Progressive(x, pendings, rank, height) && i < |pendings|
    requires k + |pendings| <= moment < k'
    requires SameStatuses(ExchangeStatuses(x, pendings, k), ExchangeStatuses(x, pendings, k'))
    ensures SameReport(Lookup(ExchangeStatuses(x, pendings, k'), pendings[i].id), Ask(x, pendings[i], moment))
  {
    AnswerOf(x, pendings, k, i);
    AnswerOf(x, pendings, k', i);
    SameLookup(ExchangeStatuses(x, pendings, k), ExchangeStatuses(x, pendings, k'), pendings[i].id);
    AnswerSandwich(x, pendings[i], rank, height, k + i, moment, k' + i);
  }

  lemma BetweenEqualReports(
    rank: ActivityStatus -> nat, height: nat, pre: ActivityStatus, now: ActivityStatus, post: ActivityStatus)
    requires RankOfReport(rank, height)
    requires Same(pre, post) && Progress(rank, pre, now) && Progress(rank, now, post)
    ensures Same(now, post)
  {
    assert rank(pre) == rank(post);
    assert Same(pre, now) ==> rank(pre) == rank(now);
  }

  ghost predicate AnsweredAt(
    x: Exchange, pendings: seq<Record>, balances: Balances, statuses: Statuses, moment: nat)
  {
    && x.balances(moment) == Ok(balances) && OnlyIdsOf(statuses, pendings)
    && forall i :: 0 <= i < |pendings| ==>
         SameReport(Lookup(statuses, pendings[i].id), Ask(x, pendings[i], moment))
  }

  ghost function ExchangeWeight(x: Exchange, pendings: seq<Record>, rank: ActivityStatus -> nat, k: nat): nat {
    Weight(rank, ExchangeStatuses(x, pendings, k), pendings)
  }

  lemma LaterExchangeWeight(
    x: Exchange, pendings: seq<Record>, rank: ActivityStatus -> nat, height: nat, k: nat, k': nat)
    requires DistinctIds(pendings) && Progressive(x, pendings, rank, height) && k + |pendings| <= k'
    ensures ExchangeWeight(x, pendings, rank, k) <= ExchangeWeight(x, pendings, rank, k') <= |pendings| * height
    ensures !SameStatuses(ExchangeStatuses(x, pendings, k), ExchangeStatuses(x, pendings, k')) ==>
              ExchangeWeight(x, pendings, rank, k) < ExchangeWeight(x, pendings, rank, k')
  {
    var pre, post := ExchangeStatuses(x, pendings, k), ExchangeStatuses(x, pendings, k');
    ExchangePollsClimb(x, pendings, rank, height, k, k');
    WeightClimbs(rank, height, pre, post, pendings);
    ExchangeReports(x, pendings, k, |pendings|);
    ExchangeReports(x, pendings, k', |pendings|);
    if !SameStatuses(pre, post) { RoundGains(rank, height, pre, post, pendings); }
  }

  /** Balances and statuses that a round between two moments has read and found true. */
  ghost predicate ExchangeTold(
    x: Exchange, pendings: seq<Record>, balances: Balances, statuses: Statuses, from: nat, to: nat)
  {
    exists moment: nat ::
      && from <= moment && moment + |pendings| < to
      && statuses == ExchangeStatuses(x, pendings, moment + 1)
      && AnsweredAt(x, pendings, balances, statuses, moment)
  }

  ghost predicate ExchangeFailed(x: Exchange, balances: Balances, statuses: Statuses, from: nat, to: nat) {
    statuses == map[] && balances == map[] && exists moment: nat :: from <= moment < to && x.balances(moment).Err?
  }

  lemma AgreedExchangeRound(
    x: Exchange, pendings: seq<Record>, rank: ActivityStatus -> nat, height: nat,
    k: nat, moment: nat, k': nat, balances: Balances)
    requires DistinctIds(pendings) && Progressive(x, pendings, rank, height)
    requires k + |pendings| <= moment < k' && x.balances(moment) == Ok(balances)
    requires SameStatuses(ExchangeStatuses(x, pendings, k), ExchangeStatuses(x, pendings, k'))
    ensures AnsweredAt(x, pendings, balances, ExchangeStatuses(x, pendings, k'), moment)
  {
    ExchangeReports(x, pendings, k', |pendings|);
    forall i | 0 <= i < |pendings|
      ensures SameReport(Lookup(ExchangeStatuses(x, pendings, k'), pendings[i].id), Ask(x, pendings[i], moment))
    {
      ExchangeSandwich(x, pendings, rank, height, k, moment, k', i);
    }
  }

  lemma AnsweredByRound(
    x: Exchange, pendings: seq<Record>, rank: ActivityStatus -> nat, height: nat,
    start: nat, k: nat, moment: nat, next: nat, balances: Balances, statuses: Statuses)
    requires DistinctIds(pendings) && Progressive(x, pendings, rank, height)
    requires start <= k && moment == k + |pendings| && next == moment + |pendings| + 1
    requires x.balances(moment) == Ok(balances) && statuses == ExchangeStatuses(x, pendings, moment + 1)
    requires SameStatuses(ExchangeStatuses(x, pendings, k), statuses)
    ensures ExchangeTold(x, pendings, balances, statuses, start, next)
  {
    AgreedExchangeRound(x, pendings, rank, height, k, moment, moment + 1, balances);
    assert start <= moment && moment + |pendings| < next;
  }

  lemma ExchangePollsAdvance(x: Exchange, pendings: seq<Record>, rank: ActivityStatus -> nat, height: nat)
    returns (poll: Polls, advance: nat -> nat, bound: nat)
    requires DistinctIds(pendings) && Progressive(x, pendings, rank, height)
    ensures forall k: nat :: poll(k) == ExchangeStatuses(x, pendings, k)
    ensures ClimbingPolls(poll, advance, bound, |pendings|) && bound == |pendings| * height
  {
    bound := |pendings| * height;
    poll, advance := (k: nat) => ExchangeStatuses(x, pendings, k), (k: nat) => ExchangeWeight(x, pendings, rank, k);
    forall k: nat, k': nat ensures ClimbsBetween(poll, advance, bound, |pendings|, k, k') {
      if k + |pendings| <= k' { LaterExchangeWeight(x, pendings, rank, height, k, k'); }
    }
  }

  /** The loop of `FetchAuthDataFromExchange`; the last round starts at `k`. */
  method RepeatExchangeRounds(
    x: Exchange, pendings: seq<Record>, start: nat, ghost poll: Polls, ghost advance: nat -> nat, ghost bound: nat)
    returns (fetched: Result<Balances>, statuses: Statuses, next: nat, rounds: nat, ghost k: nat)
    requires ClimbingPolls(poll, advance, bound, |pendings|)
    requires forall k: nat :: poll(k) == ExchangeStatuses(x, pendings, k)
    ensures rounds <= bound + 1 && start <= k
    ensures fetched == x.balances(k + |pendings|)
    ensures fetched.Err? ==> next == k + |pendings| + 1
    ensures fetched.Ok? ==>
              && next == k + 2 * |pendings| + 1
              && statuses == ExchangeStatuses(x, pendings, k + |pendings| + 1)
              && SameStatuses(ExchangeStatuses(x, pendings, k), statuses)
  {
    next, rounds := start, 0;
    while true
      invariant start <= next && rounds <= bound
      invariant Ahead(advance, next, rounds)
      decreases bound - rounds
    {
      k := next;
      var preStatuses;
      preStatuses, next := FetchStatusFromExchange(x, pendings, next);
      fetched := x.balances(next);
      next, rounds := next + 1, rounds + 1;
      if fetched.Err? {
        return fetched, map[], next, rounds, k;
      }
      statuses, next := FetchStatusFromExchange(x, pendings, next);
      var same := Unchanged(preStatuses, statuses);
      if same {
        return;
      }
      ghost var k' := k + |pendings| + 1;
      assert poll(k) == preStatuses && poll(k') == statuses;
      DisagreedRound(poll, advance, bound, |pendings|, k, k', next, rounds - 1);
    }
  }

  /**
   * `FetchAuthDataFromExchange`: the same loop against an exchange. It takes at
   * most one round per ladder step and activity, plus one.
   */
  method FetchAuthDataFromExchange(
    x: Exchange, pendings: seq<Record>, ghost rank: ActivityStatus -> nat, ghost height: nat, start: nat)
    returns (ok: bool, balances: Balances, statuses: Statuses, next: nat, rounds: nat)
    requires DistinctIds(pendings) && Progressive(x, pendings, rank, height)
    ensures start < next && rounds <= |pendings| * height + 1
    ensures ok ==> ExchangeTold(x, pendings, balances, statuses, start, next)
    ensures !ok ==> ExchangeFailed(x, balances, statuses, start, next)
  {
    ghost var poll, advance, bound := ExchangePollsAdvance(x, pendings, rank, height);
    var fetched;
    ghost var k;
    fetched, statuses, next, rounds, k :=
      RepeatExchangeRounds(x, pendings, start, poll, advance, bound);
    ok := fetched.Ok?;
    if ok {
      balances := fetched.value;
      AnsweredByRound(x, pendings, rank, height, start, k, k + |pendings|, next, balances, statuses);
    } else {
      balances, statuses := map[], map[];
    }
  }
}

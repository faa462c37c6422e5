/** Activity records and their pending predicates (common/types.go). */
module Activities {
  import opened Wrappers
  import opened ActivityIds

  datatype Action = Trade | Deposit | Withdraw | SetRates | OtherAction(name: string)

  datatype Status = Blank | Submitted | Pending | Failed | Mined | Done | OtherStatus(text: string)

  /** The `tx` text of a result: empty, or a transaction hash. */
  datatype TxRef = NoTx | Tx(hash: nat)

  /** An `ActivityRecord`, with the entries of `Params` and `Result` that the core reads back. */
  datatype Record = Record(
    action: Action,
    id: ActivityID,
    destination: string,
    token: string,
    tx: Option<TxRef>,
    nonce: Option<nat>,
    gasPrice: Option<int>,
    statusError: string,
    blockNumber: nat,
    exchangeStatus: Status,
    miningStatus: Status,
    timestamp: nat)
  {
    predicate IsExchangePending() {
      match action
      case Withdraw => (exchangeStatus.Blank? || exchangeStatus.Submitted?) && !miningStatus.Failed?
      case Deposit => (exchangeStatus.Blank? || exchangeStatus.Pending?) && !miningStatus.Failed?
      case Trade => exchangeStatus.Blank? || exchangeStatus.Submitted?
      case _ => true
    }

    predicate IsBlockchainPending() {
      match action
      case Withdraw | Deposit | SetRates =>
        (miningStatus.Blank? || miningStatus.Submitted?) && !exchangeStatus.Failed?
      case _ => true
    }

    predicate IsPending() {
      match action
      case Withdraw =>
        && (exchangeStatus.Blank? || exchangeStatus.Submitted? || miningStatus.Blank? || miningStatus.Submitted?)
        && !miningStatus.Failed? && !exchangeStatus.Failed?
      case Deposit =>
        && (exchangeStatus.Blank? || exchangeStatus.Pending? || miningStatus.Blank? || miningStatus.Submitted?)
        && !miningStatus.Failed? && !exchangeStatus.Failed?
      case Trade => (exchangeStatus.Blank? || exchangeStatus.Submitted?) && !exchangeStatus.Failed?
      case SetRates => (miningStatus.Blank? || miningStatus.Submitted?) && !exchangeStatus.Failed?
      case OtherAction(_) => true
    }

    /** The actions whose exchange status, respectively mining status, is ever polled. */
    predicate OnExchange() { action.Trade? || action.Deposit? || action.Withdraw? }

    predicate OnChain() { action.SetRates? || action.Deposit? || action.Withdraw? }
  }

  datatype ActivityStatus = ActivityStatus(
    exchangeStatus: Status,
    tx: TxRef,
    blockNumber: nat,
    miningStatus: Status,
    error: Option<string>)

  /** The three fields that `unchanged` compares. */
  predicate Same(a: ActivityStatus, b: ActivityStatus) {
    a.exchangeStatus == b.exchangeStatus && a.miningStatus == b.miningStatus && a.tx == b.tx
  }

  predicate SameReport(a: Option<ActivityStatus>, b: Option<ActivityStatus>) {
    match (a, b)
    case (None, None) => true
    case (Some(x), Some(y)) => Same(x, y)
    case _ => false
  }

  function ErrorText(e: Option<string>): string {
    if e.Some? then e.value else ""
  }

  /** The exchange half of the merge in `PersistSnapshot`. */
  function MergeExchange(r: Record, s: ActivityStatus): Record {
    r.(exchangeStatus := if r.IsExchangePending() then s.exchangeStatus else r.exchangeStatus,
       tx := if r.tx == Some(NoTx) then Some(s.tx) else r.tx,
       statusError := ErrorText(s.error))
  }

  /** The chain half of the merge; it sees the exchange status already merged. */
  function MergeChain(r: Record, s: ActivityStatus): Record {
    r.(miningStatus := if r.IsBlockchainPending() then s.miningStatus else r.miningStatus,
       statusError := ErrorText(s.error))
  }

  /** One record after `PersistSnapshot`; the block number is zero when the chain said nothing. */
  function Settle(r: Record, e: Option<ActivityStatus>, b: Option<ActivityStatus>): Record {
    var r1 := if e.Some? then MergeExchange(r, e.value) else r;
    var r2 := if b.Some? then MergeChain(r1, b.value) else r1;
    r2.(blockNumber := if b.Some? then b.value.blockNumber else 0)
  }

  /**
   * What the two status fetchers can produce for a record: an exchange entry
   * only for exchange actions, a chain entry only for chain actions, and then
   * a final mining status.
   */
  predicate Reportable(r: Record, e: Option<ActivityStatus>, b: Option<ActivityStatus>) {
    && (e.Some? ==> r.OnExchange() && r.IsExchangePending())
    && (b.Some? ==> r.OnChain() && r.IsBlockchainPending() &&
                    (b.value.miningStatus.Mined? || b.value.miningStatus.Failed?))
  }

  /** The parts of a record that polling never changes. */
  predicate SameSubject(r: Record, r': Record) {
    && r'.action == r.action && r'.id == r.id && r'.destination == r.destination
    && r'.token == r.token && r'.nonce == r.nonce && r'.gasPrice == r.gasPrice
    && r'.timestamp == r.timestamp
  }

  /**
   * `later` is a possible later version of `r`: a side that has left its
   * pending values is frozen, and a record that is not pending is frozen whole.
   */
  predicate Later(r: Record, later: Record) {
    && SameSubject(r, later)
    && (r.OnExchange() && !r.IsExchangePending() ==> later.exchangeStatus == r.exchangeStatus)
    && (r.OnChain() && !r.IsBlockchainPending() ==> later.miningStatus == r.miningStatus)
    && (!r.OnExchange() ==> later.exchangeStatus == r.exchangeStatus)
    && (!r.OnChain() ==> later.miningStatus == r.miningStatus)
    && (!r.IsPending() ==> later == r)
  }

  /** A frozen side stays frozen, so the relation composes over any number of ticks. */
  lemma LaterTransitive(a: Record, b: Record, c: Record)
    requires Later(a, b) && Later(b, c)
    ensures Later(a, c)
  {}

  /** Settling any pending record with fetched statuses gives a later version of it. */
  lemma SettleIsLater(r: Record, e: Option<ActivityStatus>, b: Option<ActivityStatus>)
    requires r.IsPending() && Reportable(r, e, b)
    ensures Later(r, Settle(r, e, b))
  {}

  /** When a recorded activity is settled, by its action and its two statuses. */
  lemma SettledExactly(r: Record)
    ensures r.action.Trade? ==> (!r.IsPending() <==> r.exchangeStatus != Blank && r.exchangeStatus != Submitted)
    ensures r.action.SetRates? ==>
              (!r.IsPending() <==>
               (r.miningStatus != Blank && r.miningStatus != Submitted) || r.exchangeStatus == Failed)
    ensures r.action.Deposit? ==>
              (!r.IsPending() <==>
               || r.miningStatus == Failed || r.exchangeStatus == Failed
               || (r.exchangeStatus != Blank && r.exchangeStatus != Pending &&
                   r.miningStatus != Blank && r.miningStatus != Submitted))
    ensures r.action.Withdraw? ==>
              (!r.IsPending() <==>
               || r.miningStatus == Failed || r.exchangeStatus == Failed
               || (r.exchangeStatus != Blank && r.exchangeStatus != Submitted &&
                   r.miningStatus != Blank && r.miningStatus != Submitted))
  {}

  /**
   * A pending side takes the reported status. The exchange side is pending
   * while its status is blank, submitted (for a deposit: pending) and the
   * transaction has not failed; the chain side while its status is blank or
   * submitted and the exchange side, after it took its own report, has not
   * failed. The transaction of a withdrawal is taken once, the error of the
   * last report, and the block from the chain's report.
   */
  lemma ReportIsTaken(r: Record, e: Option<ActivityStatus>, b: Option<ActivityStatus>)
    requires r.OnExchange() || r.OnChain()
    ensures var r' := Settle(r, e, b);
            && (e.Some? && r.action.Trade? && r.exchangeStatus in {Blank, Submitted} ==>
                  r'.exchangeStatus == e.value.exchangeStatus)
            && (e.Some? && r.action.Deposit? && r.exchangeStatus in {Blank, Pending} && r.miningStatus != Failed ==>
                  r'.exchangeStatus == e.value.exchangeStatus)
            && (e.Some? && r.action.Withdraw? && r.exchangeStatus in {Blank, Submitted} && r.miningStatus != Failed ==>
                  r'.exchangeStatus == e.value.exchangeStatus)
            && (b.Some? && r.OnChain() && r.miningStatus in {Blank, Submitted} && r'.exchangeStatus != Failed ==>
                  r'.miningStatus == b.value.miningStatus)
            && r'.blockNumber == (if b.Some? then b.value.blockNumber else 0)
            && r'.tx == (if e.Some? && r.tx == Some(NoTx) then Some(e.value.tx) else r.tx)
            && r'.statusError == (if b.Some? then ErrorText(b.value.error)
                                  else if e.Some? then ErrorText(e.value.error) else r.statusError)
  {}
}

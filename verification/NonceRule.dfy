/**
 * The nonce rule of `FetchStatusFromBlockchain` (data/fetcher/fetcher.go): a
 * set_rates transaction that is still unconfirmed although its nonce is below
 * the mined nonce is declared failed.
 */
module NonceRule {
  import opened Wrappers
  import opened ActivityIds
  import opened Activities
  import opened StatusPolling

  /** What the chain has included by each moment, and the nonce inside each transaction. */
  datatype Inclusion = Inclusion(included: (nat, nat) -> bool, nonceOf: nat -> nat)

  ghost predicate NonceUsed(ledger: Inclusion, t: nat, n: nat) {
    exists h: nat :: ledger.included(t, h) && ledger.nonceOf(h) == n
  }

  /**
   * Honest answers: inclusion only grows, a nonce is used by at most one
   * transaction ever, every nonce below the mined nonce is used, and a status
   * answered without an error says whether the transaction is included.
   */
  ghost predicate Honest(c: Chain, ledger: Inclusion) {
    && (forall t: nat, u: nat, h: nat :: t <= u && ledger.included(t, h) ==> ledger.included(u, h))
    && (forall t: nat, h: nat, h': nat ::
          ledger.included(t, h) && ledger.included(t, h') && ledger.nonceOf(h) == ledger.nonceOf(h') ==> h == h')
    && (forall t: nat, n: nat :: n < c.minedNonce(t) ==> NonceUsed(ledger, t, n))
    && (forall t: nat, h: nat :: c.txStatus(t, h).error.None? ==>
          (ledger.included(t, h) <==> c.txStatus(t, h).status.TxMined? || c.txStatus(t, h).status.TxFailed?))
  }

  ghost predicate NeverIncluded(ledger: Inclusion, h: nat) {
    forall t: nat :: !ledger.included(t, h)
  }

  /** The rule fires for `a` with the mined nonce read at `t0` and the status at `t1`. */
  predicate RuleFires(c: Chain, a: Record, t0: nat, t1: nat) {
    && a.action.SetRates? && a.nonce.Some? && HashOf(a) != 0
    && c.txStatus(t1, HashOf(a)).status.Unconfirmed? && a.nonce.value < c.minedNonce(t0)
  }

  /** Reading the nonce first makes the verdict final: the transaction is never included, before or after. */
  lemma NonceFirstIsSound(c: Chain, ledger: Inclusion, a: Record, t0: nat, t1: nat)
    requires Honest(c, ledger) && RuleFires(c, a, t0, t1) && ledger.nonceOf(HashOf(a)) == a.nonce.value
    requires t0 <= t1 && c.txStatus(t1, HashOf(a)).error.None?
    ensures NeverIncluded(ledger, HashOf(a))
  {
    var h := HashOf(a);
    assert NonceUsed(ledger, t0, a.nonce.value);
    var winner: nat :| ledger.included(t0, winner) && ledger.nonceOf(winner) == a.nonce.value;
    assert ledger.included(t1, winner) && !ledger.included(t1, h);
    forall t: nat ensures !ledger.included(t, h) {
      var later := if t < t1 then t1 else t;
      assert ledger.included(later, winner);
      assert !ledger.included(later, h);
    }
  }

  /**
   * Every poll, in every interleaving: a pending set_rates activity that is
   * reported failed on an unconfirmed status answered without error never has
   * its own transaction included.
   */
  lemma PollVerdictIsFinal(c: Chain, ledger: Inclusion, pendings: seq<Record>, k: nat, i: nat)
    requires Honest(c, ledger) && DistinctIds(pendings) && i < |pendings|
    requires var a := pendings[i];
             && a.action.SetRates? && a.nonce.Some? && ledger.nonceOf(HashOf(a)) == a.nonce.value
             && a.id in ChainStatuses(c, pendings, k)
             && ChainStatuses(c, pendings, k)[a.id].error.None?
    requires c.txStatus(k + 2 * i + 1, HashOf(pendings[i])).status.Unconfirmed?
    ensures ChainStatuses(c, pendings, k)[pendings[i].id].miningStatus.Failed?
    ensures NeverIncluded(ledger, HashOf(pendings[i]))
  {
    ChainReports(c, pendings, k, |pendings|);
    assert Lookup(ChainStatuses(c, pendings, k), pendings[i].id).Some?;
    NonceFirstIsSound(c, ledger, pendings[i], k, k + 2 * i + 1);
  }

  /** A set_rates transaction with hash 1 and nonce 0, included from moment 1 on. */
  const Example := Record(
    SetRates, ActivityID(1, ""), "blockchain", "", Some(Tx(1)), Some(0), Some(1), "", 0, Blank, Submitted, 0)

  const ExampleLedger := Inclusion((t: nat, h: nat) => h == 1 && t >= 1, (h: nat) => if h == 1 then 0 else h)

  function ExampleNonce(t: nat): nat { if t >= 1 then 1 else 0 }

  function ExampleStatus(failingAt: Option<nat>, t: nat, h: nat): TxAnswer {
    if failingAt == Some(t) then TxAnswer(Unconfirmed, 0, Some("timeout"))
    else if h == 1 && t >= 1 then TxAnswer(TxMined, 1, None)
    else TxAnswer(Unconfirmed, 0, None)
  }

  function ExampleChain(failingAt: Option<nat>): Chain {
    Chain(ExampleNonce, (t: nat, h: nat) => ExampleStatus(failingAt, t, h), (t: nat) => t, (t: nat) => Ok(map[]))
  }

  lemma ExampleIsHonest(failingAt: Option<nat>)
    ensures Honest(ExampleChain(failingAt), ExampleLedger)
  {
    var c := ExampleChain(failingAt);
    forall t: nat, n: nat | n < c.minedNonce(t) ensures NonceUsed(ExampleLedger, t, n) {
      assert c.minedNonce(t) == ExampleNonce(t);
      assert ExampleLedger.included(t, 1) && ExampleLedger.nonceOf(1) == n;
    }
  }

  /** Reading the status before the nonce would be unsound: the rule can fire on a transaction that is mined. */
  lemma StatusFirstIsUnsound()
    ensures var c := ExampleChain(None);
            && Honest(c, ExampleLedger) && RuleFires(c, Example, 1, 0)
            && c.txStatus(0, HashOf(Example)).error.None? && ExampleLedger.included(1, HashOf(Example))
  {
    ExampleIsHonest(None);
  }

  /** So is trusting an answer that came with an error: the poll reports the mined transaction as failed. */
  lemma ErroringAnswerIsUnsound()
    ensures var c := ExampleChain(Some(3));
            && Honest(c, ExampleLedger)
            && Example.id in ChainStatuses(c, [Example], 2)
            && ChainStatuses(c, [Example], 2)[Example.id].miningStatus.Failed?
            && ExampleLedger.included(2, HashOf(Example))
  {
    ExampleIsHonest(Some(3));
    ChainReports(ExampleChain(Some(3)), [Example], 2, 1);
    assert JudgeAt(ExampleChain(Some(3)), Example, 2, 3, 4).Some?;
    assert Lookup(ChainStatuses(ExampleChain(Some(3)), [Example], 2), [Example][0].id).Some?;
  }
}

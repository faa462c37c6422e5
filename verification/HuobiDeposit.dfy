/**
 * The two-hop Huobi deposit (exchange/huobi.go, exchange/huobi/bolt.go): once
 * the first transaction is mined, a second one forwards the funds to the
 * exchange. The second transaction is remembered in two buckets: a pending one
 * keyed by the whole id, and a permanent one keyed by `id.ToBytes()`, that is,
 * by the timepoint (`ActivityIds.KeyIsTimepoint`).
 */
module HuobiDeposit {
  import opened Wrappers
  import opened ActivityIds
  import opened Activities
  import opened StatusPolling
  import opened OrderedKeys

  datatype TxEntry = TxEntry(
    hash: nat, currency: string, miningStatus: string, exchangeStatus: string, amount: real, timestamp: nat)

  datatype Tracker = Tracker(pending: map<ActivityID, TxEntry>, permanent: map<nat, TxEntry>)

  datatype DepositEntry = DepositEntry(txHash: nat, state: string)

  /** A bolt write as its caller sees it: done, refused with an error, or lost with no error reported. */
  datatype Write = Written | Refused | LostSilently

  /**
   * What one `DepositStatus` call meets: the two transaction statuses, token
   * and address configuration, the outcome of sending, the deposit history,
   * whether the two buckets can be read, the outcomes of the writes, and the
   * clock. Removing from the pending bucket never reports an error, so it has
   * no `Refused` outcome.
   */
  datatype Observation = Observation(
    tx1: TxAnswer, tx2: TxAnswer, tokenKnown: bool, addressKnown: bool, sent: Option<nat>,
    history: Option<seq<DepositEntry>>, permanentRead: bool, pendingRead: bool, pendingWrite: Write, permanentWrite: Write, removed: bool, now: nat)

  datatype Answer = Answer(status: Status, failed: bool)

  /** The tracker after a call, the answer, and the hash of the second transaction if one was sent. */
  datatype Outcome = Outcome(tracker: Tracker, answer: Answer, sent: Option<nat>)

  /** The entry of a deposit: the permanent bucket first, then the pending one. */
  function Known(t: Tracker, id: ActivityID): Option<TxEntry> {
    if id.timepoint in t.permanent then Some(t.permanent[id.timepoint])
    else if id in t.pending then Some(t.pending[id])
    else None
  }

  /** `FindTx2`: a bucket that cannot be read is one without the entry. */
  function FindTx2(t: Tracker, id: ActivityID, o: Observation): Option<TxEntry> {
    if o.permanentRead && id.timepoint in t.permanent then Some(t.permanent[id.timepoint])
    else if o.pendingRead && id in t.pending then Some(t.pending[id])
    else None
  }

  function PutPending(t: Tracker, id: ActivityID, e: TxEntry, w: Write): Tracker {
    if w.Written? then t.(pending := t.pending[id := e]) else t
  }

  function PutPermanent(t: Tracker, id: ActivityID, e: TxEntry, w: Write): Tracker {
    if w.Written? then t.(permanent := t.permanent[id.timepoint := e]) else t
  }

  function RemovePending(t: Tracker, id: ActivityID, removed: bool): Tracker {
    if removed then t.(pending := t.pending - {id}) else t
  }

  /** The first deposit of the history that carries the hash decides. */
  function FirstDeposit(history: seq<DepositEntry>, hash: nat): Option<DepositEntry> {
    if history == [] then None
    else if history[0].txHash == hash then Some(history[0])
    else FirstDeposit(history[1..], hash)
  }

  predicate Confirmed(d: DepositEntry) { d.state == "safe" || d.state == "confirmed" }

  const Waiting := Answer(Blank, false)

  /** The part of `DepositStatus` that runs when no second transaction is known. */
  function FirstHop(t: Tracker, id: ActivityID, currency: string, amount: real, o: Observation): Outcome {
    if o.tx1.error.Some? || !o.tx1.status.TxMined? then Outcome(t, Waiting, None)
    else if !o.tokenKnown || !o.addressKnown then Outcome(t, Answer(Blank, true), None)
    else if o.sent.None? then Outcome(t, Waiting, None)
    else
      var e := TxEntry(o.sent.value, currency, "submitted", "", amount, o.now);
      Outcome(PutPending(t, id, e, o.pendingWrite), Waiting, o.sent)
  }

  /** Moving an entry to the permanent bucket; a refused write stops before the removal. */
  function Close(t: Tracker, id: ActivityID, e: TxEntry, o: Observation, verdict: Status): Outcome {
    if o.permanentWrite.Refused? then Outcome(t, Waiting, None)
    else Outcome(RemovePending(PutPermanent(t, id, e, o.permanentWrite), id, o.removed), Answer(verdict, false), None)
  }

  function Lost2nd(tx2: TxEntry, o: Observation): bool {
    o.tx2.error.None? && o.tx2.status.TxLost? && Elapsed(o.now, tx2.timestamp) > LOST_AFTER
  }

  function Confirmed2nd(tx2: TxEntry, o: Observation): bool {
    && o.tx2.error.None? && o.tx2.status.TxMined? && !o.pendingWrite.Refused? && o.history.Some?
    && var d := FirstDeposit(o.history.value, tx2.hash); d.Some? && Confirmed(d.value)
  }

  /** The part that runs when the second transaction is known. */
  function SecondHop(
    t: Tracker, id: ActivityID, tx2: TxEntry, currency: string, amount: real, o: Observation): Outcome
  {
    if o.tx2.error.Some? then Outcome(t, Answer(Blank, true), None)
    else
      match o.tx2.status
      case TxMined =>
        var t1 := PutPending(t, id, TxEntry(tx2.hash, currency, "mined", "", amount, o.now), o.pendingWrite);
        if Confirmed2nd(tx2, o)
        then Close(t1, id, TxEntry(tx2.hash, currency, "mined", "done", amount, o.now), o, Done)
        else Outcome(t1, Waiting, None)
      case TxFailed => Outcome(t, Answer(Failed, false), None)
      case TxLost =>
        if Lost2nd(tx2, o)
        then Close(t, id, TxEntry(tx2.hash, currency, "lost", "lost", amount, o.now), o, Failed)
        else Outcome(t, Waiting, None)
      case Unconfirmed => Outcome(t, Waiting, None)
  }

  function Poll(t: Tracker, id: ActivityID, currency: string, amount: real, o: Observation): Outcome {
    match FindTx2(t, id, o)
    case None => FirstHop(t, id, currency, amount, o)
    case Some(tx2) => SecondHop(t, id, tx2, currency, amount, o)
  }

  class Huobi {
    var pending: map<ActivityID, TxEntry>
    var permanent: map<nat, TxEntry>

    function State(): Tracker
      reads this
    {
      Tracker(pending, permanent)
    }

    constructor ()
      ensures State() == Tracker(map[], map[])
    {
      pending, permanent := map[], map[];
    }

    /** `FindTx2InPending`: walks the pending bucket and compares the ids. */
    method FindTx2InPending(id: ActivityID, readable: bool) returns (r: Option<TxEntry>)
      ensures r == if readable && id in pending then Some(pending[id]) else None
    {
      if !readable {
        return None;
      }
      var rest := pending.Keys;
      while rest != {}
        invariant rest <= pending.Keys && (id in pending ==> id in rest)
        decreases |rest|
      {
        var actID :| actID in rest;
        if actID == id {
          return Some(pending[actID]);
        }
        rest := rest - {actID};
      }
      r := None;
    }

    method StorePendingIntermediateTx(id: ActivityID, data: TxEntry, w: Write) returns (ok: bool)
      modifies this
      ensures State() == PutPending(old(State()), id, data, w) && ok == !w.Refused?
    {
      if w.Written? {
        pending := pending[id := data];
      }
      ok := !w.Refused?;
    }

    /** Stores in the permanent bucket, then drops the pending entry. */
    method CloseIntermediateTx(id: ActivityID, data: TxEntry, o: Observation) returns (ok: bool)
      modifies this
      ensures ok == !o.permanentWrite.Refused?
      ensures State() == if ok then
                           RemovePending(PutPermanent(old(State()), id, data, o.permanentWrite), id, o.removed)
                         else old(State())
    {
      if o.permanentWrite.Refused? {
        return false;
      }
      if o.permanentWrite.Written? {
        permanent := permanent[id.timepoint := data];
      }
      if o.removed {
        pending := pending - {id};
      }
      ok := true;
    }

    /** `DepositStatus`; `sent` is the second transaction, if this call sent one. */
    method DepositStatus(id: ActivityID, currency: string, amount: real, o: Observation)
      returns (answer: Answer, sent: Option<nat>)
      modifies this
      ensures Outcome(State(), answer, sent) == Poll(old(State()), id, currency, amount, o)
      ensures sent.Some? <==> && Unseen(old(State()), Call(id, currency, amount, o)) && FirstIsMined(o)
                              && o.tokenKnown && o.addressKnown && o.sent.Some?
    {
      SendsExactly(State(), Call(id, currency, amount, o));
      sent := None;
      var tx2: Option<TxEntry>;
      if o.permanentRead && id.timepoint in permanent {
        tx2 := Some(permanent[id.timepoint]);
      } else {
        tx2 := FindTx2InPending(id, o.pendingRead);
      }
      if tx2.None? {
        if o.tx1.error.Some? || !o.tx1.status.TxMined? {
          return Waiting, None;
        }
        if !o.tokenKnown || !o.addressKnown {
          return Answer(Blank, true), None;
        }
        if o.sent.None? {
          return Waiting, None;
        }
        var _ := StorePendingIntermediateTx(
          id, TxEntry(o.sent.value, currency, "submitted", "", amount, o.now), o.pendingWrite);
        return Waiting, o.sent;
      }
      var hash, since := tx2.value.hash, tx2.value.timestamp;
      if o.tx2.error.Some? {
        return Answer(Blank, true), None;
      }
      match o.tx2.status {
        case TxMined =>
          var stored := StorePendingIntermediateTx(
            id, TxEntry(hash, currency, "mined", "", amount, o.now), o.pendingWrite);
          if !stored || o.history.None? {
            return Waiting, None;
          }
          var deposits := o.history.value;
          var i := 0;
          while i < |deposits| && deposits[i].txHash != hash
            invariant i <= |deposits|
            invariant FirstDeposit(deposits, hash) == FirstDeposit(deposits[i..], hash)
          {
            i := i + 1;
          }
          if i < |deposits| && Confirmed(deposits[i]) {
            var closed := CloseIntermediateTx(id, TxEntry(hash, currency, "mined", "done", amount, o.now), o);
            return if closed then Answer(Done, false) else Waiting, None;
          }
          return Waiting, None;
        case TxFailed =>
          return Answer(Failed, false), None;
        case TxLost =>
          if Elapsed(o.now, since) > LOST_AFTER {
            var closed := CloseIntermediateTx(id, TxEntry(hash, currency, "lost", "lost", amount, o.now), o);
            return if closed then Answer(Failed, false) else Waiting, None;
          }
          return Waiting, None;
        case Unconfirmed =>
          return Waiting, None;
      }
    }
  }

  // Runs: any sequence of polls of any deposits

  datatype Call = Call(id: ActivityID, currency: string, amount: real, o: Observation)

  const Start := Tracker(map[], map[])

  function Step(t: Tracker, c: Call): Outcome { Poll(t, c.id, c.currency, c.amount, c.o) }

  function After(calls: seq<Call>): Tracker {
    if calls == [] then Start else Step(After(calls[..|calls| - 1]), calls[|calls| - 1]).tracker
  }

  /** The second transactions sent for one deposit over a run, in order. */
  function Sends(calls: seq<Call>, id: ActivityID): seq<nat> {
    if calls == [] then []
    else
      var init, c := calls[..|calls| - 1], calls[|calls| - 1];
      var sent := Step(After(init), c).sent;
      Sends(init, id) + (if c.id == id && sent.Some? then [sent.value] else [])
  }

  /**
   * The calls after which the second transaction is not known although one has
   * been sent: the first store failed, or the permanent write was lost without
   * an error and the pending entry was removed all the same.
   */
  predicate Forgets(t: Tracker, c: Call) {
    match FindTx2(t, c.id, c.o)
    case None => Known(t, c.id).None? && Step(t, c).sent.Some? && !c.o.pendingWrite.Written?
    case Some(tx2) =>
      && (Confirmed2nd(tx2, c.o) || Lost2nd(tx2, c.o))
      && c.o.permanentWrite.LostSilently? && c.o.removed && c.id.timepoint !in t.permanent
  }

  /** A call that sends although a second transaction is known, because it cannot be read. */
  predicate Overlooks(t: Tracker, c: Call) { Known(t, c.id).Some? && Step(t, c).sent.Some? }

  function Forgotten(calls: seq<Call>, id: ActivityID): nat {
    if calls == [] then 0
    else
      var init, c := calls[..|calls| - 1], calls[|calls| - 1];
      Forgotten(init, id) + if c.id == id && Forgets(After(init), c) then 1 else 0
  }

  function Overlooked(calls: seq<Call>, id: ActivityID): nat {
    if calls == [] then 0
    else
      var init, c := calls[..|calls| - 1], calls[|calls| - 1];
      Overlooked(init, id) + if c.id == id && Overlooks(After(init), c) then 1 else 0
  }

  /** Both buckets agree on the hash, and it is the one that was sent last. */
  ghost predicate Tracks(t: Tracker, id: ActivityID, sends: seq<nat>) {
    && (id in t.pending ==> sends != [] && t.pending[id].hash == sends[|sends| - 1])
    && (id.timepoint in t.permanent ==> sends != [] && t.permanent[id.timepoint].hash == sends[|sends| - 1])
  }

  /** A poll of another deposit, with another timepoint, changes nothing for this one. */
  lemma OtherPollsDoNotInterfere(t: Tracker, c: Call, id: ActivityID)
    requires c.id.timepoint != id.timepoint
    ensures var t' := Step(t, c).tracker;
            && (id in t'.pending <==> id in t.pending)
            && (id in t.pending ==> t'.pending[id] == t.pending[id])
            && (id.timepoint in t'.permanent <==> id.timepoint in t.permanent)
            && (id.timepoint in t.permanent ==> t'.permanent[id.timepoint] == t.permanent[id.timepoint])
  {}

  /** One poll of this deposit: what is known afterwards, and what has been sent. */
  lemma OwnPoll(t: Tracker, c: Call)
    ensures var r := Step(t, c);
            && (r.sent.Some? ==> FindTx2(t, c.id, c.o).None?)
            && (Known(r.tracker, c.id).Some? <==>
                (Known(t, c.id).Some? || r.sent.Some?) && !Forgets(t, c))
  {}

  lemma OwnPollTracks(t: Tracker, c: Call, sends: seq<nat>)
    requires Tracks(t, c.id, sends) && !Overlooks(t, c)
    ensures var r := Step(t, c);
            Tracks(r.tracker, c.id, if r.sent.Some? then sends + [r.sent.value] else sends)
  {
    var found := FindTx2(t, c.id, c.o);
    if found.Some? && c.o.tx2.error.None? {
      assert found.value.hash == sends[|sends| - 1];
    }
  }

  ghost predicate OneDeposit(calls: seq<Call>, id: ActivityID) {
    forall i :: 0 <= i < |calls| && calls[i].id.timepoint == id.timepoint ==> calls[i].id == id
  }

  /**
   * Exact account of the second transactions, over every sequence of polls and
   * every pattern of failing reads and writes: one is sent for each time the
   * previous one was forgotten or overlooked, plus one that is still known. If
   * none was overlooked, the tracked hash is the one sent last.
   */
  lemma {:induction false} SendsAccount(calls: seq<Call>, id: ActivityID)
    requires OneDeposit(calls, id)
    ensures |Sends(calls, id)| ==
            Forgotten(calls, id) + Overlooked(calls, id) + if Known(After(calls), id).Some? then 1 else 0
    ensures Overlooked(calls, id) == 0 ==> Tracks(After(calls), id, Sends(calls, id))
  {
    if calls != [] {
      var init, c := calls[..|calls| - 1], calls[|calls| - 1];
      assert forall i :: 0 <= i < |init| ==> init[i] == calls[i];
      SendsAccount(init, id);
      if c.id == id {
        OwnPoll(After(init), c);
        if Overlooked(calls, id) == 0 { OwnPollTracks(After(init), c, Sends(init, id)); }
      } else {
        OtherPollsDoNotInterfere(After(init), c, id);
      }
    }
  }

  ghost predicate StorageWorks(calls: seq<Call>) {
    forall i :: 0 <= i < |calls| ==>
      var o := calls[i].o;
      o.permanentRead && o.pendingRead && o.pendingWrite.Written? && o.permanentWrite.Written?
  }

  lemma {:induction false} NothingForgotten(calls: seq<Call>, id: ActivityID)
    requires StorageWorks(calls)
    ensures Forgotten(calls, id) == 0 && Overlooked(calls, id) == 0
  {
    if calls != [] {
      assert StorageWorks(calls[..|calls| - 1]);
      NothingForgotten(calls[..|calls| - 1], id);
    }
  }

  /**
   * At most once: with a storage that works each deposit sends at most one
   * second transaction, however often it is polled, and the tracked hash is
   * always that transaction's.
   */
  lemma AtMostOneSecondTransaction(calls: seq<Call>, id: ActivityID)
    requires OneDeposit(calls, id) && StorageWorks(calls)
    ensures |Sends(calls, id)| <= 1
    ensures Known(After(calls), id).Some? <==> |Sends(calls, id)| == 1
    ensures Known(After(calls), id).Some? ==> Known(After(calls), id).value.hash == Sends(calls, id)[0]
  {
    SendsAccount(calls, id);
    NothingForgotten(calls, id);
  }

  /**
   * "done" is answered only for a transaction that is mined and confirmed in
   * the exchange's history; its entry is then in the permanent bucket and, if
   * the removal was effective, no longer in the pending one.
   */
  lemma DoneMeansSettled(calls: seq<Call>, c: Call)
    requires OneDeposit(calls, c.id) && StorageWorks(calls + [c])
    requires Step(After(calls), c).answer.status.Done?
    ensures |Sends(calls, c.id)| == 1
    ensures var hash, t := Sends(calls, c.id)[0], Step(After(calls), c).tracker;
            && c.o.tx2.error.None? && c.o.tx2.status.TxMined?
            && (exists i :: && c.o.history.Some? && 0 <= i < |c.o.history.value|
                            && c.o.history.value[i].txHash == hash && Confirmed(c.o.history.value[i]))
            && c.id.timepoint in t.permanent && t.permanent[c.id.timepoint].hash == hash
            && t.permanent[c.id.timepoint].exchangeStatus == "done"
            && (c.o.removed ==> c.id !in t.pending)
  {
    var all := calls + [c];
    forall i | 0 <= i < |calls| ensures calls[i] == all[i] {}
    assert all[|calls|] == c;
    AtMostOneSecondTransaction(calls, c.id);
    FirstDepositIsFirst(c.o.history.value, Known(After(calls), c.id).value.hash);
  }

  // What one call does, whatever the run before it

  /** Neither bucket shows an entry of the deposit to this call. */
  predicate Unseen(t: Tracker, c: Call) {
    && !(c.o.permanentRead && c.id.timepoint in t.permanent)
    && !(c.o.pendingRead && c.id in t.pending)
  }

  /** The first transaction is answered mined, without an error. */
  predicate FirstIsMined(o: Observation) { o.tx1.error.None? && o.tx1.status.TxMined? }

  /**
   * A second transaction is sent if and only if none is seen, the first one is
   * mined, token and address are known, and sending succeeds; it is then noted
   * as submitted, if the note can be written.
   */
  lemma SendsExactly(t: Tracker, c: Call)
    ensures var r, o := Step(t, c), c.o;
            && (r.sent.Some? <==>
                Unseen(t, c) && FirstIsMined(o) && o.tokenKnown && o.addressKnown && o.sent.Some?)
            && (r.sent.Some? ==>
                  && r.sent == o.sent && r.answer == Answer(Blank, false)
                  && r.tracker.permanent == t.permanent
                  && r.tracker.pending ==
                     if o.pendingWrite.Written?
                     then t.pending[c.id := TxEntry(o.sent.value, c.currency, "submitted", "", c.amount, o.now)]
                     else t.pending)
  {}

  /** The entry that the call sees: the permanent one if it can be read, else the pending one. */
  function Seen(t: Tracker, c: Call): TxEntry
    requires !Unseen(t, c)
  {
    if c.o.permanentRead && c.id.timepoint in t.permanent then t.permanent[c.id.timepoint] else t.pending[c.id]
  }

  /** More than 15 minutes, as a difference of `uint64` milliseconds, which wraps if the clock is behind. */
  predicate Late(now: nat, since: nat) {
    if since <= now then now - since > 900000 else now - since + UINT64 > 900000
  }

  /** The first entry of the deposit history with that hash is safe or confirmed. */
  ghost predicate Arrived(o: Observation, hash: nat) {
    o.history.Some? &&
    exists i ::
      && 0 <= i < |o.history.value| && o.history.value[i].txHash == hash
      && (o.history.value[i].state == "safe" || o.history.value[i].state == "confirmed")
      && forall j :: 0 <= j < i ==> o.history.value[j].txHash != hash
  }

  lemma {:induction false} FirstDepositIsFirst(history: seq<DepositEntry>, hash: nat)
    ensures var d := FirstDeposit(history, hash);
            && (d.None? <==> forall i :: 0 <= i < |history| ==> history[i].txHash != hash)
            && (d.Some? ==> exists i :: && 0 <= i < |history| && history[i] == d.value && history[i].txHash == hash
                                        && forall j :: 0 <= j < i ==> history[j].txHash != hash)
  {
    if history != [] && history[0].txHash != hash {
      FirstDepositIsFirst(history[1..], hash);
      var d := FirstDeposit(history, hash);
      if d.Some? {
        var i :| 0 <= i < |history[1..]| && history[1..][i] == d.value && history[1..][i].txHash == hash
                 && forall j :: 0 <= j < i ==> history[1..][j].txHash != hash;
        assert history[i + 1] == d.value;
        forall j | 0 <= j < i + 1 ensures history[j].txHash != hash {
          if j > 0 { assert history[j] == history[1..][j - 1]; }
        }
      }
    }
  }

  lemma ConfirmedExactly(o: Observation, hash: nat)
    requires o.history.Some?
    ensures var d := FirstDeposit(o.history.value, hash); (d.Some? && Confirmed(d.value)) <==> Arrived(o, hash)
  {
    FirstDepositIsFirst(o.history.value, hash);
  }

  /**
   * The answer of a call: "done" exactly when the transaction seen is mined,
   * that is noted, it has arrived at the exchange, and it can be stored
   * permanently; "failed" exactly when it failed, or was lost too long ago and
   * can be stored permanently; an error exactly when its status is an error, or
   * when a first transaction is mined whose token or address is unknown.
   */
  lemma AnswersExactly(t: Tracker, c: Call)
    ensures var a, o := Step(t, c).answer, c.o;
            && (a.status.Done? <==>
                && !Unseen(t, c) && o.tx2.error.None? && o.tx2.status.TxMined? && !o.pendingWrite.Refused?
                && Arrived(o, Seen(t, c).hash) && !o.permanentWrite.Refused?)
            && (a.status.Failed? <==>
                && !Unseen(t, c) && o.tx2.error.None?
                && (|| o.tx2.status.TxFailed?
                    || (o.tx2.status.TxLost? && Late(o.now, Seen(t, c).timestamp) && !o.permanentWrite.Refused?)))
            && (a.failed <==>
                if Unseen(t, c) then FirstIsMined(o) && !(o.tokenKnown && o.addressKnown) else o.tx2.error.Some?)
            && (a.status.Done? || a.status.Failed? || a.status.Blank?)
  {
    if !Unseen(t, c) && c.o.history.Some? { ConfirmedExactly(c.o, Seen(t, c).hash); }
  }

  /** The buckets after an entry was put into the permanent one and removed from the pending one, as far as that worked. */
  function Moved(t: Tracker, c: Call, pending: map<ActivityID, TxEntry>, e: TxEntry): Tracker {
    Tracker(if c.o.removed then pending - {c.id} else pending,
            if c.o.permanentWrite.Written? then t.permanent[c.id.timepoint := e] else t.permanent)
  }

  /**
   * What a call that sees an entry writes. A mined transaction is noted as
   * mined; with "done" it is stored permanently as mined and done, with
   * "failed" for a lost one as lost, and leaves the pending bucket. Nothing
   * else is written.
   */
  lemma WritesExactly(t: Tracker, c: Call)
    requires !Unseen(t, c)
    ensures var r, o, hash := Step(t, c), c.o, Seen(t, c).hash;
            var noted := if o.pendingWrite.Written?
                         then t.pending[c.id := TxEntry(hash, c.currency, "mined", "", c.amount, o.now)] else t.pending;
            && r.sent.None?
            && r.tracker ==
               if r.answer.status.Done? then
                 Moved(t, c, noted, TxEntry(hash, c.currency, "mined", "done", c.amount, o.now))
               else if o.tx2.error.None? && o.tx2.status.TxMined? then t.(pending := noted)
               else if r.answer.status.Failed? && o.tx2.status.TxLost? then
                 Moved(t, c, t.pending, TxEntry(hash, c.currency, "lost", "lost", c.amount, o.now))
               else t
  {
    if c.o.history.Some? { ConfirmedExactly(c.o, Seen(t, c).hash); }
  }

  // Runs that send twice

  const Example := ActivityID(1, "a")

  function ExampleObservation(sent: Option<nat>, history: Option<seq<DepositEntry>>): Observation {
    var mined := TxAnswer(TxMined, 1, None);
    Observation(mined, mined, true, true, sent, history, true, true, Written, Written, true, 0)
  }

  function ExampleCall(o: Observation): Call { Call(Example, "ETH", 1.0, o) }

  lemma AfterOne(c: Call)
    ensures After([c]) == Step(Start, c).tracker
    ensures Sends([c], c.id) == if Step(Start, c).sent.Some? then [Step(Start, c).sent.value] else []
  {
    assert [c][..0] == [];
  }

  lemma AfterNext(calls: seq<Call>, c: Call)
    ensures After(calls + [c]) == Step(After(calls), c).tracker
    ensures Sends(calls + [c], c.id) ==
            Sends(calls, c.id) +
            (if Step(After(calls), c).sent.Some? then [Step(After(calls), c).sent.value] else [])
  {
    assert (calls + [c])[..|calls|] == calls;
  }

  /**
   * A permanent write that is lost without an error, all other operations
   * succeeding, makes the poll after "done" send again.
   */
  lemma LostWriteSendsTwice()
    ensures var send := (h: nat) => ExampleCall(ExampleObservation(Some(h), None));
            var done := ExampleCall(ExampleObservation(None, Some([DepositEntry(7, "safe")])).(permanentWrite := LostSilently));
            && Step(After([send(7)]), done).answer.status.Done?
            && Sends([send(7)] + [done] + [send(8)], Example) == [7, 8]
  {
    var send := (h: nat) => ExampleCall(ExampleObservation(Some(h), None));
    var done := ExampleCall(ExampleObservation(None, Some([DepositEntry(7, "safe")])).(permanentWrite := LostSilently));
    AfterOne(send(7));
    assert FirstDeposit([DepositEntry(7, "safe")], 7) == Some(DepositEntry(7, "safe"));
    AfterNext([send(7)], done);
    AfterNext([send(7)] + [done], send(8));
  }

  /** A pending bucket that cannot be read once, all writes succeeding, makes the deposit send again. */
  lemma FailedReadSendsTwice()
    ensures var send := (h: nat) => ExampleCall(ExampleObservation(Some(h), None));
            var blind := ExampleCall(ExampleObservation(Some(8), None).(pendingRead := false));
            Sends([send(7)] + [blind], Example) == [7, 8]
  {
    var send := (h: nat) => ExampleCall(ExampleObservation(Some(h), None));
    var blind := ExampleCall(ExampleObservation(Some(8), None).(pendingRead := false));
    AfterOne(send(7));
    AfterNext([send(7)], blind);
  }
}

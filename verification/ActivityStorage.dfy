/**
 * The activity bucket and the pending bucket (data/storage/bolt.go), keyed by
 * timepoint: `ActivityIds.KeyIsTimepoint` is why the timepoint stands for the
 * 64-byte key.
 */
module ActivityStorage {
  import opened Activities

  /** The two buckets as values. */
  datatype Store = Store(activities: map<nat, Record>, pending: map<nat, Record>)

  function PutRecord(s: Store, r: Record): Store {
    var k := r.id.timepoint;
    Store(s.activities[k := r], if r.IsPending() then s.pending[k := r] else s.pending)
  }

  function PutUpdate(s: Store, r: Record): Store {
    var k := r.id.timepoint;
    Store(s.activities[k := r],
          if k !in s.pending then s.pending
          else if r.IsPending() then s.pending[k := r]
          else s.pending - {k})
  }

  /** Both puts store the record under its timepoint and leave every other key as it was. */
  lemma PutsStore(s: Store, r: Record, k: nat)
    ensures var key := r.id.timepoint;
            && PutRecord(s, r).activities[key] == PutUpdate(s, r).activities[key] == r
            && (r.IsPending() ==> key in PutRecord(s, r).pending && PutRecord(s, r).pending[key] == r)
            && (r.IsPending() && key in s.pending ==> key in PutUpdate(s, r).pending && PutUpdate(s, r).pending[key] == r)
            && (!r.IsPending() ==> key !in PutUpdate(s, r).pending)
    ensures k != r.id.timepoint ==>
              forall s' :: s' == PutRecord(s, r) || s' == PutUpdate(s, r) ==>
                && (k in s'.activities <==> k in s.activities) && (k in s'.pending <==> k in s.pending)
                && (k in s.activities ==> s'.activities[k] == s.activities[k])
                && (k in s.pending ==> s'.pending[k] == s.pending[k])
  {}

  predicate KeyedById(m: map<nat, Record>) {
    forall k :: k in m ==> m[k].id.timepoint == k
  }

  /** The pending bucket is the activity bucket filtered by `IsPending`, contents included. */
  ghost predicate Agreement(s: Store) {
    && KeyedById(s.activities)
    && (forall k :: k in s.pending <==> k in s.activities && s.activities[k].IsPending())
    && (forall k :: k in s.pending ==> s.pending[k] == s.activities[k])
  }

  /** `Record` keeps the agreement exactly when it does not settle a key that is still pending. */
  lemma RecordAgreement(s: Store, r: Record)
    requires Agreement(s)
    ensures Agreement(PutRecord(s, r)) <==> r.IsPending() || r.id.timepoint !in s.pending
  {
    var s', k := PutRecord(s, r), r.id.timepoint;
    if !r.IsPending() && k in s.pending {
      assert k in s'.pending && !s'.activities[k].IsPending();
    } else {
      assert forall j :: j in s'.activities <==> j == k || j in s.activities;
    }
  }

  /** `UpdateActivity` keeps it exactly when it does not bring back a key that left the pending bucket. */
  lemma UpdateAgreement(s: Store, r: Record)
    requires Agreement(s)
    ensures Agreement(PutUpdate(s, r)) <==> !r.IsPending() || r.id.timepoint in s.pending
  {
    var s', k := PutUpdate(s, r), r.id.timepoint;
    if r.IsPending() && k !in s.pending {
      assert s'.activities[k].IsPending() && k !in s'.pending;
    } else {
      assert forall j :: j in s'.activities <==> j == k || j in s.activities;
    }
  }

  ghost function MaxKey(s: set<nat>): (k: nat)
    requires s != {}
    ensures k in s && forall j :: j in s ==> j <= k
  {
    var x :| x in s;
    if s == {x} then x
    else
      var k := MaxKey(s - {x});
      assert forall j :: j in s ==> j == x || j in s - {x};
      if k < x then x else k
  }

  ghost function MinKey(s: set<nat>): (k: nat)
    requires s != {}
    ensures k in s && forall j :: j in s ==> k <= j
  {
    var x :| x in s;
    if s == {x} then x
    else
      var k := MinKey(s - {x});
      assert forall j :: j in s ==> j == x || j in s - {x};
      if x < k then x else k
  }

  /** The records of a bucket, newest key first. */
  ghost function Descending(m: map<nat, Record>): (l: seq<Record>)
    decreases |m|
  {
    if m == map[] then []
    else
      var k := MaxKey(m.Keys);
      assert |(m - {k}).Keys| == |m.Keys - {k}| by { assert (m - {k}).Keys == m.Keys - {k}; }
      [m[k]] + Descending(m - {k})
  }

  predicate Holds(m: map<nat, Record>, r: Record) {
    r.id.timepoint in m && m[r.id.timepoint] == r
  }

  /** The listing holds the records of the bucket and nothing else. */
  lemma {:induction false} DescendingLists(m: map<nat, Record>, r: Record)
    requires KeyedById(m)
    ensures r in Descending(m) <==> Holds(m, r)
    decreases |m|
  {
    if m != map[] {
      var k := MaxKey(m.Keys);
      assert (m - {k}).Keys == m.Keys - {k};
      DescendingLists(m - {k}, r);
      assert Descending(m) == [m[k]] + Descending(m - {k});
    }
  }

  /** The keys of the listing strictly decrease, so no record is listed twice. */
  lemma {:induction false} DescendingOrder(m: map<nat, Record>, i: nat, j: nat)
    requires KeyedById(m) && i < j < |Descending(m)|
    ensures Descending(m)[i].id.timepoint > Descending(m)[j].id.timepoint
    decreases |m|
  {
    var k := MaxKey(m.Keys);
    var rest := m - {k};
    assert rest.Keys == m.Keys - {k};
    assert Descending(m) == [m[k]] + Descending(rest);
    if i > 0 {
      DescendingOrder(rest, i - 1, j - 1);
    } else {
      DescendingLists(rest, Descending(rest)[j - 1]);
    }
  }

  lemma DescendingAbove(m: map<nat, Record>, k: nat)
    requires k in m && forall j :: j in m ==> j <= k
    ensures Descending(m) == [m[k]] + Descending(m - {k})
  {
    assert MaxKey(m.Keys) == k;
  }

  /** Visiting the least of the remaining keys puts its record in front of the listing so far. */
  lemma NextListed(m: map<nat, Record>, rest: set<nat>, k: nat)
    requires k in rest && rest <= m.Keys && forall j :: j in m && j !in rest ==> j < k
    ensures Descending(m - (rest - {k})) == [m[k]] + Descending(m - rest)
  {
    var done := m - (rest - {k});
    assert done - {k} == m - rest;
    DescendingAbove(done, k);
  }

  predicate IsDepositTo(r: Record, token: string, exchange: string) {
    r.action.Deposit? && r.token == token && r.destination == exchange
  }

  ghost predicate HasPendingDepositTo(s: Store, token: string, exchange: string) {
    exists k :: k in s.pending && IsDepositTo(s.pending[k], token, exchange)
  }

  class BoltStorage {
    var activities: map<nat, Record>
    var pending: map<nat, Record>

    ghost function State(): Store
      reads this
    {
      Store(activities, pending)
    }

    constructor ()
      ensures State() == Store(map[], map[])
    {
      activities, pending := map[], map[];
    }

    /** `Record`: both puts are one transaction. */
    method Record(record: Record)
      modifies this
      ensures State() == PutRecord(old(State()), record)
    {
      var k := record.id.timepoint;
      activities := activities[k := record];
      if record.IsPending() {
        pending := pending[k := record];
      }
    }

    /** `UpdateActivity`: the pending bucket is touched only if it still holds the key. */
    method UpdateActivity(activity: Record)
      modifies this
      ensures State() == PutUpdate(old(State()), activity)
    {
      var k := activity.id.timepoint;
      if k in pending {
        pending := pending[k := activity];
        if !activity.IsPending() {
          pending := pending - {k};
        }
      }
      activities := activities[k := activity];
      assert k in old(pending) ==> old(pending)[k := activity] - {k} == old(pending) - {k};
    }

    /** `GetPendingActivities`: walks the cursor upwards and prepends. */
    method GetPendingActivities() returns (result: seq<Record>)
      ensures result == Descending(pending)
    {
      result := [];
      var rest := pending.Keys;
      while rest != {}
        invariant rest <= pending.Keys
        invariant forall k, j :: k in pending && k !in rest && j in rest ==> k < j
        invariant result == Descending(pending - rest)
        decreases |rest|
      {
        ghost var low := MinKey(rest);
        assert low in rest;
        var k :| k in rest && forall j :: j in rest ==> k <= j;
        NextListed(pending, rest, k);
        result := [pending[k]] + result;
        rest := rest - {k};
      }
      assert pending - rest == pending;
    }

    /** `HasPendingDeposit`: the loop visits every pending record. */
    method HasPendingDeposit(token: string, exchange: string) returns (result: bool)
      ensures result <==> HasPendingDepositTo(State(), token, exchange)
    {
      result := false;
      var rest := pending.Keys;
      while rest != {}
        invariant rest <= pending.Keys
        invariant result <==> exists k :: k in pending.Keys - rest && IsDepositTo(pending[k], token, exchange)
        decreases |rest|
      {
        var k :| k in rest;
        if IsDepositTo(pending[k], token, exchange) {
          result := true;
        }
        ghost var seen := pending.Keys - rest;
        rest := rest - {k};
        assert pending.Keys - rest == seen + {k};
      }
      assert pending.Keys - rest == pending.Keys;
    }
  }
}

/**
 * Versioned buckets (data/storage/bolt.go): looked up from the right, scanned
 * by time range and pruned from the left. bolt orders a bucket by its
 * big-endian keys; positions are computed here on the versions themselves,
 * which `ByteOrderIsVersionOrder` and `ByteSeekIsVersionSeek` justify.
 */
module VersionStore {
  import opened Wrappers
  import opened OrderedKeys

  const MAX_NUMBER_VERSION := 1000
  const MAX_GET_RATES_PERIOD := 86400000

  datatype Entry<+V> = Entry(version: nat, value: V)

  /** Keys as numbers, in increasing order. */
  ghost predicate Increasing<V>(b: seq<Entry<V>>) {
    && (forall i :: 0 <= i < |b| ==> b[i].version < UINT64)
    && (forall i, j :: 0 <= i < j < |b| ==> b[i].version < b[j].version)
  }

  /** `Cursor.Seek` on numbers: the first position whose version is not below `t`. */
  function SeekIndex<V>(b: seq<Entry<V>>, t: nat): (i: nat)
    ensures i <= |b|
    ensures forall j :: 0 <= j < i ==> b[j].version < t
    ensures i < |b| ==> t <= b[i].version
  {
    if b == [] || t <= b[0].version then 0 else 1 + SeekIndex(b[1..], t)
  }

  // What bolt does: the same on the encoded keys

  function Key<V>(e: Entry<V>): seq<byte> { BigEndian(e.version, 8) }

  /** What bolt maintains: keys in strict byte order. */
  ghost predicate ByteOrdered<V>(b: seq<Entry<V>>) {
    && (forall i :: 0 <= i < |b| ==> b[i].version < UINT64)
    && (forall i, j :: 0 <= i < j < |b| ==> Less(Key(b[i]), Key(b[j])))
  }

  /** `Cursor.Seek` on bytes: the first position whose key is not below `key`. */
  function ByteSeek<V>(b: seq<Entry<V>>, key: seq<byte>): (i: nat)
    ensures i <= |b|
  {
    if b == [] || !Less(Key(b[0]), key) then 0 else 1 + ByteSeek(b[1..], key)
  }

  /** A bucket in byte order is a bucket in version order. */
  lemma ByteOrderIsVersionOrder<V>(b: seq<Entry<V>>)
    ensures ByteOrdered(b) <==> Increasing(b)
  {
    forall i, j | 0 <= i < j < |b| && b[i].version < UINT64 && b[j].version < UINT64
      ensures Less(Key(b[i]), Key(b[j])) <==> b[i].version < b[j].version
    {
      Uint64Keys(b[i].version, b[j].version);
    }
  }

  /** Seeking the encoded timepoint is seeking the timepoint. */
  lemma {:induction false} ByteSeekIsVersionSeek<V>(b: seq<Entry<V>>, t: nat)
    requires t < UINT64 && forall i :: 0 <= i < |b| ==> b[i].version < UINT64
    ensures ByteSeek(b, BigEndian(t, 8)) == SeekIndex(b, t)
  {
    if b != [] {
      Uint64Keys(b[0].version, t);
      ByteSeekIsVersionSeek(b[1..], t);
    }
  }

  // Lookup and update

  /** `reverseSeek`, branch by branch; a cursor past the end steps back onto the last key. */
  function ReverseSeek<V>(b: seq<Entry<V>>, timepoint: nat): Result<nat> {
    var i := SeekIndex(b, timepoint);
    if i == |b| then
      if i == 0 then Err("There is no data before timepoint") else Ok(b[i - 1].version)
    else
      var v := b[i].version;
      if v == timepoint then Ok(v)
      else if i == 0 then Err("There is no data before timepoint")
      else Ok(b[i - 1].version)
  }

  ghost predicate HasVersion<V>(b: seq<Entry<V>>, v: nat) {
    exists j :: 0 <= j < |b| && b[j].version == v
  }

  /** The greatest stored version not above the timepoint, and an error exactly when there is none. */
  lemma ReverseSeekIsFloor<V>(b: seq<Entry<V>>, timepoint: nat)
    requires Increasing(b)
    ensures var r := ReverseSeek(b, timepoint);
            && (r.Err? <==> forall j :: 0 <= j < |b| ==> timepoint < b[j].version)
            && (r.Ok? ==> && HasVersion(b, r.value) && r.value <= timepoint
                          && forall j :: 0 <= j < |b| && b[j].version <= timepoint ==>
                                           b[j].version <= r.value)
  {
    var i := SeekIndex(b, timepoint);
    if 0 < i { assert b[i - 1].version < timepoint; }
  }

  function Splice<V>(b: seq<Entry<V>>, i: nat, rest: nat, e: Entry<V>): seq<Entry<V>>
    requires i <= rest <= |b|
  {
    b[..i] + [e] + b[rest..]
  }

  /** Replacing the part of an increasing bucket that is neither below nor above the new version. */
  lemma SpliceIncreases<V>(b: seq<Entry<V>>, i: nat, rest: nat, e: Entry<V>)
    requires Increasing(b) && e.version < UINT64 && i <= rest <= |b|
    requires forall j :: 0 <= j < i ==> b[j].version < e.version
    requires forall j :: rest <= j < |b| ==> e.version < b[j].version
    ensures Increasing(Splice(b, i, rest, e))
  {
    var r := Splice(b, i, rest, e);
    forall j | 0 <= j < |r|
      ensures r[j] == if j < i then b[j] else if j == i then e else b[rest + (j - i - 1)]
    {}
  }

  lemma SpliceHolds<V>(b: seq<Entry<V>>, i: nat, rest: nat, e: Entry<V>, x: Entry<V>)
    requires i <= rest <= |b|
    requires forall j :: 0 <= j < i || rest <= j < |b| ==> b[j].version != e.version
    requires forall j :: i <= j < rest ==> b[j].version == e.version
    ensures x in Splice(b, i, rest, e) <==> x == e || (x in b && x.version != e.version)
  {
    if x in b && x.version != e.version {
      var j :| 0 <= j < |b| && b[j] == x;
      if j < i { assert b[..i][j] == x; } else { assert b[rest..][j - rest] == x; }
    }
  }

  /** `Bucket.Put`: replace the entry of that key, or insert it in order. */
  function Insert<V>(b: seq<Entry<V>>, t: nat, v: V): seq<Entry<V>> {
    var i := SeekIndex(b, t);
    var rest := if i < |b| && b[i].version == t then i + 1 else i;
    Splice(b, i, rest, Entry(t, v))
  }

  /** Insertion keeps the order, stores the value, and leaves every other version as it was. */
  lemma InsertIsPut<V>(b: seq<Entry<V>>, t: nat, v: V)
    requires Increasing(b) && t < UINT64
    ensures Increasing(Insert(b, t, v))
    ensures forall e :: e in Insert(b, t, v) <==> e == Entry(t, v) || (e in b && e.version != t)
    ensures |b| <= |Insert(b, t, v)| <= |b| + 1
  {
    var i := SeekIndex(b, t);
    var rest := if i < |b| && b[i].version == t then i + 1 else i;
    SpliceIncreases(b, i, rest, Entry(t, v));
    forall e: Entry<V> ensures e in Insert(b, t, v) <==> e == Entry(t, v) || (e in b && e.version != t) {
      SpliceHolds(b, i, rest, Entry(t, v), e);
    }
  }

  /** Appending is what insertion does for a timepoint above every stored one. */
  lemma InsertAbove<V>(b: seq<Entry<V>>, t: nat, v: V)
    requires forall j :: 0 <= j < |b| ==> b[j].version < t
    ensures Insert(b, t, v) == b + [Entry(t, v)]
  {
    assert SeekIndex(b, t) == |b|;
  }

  /** What remains after pruning: the newest versions, one short of the cap. */
  function Newest<V>(b: seq<Entry<V>>): (r: seq<Entry<V>>)
    ensures |r| < MAX_NUMBER_VERSION && |r| <= |b|
    ensures |b| < MAX_NUMBER_VERSION ==> r == b
    ensures |b| >= MAX_NUMBER_VERSION ==> |r| == MAX_NUMBER_VERSION - 1
    ensures r == b[|b| - |r|..]
  {
    if |b| < MAX_NUMBER_VERSION then b else b[|b| - (MAX_NUMBER_VERSION - 1)..]
  }

  function InRange<V>(b: seq<Entry<V>>, from: nat, to: nat): seq<V> {
    if b == [] then []
    else (if from <= b[0].version <= to then [b[0].value] else []) + InRange(b[1..], from, to)
  }

  function Reversed<T>(s: seq<T>): (r: seq<T>)
    ensures |r| == |s|
    ensures forall i :: 0 <= i < |s| ==> r[i] == s[|s| - 1 - i]
  {
    if s == [] then [] else Reversed(s[1..]) + [s[0]]
  }

  lemma ReversedByIndex<T>(s: seq<T>, r: seq<T>)
    requires |r| == |s| && forall i :: 0 <= i < |r| ==> r[i] == s[|s| - 1 - i]
    ensures r == Reversed(s)
  {}

  /** Subtraction of two `uint64` values. */
  function Sub64(a: nat, b: nat): (r: nat)
    requires a < UINT64 && b < UINT64
    ensures r < UINT64
    ensures b <= a ==> r == a - b
  {
    if b <= a then a - b else a - b + UINT64
  }

  /** Addition of two `uint64` values. */
  function Add64(a: nat, b: nat): (r: nat)
    ensures r < UINT64
    ensures a + b < UINT64 ==> r == a + b
  {
    (a + b) % UINT64
  }

  class Bucket<V> {
    var entries: seq<Entry<V>>

    ghost predicate Valid()
      reads this
    {
      Increasing(entries)
    }

    constructor ()
      ensures Valid() && entries == []
    {
      entries := [];
    }

    method Put(timepoint: nat, value: V)
      requires Valid() && timepoint < UINT64
      modifies this
      ensures Valid() && entries == Insert(old(entries), timepoint, value)
    {
      InsertIsPut(entries, timepoint, value);
      entries := Insert(entries, timepoint, value);
    }

    /** `GetNumberOfVersion`: counts by walking the cursor. */
    method NumberOfVersion() returns (result: nat)
      ensures result == |entries|
    {
      result := 0;
      var position := 0;
      while position < |entries|
        invariant result == position <= |entries|
      {
        result := result + 1;
        position := position + 1;
      }
    }

    /** `PruneOutdatedData`: deletes the first key until the bucket is below the cap. */
    method PruneOutdatedData()
      requires Valid()
      modifies this
      ensures Valid() && entries == Newest(old(entries))
    {
      var count := NumberOfVersion();
      while count >= MAX_NUMBER_VERSION
        invariant Valid() && count == |entries|
        invariant |entries| <= |old(entries)| && entries == old(entries)[|old(entries)| - |entries|..]
        invariant |entries| >= |Newest(old(entries))|
        decreases |entries|
      {
        entries := entries[1..];
        count := NumberOfVersion();
      }
    }

    /** `StorePrice`: the cap holds after every call, even for a bucket that starts above it. */
    method StorePrice(data: V, timepoint: nat)
      requires Valid() && timepoint < UINT64
      modifies this
      ensures Valid() && |entries| <= MAX_NUMBER_VERSION
      ensures entries == Insert(Newest(old(entries)), timepoint, data)
    {
      PruneOutdatedData();
      InsertIsPut(entries, timepoint, data);
      Put(timepoint, data);
    }

    /** The cursor loop shared by the range queries: seek, then walk while the key is in range. */
    method Scan(from: nat, to: nat) returns (result: seq<V>)
      requires Valid() && from < UINT64 && to < UINT64
      ensures result == Reversed(InRange(entries, from, to))
    {
      var start := SeekIndex(entries, from);
      var position := start;
      result := [];
      while position < |entries| && entries[position].version <= to
        invariant start <= position <= |entries|
        invariant forall i :: start <= i < position ==> entries[i].version <= to
        invariant |result| == position - start
        invariant forall i :: 0 <= i < |result| ==> result[i] == entries[position - 1 - i].value
      {
        result := [entries[position].value] + result;
        position := position + 1;
      }
      SplitRange(entries, from, to, start, position);
      ReversedByIndex(InRange(entries, from, to), result);
    }

    /** `GetRates`: rejects a range longer than a day; `toTime-fromTime` wraps. */
    method GetRates(fromTime: nat, toTime: nat) returns (r: Result<seq<V>>)
      requires Valid() && fromTime < UINT64 && toTime < UINT64
      ensures r.Ok? <==> Sub64(toTime, fromTime) <= MAX_GET_RATES_PERIOD
      ensures r.Ok? ==> r.value == Reversed(InRange(entries, fromTime, toTime))
    {
      if Sub64(toTime, fromTime) > MAX_GET_RATES_PERIOD {
        return Err("Time range is too broad");
      }
      var result := Scan(fromTime, toTime);
      r := Ok(result);
    }

    /** `GetAllRecords`: a zero bound stands for the first or the last key of the bucket. */
    method GetAllRecords(fromTime: nat, toTime: nat) returns (r: Result<seq<V>>)
      requires Valid() && fromTime < UINT64 && toTime < UINT64
      ensures r.Ok? <==> Sub64(toTime, fromTime) / 1000000 <= MAX_GET_RATES_PERIOD
      ensures r.Ok? ==>
                r.value == Reversed(InRange(entries, fromTime, if toTime == 0 then UINT64 else toTime))
    {
      if Sub64(toTime, fromTime) / 1000000 > MAX_GET_RATES_PERIOD {
        return Err("Time range is too broad");
      }
      if |entries| == 0 {
        return Ok([]);
      }
      var min := if fromTime == 0 then entries[0].version else fromTime;
      var max := if toTime == 0 then entries[|entries| - 1].version else toTime;
      var result := Scan(min, max);
      RangeOfBounds(entries, fromTime, toTime);
      r := Ok(result);
    }
  }

  /** The entries between the sought position and the first one above `to` are the range. */
  lemma {:induction false} SplitRange<V>(b: seq<Entry<V>>, from: nat, to: nat, start: nat, position: nat)
    requires start <= position <= |b|
    requires forall i :: 0 <= i < start ==> b[i].version < from
    requires forall i :: start <= i < position ==> from <= b[i].version <= to
    requires forall i :: position <= i < |b| ==> to < b[i].version
    ensures |InRange(b, from, to)| == position - start
    ensures forall i :: 0 <= i < position - start ==> InRange(b, from, to)[i] == b[start + i].value
  {
    if b != [] {
      if start > 0 {
        SplitRange(b[1..], from, to, start - 1, position - 1);
      } else if position > 0 {
        SplitRange(b[1..], from, to, 0, position - 1);
      } else {
        SplitRange(b[1..], from, to, 0, 0);
      }
    }
  }

  lemma PrependParts<V>(h: seq<V>, a: seq<V>, b: seq<V>)
    ensures h + (a + b) == (h + a) + b
  {}

  lemma NoPrefix<V>(a: seq<V>)
    ensures [] + a == a
  {}

  /** Consecutive ranges concatenate. */
  lemma {:induction false} RangeSplit<V>(b: seq<Entry<V>>, from: nat, mid: nat, to: nat)
    requires Increasing(b) && from <= mid + 1 && mid <= to
    ensures InRange(b, from, to) == InRange(b, from, mid) + InRange(b, mid + 1, to)
  {
    if b != [] {
      var low, high := InRange(b[1..], from, mid), InRange(b[1..], mid + 1, to);
      RangeSplit(b[1..], from, mid, to);
      if mid < b[0].version {
        RangeIsEmpty(b, from, mid);
        RangeIsEmpty(b[1..], from, mid);
        NoPrefix(high);
        NoPrefix(InRange(b, mid + 1, to));
      } else {
        NoPrefix(high);
        PrependParts(if from <= b[0].version then [b[0].value] else [], low, high);
      }
    }
  }

  lemma {:induction false} RangeIsEmpty<V>(b: seq<Entry<V>>, from: nat, to: nat)
    requires forall i :: 0 <= i < |b| ==> !(from <= b[i].version <= to)
    ensures InRange(b, from, to) == []
  {
    if b != [] { RangeIsEmpty(b[1..], from, to); }
  }

  lemma {:induction false} RangeHolds<V>(b: seq<Entry<V>>, from: nat, to: nat, i: nat)
    requires i < |b| && from <= b[i].version <= to
    ensures b[i].value in InRange(b, from, to)
  {
    if i > 0 { RangeHolds(b[1..], from, to, i - 1); }
  }

  lemma {:induction false} RangeIsStored<V>(b: seq<Entry<V>>, from: nat, to: nat, v: V)
    requires v in InRange(b, from, to)
    ensures exists i :: 0 <= i < |b| && b[i].value == v && from <= b[i].version <= to
  {
    if !(from <= b[0].version <= to && b[0].value == v) {
      RangeIsStored(b[1..], from, to, v);
      var i :| 0 <= i < |b[1..]| && b[1..][i].value == v && from <= b[1..][i].version <= to;
      assert b[i + 1].value == v;
    }
  }

  lemma {:induction false} SameRange<V>(b: seq<Entry<V>>, from: nat, to: nat, from': nat, to': nat)
    requires forall i :: 0 <= i < |b| ==>
                           (from <= b[i].version <= to <==> from' <= b[i].version <= to')
    ensures InRange(b, from, to) == InRange(b, from', to')
  {
    if b != [] { SameRange(b[1..], from, to, from', to'); }
  }

  lemma RangeOfBounds<V>(b: seq<Entry<V>>, fromTime: nat, toTime: nat)
    requires Increasing(b) && b != []
    ensures InRange(b, if fromTime == 0 then b[0].version else fromTime,
                    if toTime == 0 then b[|b| - 1].version else toTime)
         == InRange(b, fromTime, if toTime == 0 then UINT64 else toTime)
  {
    SameRange(b, if fromTime == 0 then b[0].version else fromTime,
              if toTime == 0 then b[|b| - 1].version else toTime,
              fromTime, if toTime == 0 then UINT64 else toTime);
  }
}

/**
 * Activity identifiers (common/types.go): the decimal text form, and the
 * 64-byte bucket key.
 */
module ActivityIds {
  import opened Wrappers
  import opened OrderedKeys

  datatype ActivityID = ActivityID(timepoint: nat, eid: string)

  const SEPARATOR := '|'

  predicate IsDigit(c: char) { '0' <= c <= '9' }

  function Digit(d: nat): (c: char)
    requires d < 10
    ensures IsDigit(c)
  {
    '0' + d as char
  }

  function DigitValue(c: char): nat
    requires IsDigit(c)
  {
    c as int - '0' as int
  }

  /** `strconv.FormatUint(n, 10)`. */
  function FormatUint(n: nat): (s: string)
    ensures s != [] && forall i :: 0 <= i < |s| ==> IsDigit(s[i])
  {
    if n < 10 then [Digit(n)] else FormatUint(n / 10) + [Digit(n % 10)]
  }

  function Decimal(s: string): nat
    requires forall i :: 0 <= i < |s| ==> IsDigit(s[i])
  {
    if s == [] then 0 else Decimal(s[..|s| - 1]) * 10 + DigitValue(s[|s| - 1])
  }

  /** `strconv.ParseUint(s, 10, 64)`. */
  function ParseUint(s: string): Result<nat> {
    if s == [] || exists i :: 0 <= i < |s| && !IsDigit(s[i]) then Err("invalid syntax")
    else if Decimal(s) >= UINT64 then Err("value out of range")
    else Ok(Decimal(s))
  }

  lemma {:induction false} DecimalRoundTrip(n: nat)
    ensures Decimal(FormatUint(n)) == n
  {
    if n >= 10 {
      DecimalRoundTrip(n / 10);
      assert FormatUint(n)[..|FormatUint(n)| - 1] == FormatUint(n / 10);
    } else {
      assert FormatUint(n)[..0] == [];
    }
  }

  /** `strings.Split(s, "|")`. */
  function Split(s: string): (parts: seq<string>)
    ensures parts != []
  {
    if s == [] then [""]
    else if s[0] == SEPARATOR then [""] + Split(s[1..])
    else
      var rest := Split(s[1..]);
      [[s[0]] + rest[0]] + rest[1..]
  }

  /** `strings.Join(parts, "|")`. */
  function Join(parts: seq<string>): string {
    if parts == [] then ""
    else if |parts| == 1 then parts[0]
    else parts[0] + [SEPARATOR] + Join(parts[1..])
  }

  lemma {:induction false} JoinSplit(s: string)
    ensures Join(Split(s)) == s
  {
    if s != [] {
      JoinSplit(s[1..]);
      var rest := Split(s[1..]);
      if s[0] == SEPARATOR {
        assert Split(s)[1..] == rest;
      } else {
        assert Split(s)[1..] == rest[1..];
      }
    }
  }

  lemma {:induction false} SplitHead(head: string, tail: string)
    requires SEPARATOR !in head
    ensures Split(head + [SEPARATOR] + tail) == [head] + Split(tail)
  {
    var s := head + [SEPARATOR] + tail;
    if head == [] {
      assert s[1..] == tail;
    } else {
      SplitHead(head[1..], tail);
      assert s[1..] == head[1..] + [SEPARATOR] + tail;
      assert s[0] == head[0];
      assert [head[0]] + head[1..] == head;
    }
  }

  /** `ActivityID.MarshalText`. */
  function Marshal(id: ActivityID): string {
    FormatUint(id.timepoint) + [SEPARATOR] + id.eid
  }

  /** `StringToActivityID`. */
  function Unmarshal(text: string): Result<ActivityID> {
    var parts := Split(text);
    if |parts| < 2 then Err("Invalid activity id")
    else
      match ParseUint(parts[0])
      case Err(e) => Err(e)
      case Ok(timepoint) => Ok(ActivityID(timepoint, Join(parts[1..])))
  }

  /** Printing then parsing gives the id back, whatever the EID contains. */
  lemma MarshalRoundTrip(id: ActivityID)
    requires id.timepoint < UINT64
    ensures Unmarshal(Marshal(id)) == Ok(id)
  {
    var time := FormatUint(id.timepoint);
    SplitHead(time, id.eid);
    JoinSplit(id.eid);
    DecimalRoundTrip(id.timepoint);
    assert Split(Marshal(id))[1..] == Split(id.eid);
  }

  lemma {:induction false} SplitAtFirst(s: string, i: nat)
    requires i < |s| && s[i] == SEPARATOR && SEPARATOR !in s[..i]
    ensures Split(s) == [s[..i]] + Split(s[i + 1..])
  {
    SplitHead(s[..i], s[i + 1..]);
    assert s == s[..i] + [SEPARATOR] + s[i + 1..];
  }

  lemma {:induction false} SplitWithout(s: string)
    requires SEPARATOR !in s
    ensures Split(s) == [s]
  {
    if s != [] {
      SplitWithout(s[1..]);
      assert [s[0]] + s[1..] == s;
    }
  }

  /**
   * Exactly the accepted texts: some prefix up to the first separator is a
   * uint64 in decimal. What is accepted is split there and nowhere else.
   */
  lemma UnmarshalAccepts(text: string, i: nat)
    requires i <= |text| && SEPARATOR !in text[..i]
    requires i < |text| ==> text[i] == SEPARATOR
    ensures Unmarshal(text).Ok? <==> i < |text| && ParseUint(text[..i]).Ok?
    ensures Unmarshal(text).Ok? ==>
              Unmarshal(text).value == ActivityID(ParseUint(text[..i]).value, text[i + 1..])
  {
    if i < |text| {
      SplitAtFirst(text, i);
      JoinSplit(text[i + 1..]);
      assert Split(text)[1..] == Split(text[i + 1..]);
    } else {
      assert text[..i] == text;
      SplitWithout(text);
    }
  }

  function EidBytes(eid: string): seq<byte> {
    seq(|eid|, i requires 0 <= i < |eid| => (eid[i] as int) % 256)
  }

  /**
   * `ActivityID.ToBytes`: the EID is appended to a buffer that is already 64
   * bytes long and then cut off by the copy into a 64-byte array.
   */
  function ToBytes(id: ActivityID): (b: seq<byte>)
    ensures |b| == 64
  {
    var temp := BigEndian(id.timepoint, 8) + seq(56, i => 0 as byte);
    (temp + EidBytes(id.eid))[..64]
  }

  lemma {:induction false} LessWithSuffix(a: seq<byte>, b: seq<byte>, z: seq<byte>)
    requires |a| == |b|
    ensures Less(a + z, b + z) <==> Less(a, b)
  {
    if a == [] {
      LessIrreflexive(z);
      assert a + z == z && b + z == z;
    } else {
      assert (a + z)[1..] == a[1..] + z && (b + z)[1..] == b[1..] + z;
      LessWithSuffix(a[1..], b[1..], z);
    }
  }

  /**
   * Two activities share a bucket key exactly when they share a timepoint,
   * and the bucket order is the order of the timepoints.
   */
  lemma KeyIsTimepoint(x: ActivityID, y: ActivityID)
    requires x.timepoint < UINT64 && y.timepoint < UINT64
    ensures ToBytes(x) == ToBytes(y) <==> x.timepoint == y.timepoint
    ensures Less(ToBytes(x), ToBytes(y)) <==> x.timepoint < y.timepoint
  {
    Uint64Keys(x.timepoint, y.timepoint);
    var zeros := seq(56, i => 0 as byte);
    var kx, ky := BigEndian(x.timepoint, 8), BigEndian(y.timepoint, 8);
    assert ToBytes(x) == kx + zeros && ToBytes(y) == ky + zeros;
    LessWithSuffix(kx, ky, zeros);
    if ToBytes(x) == ToBytes(y) {
      assert kx == ToBytes(x)[..8] == ToBytes(y)[..8] == ky;
    }
  }
}

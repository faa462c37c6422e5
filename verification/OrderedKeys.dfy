/**
 * Big-endian keys (data/storage/bolt.go, common/types.go).
 *
 * Every bucket is ordered by `bytes.Compare` on keys written with
 * `binary.BigEndian.PutUint64`. The results here let the other modules
 * reason about keys as numbers.
 */
module OrderedKeys {
  const UINT64 := 0x1_0000_0000_0000_0000

  type byte = x: int | 0 <= x < 256

  function Pow256(w: nat): (p: nat)
    ensures p > 0
  {
    if w == 0 then 1 else 256 * Pow256(w - 1)
  }

  /** `binary.BigEndian.PutUint64` for a buffer of `w` bytes. */
  function BigEndian(u: nat, w: nat): (b: seq<byte>)
    ensures |b| == w
  {
    if w == 0 then [] else BigEndian(u / 256, w - 1) + [u % 256]
  }

  /** `binary.BigEndian.Uint64`. */
  function FromBigEndian(b: seq<byte>): nat {
    if b == [] then 0 else FromBigEndian(b[..|b| - 1]) * 256 + b[|b| - 1]
  }

  /** `bytes.Compare(a, b) < 0`. */
  predicate Less(a: seq<byte>, b: seq<byte>) {
    b != [] && (a == [] || a[0] < b[0] || (a[0] == b[0] && Less(a[1..], b[1..])))
  }

  lemma {:induction false} RoundTrip(u: nat, w: nat)
    requires u < Pow256(w)
    ensures FromBigEndian(BigEndian(u, w)) == u
  {
    if w > 0 {
      RoundTrip(u / 256, w - 1);
      assert BigEndian(u, w)[..w - 1] == BigEndian(u / 256, w - 1);
    }
  }

  /** Lexicographic order compares the leading bytes first and the last byte only on a tie. */
  lemma {:induction false} LessBySuffix(a: seq<byte>, x: byte, b: seq<byte>, y: byte)
    requires |a| == |b|
    ensures Less(a + [x], b + [y]) <==> Less(a, b) || (a == b && x < y)
  {
    if a == [] {
      assert (a + [x])[1..] == [] && (b + [y])[1..] == [];
    } else {
      LessBySuffix(a[1..], x, b[1..], y);
      assert (a + [x])[1..] == a[1..] + [x];
      assert (b + [y])[1..] == b[1..] + [y];
      assert a == b <==> a[0] == b[0] && a[1..] == b[1..] by {
        assert a == [a[0]] + a[1..] && b == [b[0]] + b[1..];
      }
    }
  }

  lemma {:induction false} LessIrreflexive(a: seq<byte>)
    ensures !Less(a, a)
  {
    if a != [] { LessIrreflexive(a[1..]); }
  }

  /** Comparing the bytes is comparing the numbers, in both directions. */
  lemma {:induction false} OrderPreserved(u: nat, v: nat, w: nat)
    requires u < Pow256(w) && v < Pow256(w)
    ensures Less(BigEndian(u, w), BigEndian(v, w)) <==> u < v
    ensures BigEndian(u, w) == BigEndian(v, w) <==> u == v
  {
    RoundTrip(u, w);
    RoundTrip(v, w);
    if w > 0 {
      OrderPreserved(u / 256, v / 256, w - 1);
      LessBySuffix(BigEndian(u / 256, w - 1), u % 256, BigEndian(v / 256, w - 1), v % 256);
    }
  }

  lemma Uint64Fits(u: nat)
    requires u < UINT64
    ensures u < Pow256(8)
  {
    assert Pow256(4) == 0x1_0000_0000;
    assert Pow256(8) == UINT64;
  }

  /** The 8-byte form used by every version bucket. */
  lemma Uint64Keys(u: nat, v: nat)
    requires u < UINT64 && v < UINT64
    ensures FromBigEndian(BigEndian(u, 8)) == u
    ensures Less(BigEndian(u, 8), BigEndian(v, 8)) <==> u < v
    ensures BigEndian(u, 8) == BigEndian(v, 8) <==> u == v
  {
    Uint64Fits(u);
    Uint64Fits(v);
    RoundTrip(u, 8);
    OrderPreserved(u, v, 8);
  }
}

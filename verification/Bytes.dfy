/** Byte strings in their lexicographic order, and fixed-width big-endian numbers. */
module Bytes {
  type Byte = b: nat | b < 256
  type Bytes = seq<Byte>

  /** Strictly before in byte order; a proper prefix comes first. */
  predicate Before(a: Bytes, b: Bytes) {
    b != [] && (a == [] || a[0] < b[0] || (a[0] == b[0] && Before(a[1..], b[1..])))
  }

  lemma {:induction false} BeforeIrreflexive(a: Bytes)
    ensures !Before(a, a)
  {
    if a != [] { BeforeIrreflexive(a[1..]); }
  }

  lemma {:induction false} BeforeTrichotomy(a: Bytes, b: Bytes)
    ensures Before(a, b) || a == b || Before(b, a)
    ensures !(Before(a, b) && Before(b, a))
  {
    if a != [] && b != [] && a[0] == b[0] {
      BeforeTrichotomy(a[1..], b[1..]);
      assert a[1..] == b[1..] ==> a == [a[0]] + a[1..] == b;
    }
  }

  lemma {:induction false} BeforeTransitive(a: Bytes, b: Bytes, c: Bytes)
    requires Before(a, b) && Before(b, c)
    ensures Before(a, c)
  {
    if a != [] && b != [] && c != [] && a[0] == b[0] == c[0] { BeforeTransitive(a[1..], b[1..], c[1..]); }
  }

  /** A common prefix does not affect the order. */
  lemma {:induction false} BeforeSamePrefix(p: Bytes, a: Bytes, b: Bytes)
    ensures Before(p + a, p + b) <==> Before(a, b)
  {
    if p == [] {
      assert p + a == a && p + b == b;
    } else {
      BeforeSamePrefix(p[1..], a, b);
      assert (p + a)[1..] == p[1..] + a && (p + b)[1..] == p[1..] + b;
    }
  }

  /** Unequal heads of equal length decide. */
  lemma {:induction false} BeforeByHead(x: Bytes, y: Bytes, a: Bytes, b: Bytes)
    requires |x| == |y| && x != y
    ensures Before(x + a, y + b) <==> Before(x, y)
  {
    assert (x + a)[1..] == x[1..] + a && (y + b)[1..] == y[1..] + b;
    if x[0] == y[0] {
      assert x == [x[0]] + x[1..] && y == [y[0]] + y[1..];
      BeforeByHead(x[1..], y[1..], a, b);
    }
  }

  // --- big-endian numbers ----------------------------------------------------

  function Pow256(n: nat): nat { if n == 0 then 1 else 256 * Pow256(n - 1) }

  function BigEndian(v: nat, n: nat): (b: Bytes)
    ensures |b| == n
  { if n == 0 then [] else BigEndian(v / 256, n - 1) + [v % 256] }

  function FromBigEndian(b: Bytes): nat {
    if b == [] then 0 else 256 * FromBigEndian(b[..|b| - 1]) + b[|b| - 1]
  }

  lemma {:induction false} BigEndianRoundTrip(v: nat, n: nat)
    requires v < Pow256(n)
    ensures FromBigEndian(BigEndian(v, n)) == v
  {
    if n > 0 {
      BigEndianRoundTrip(v / 256, n - 1);
      assert BigEndian(v, n)[..n - 1] == BigEndian(v / 256, n - 1);
    }
  }

  lemma {:induction false} FromBigEndianRoundTrip(b: Bytes)
    ensures FromBigEndian(b) < Pow256(|b|) && BigEndian(FromBigEndian(b), |b|) == b
  {
    if b != [] {
      FromBigEndianRoundTrip(b[..|b| - 1]);
      assert b == b[..|b| - 1] + [b[|b| - 1]];
    }
  }

  /** Byte order of big-endian numbers is numeric order. */
  lemma {:induction false} BigEndianOrder(v: nat, w: nat, n: nat)
    requires v < Pow256(n) && w < Pow256(n)
    ensures Before(BigEndian(v, n), BigEndian(w, n)) <==> v < w
    ensures BigEndian(v, n) == BigEndian(w, n) <==> v == w
  {
    BigEndianRoundTrip(v, n);
    BigEndianRoundTrip(w, n);
    if n > 0 {
      var x, y := BigEndian(v / 256, n - 1), BigEndian(w / 256, n - 1);
      BigEndianOrder(v / 256, w / 256, n - 1);
      if x != y {
        BeforeByHead(x, y, [v % 256], [w % 256]);
      } else {
        BeforeSamePrefix(x, [v % 256], [w % 256]);
        assert Before([v % 256], [w % 256]) <==> v % 256 < w % 256 by { assert [v % 256][1..] == [w % 256][1..] == []; }
      }
    }
  }

  // --- prefix bounds ---------------------------------------------------------

  predicate HasPrefix(b: Bytes, p: Bytes) { p <= b }

  datatype Bound = Unbounded | Below(end: Bytes)

  predicate Under(b: Bytes, hi: Bound) { hi.Unbounded? || Before(b, hi.end) }

  /** The exclusive upper end of a prefix: its last byte below 255 raised, and what
      follows dropped. */
  function PrefixEnd(p: Bytes): Bound {
    if p == [] then Unbounded
    else if p[|p| - 1] != 255 then Below(p[..|p| - 1] + [p[|p| - 1] + 1])
    else PrefixEnd(p[..|p| - 1])
  }

  /** The bound of a prefix, from the bound of what follows its first byte. */
  function EndFrom(first: Byte, rest: Bound): Bound {
    match rest
    case Below(e) => Below([first] + e)
    case Unbounded => if first != 255 then Below([first + 1]) else Unbounded
  }

  lemma EndOfOne(x: Byte)
    ensures PrefixEnd([x]) == EndFrom(x, PrefixEnd([]))
  {
    assert [x][..0] == [];
    if x != 255 {
      var e: Bytes := [x + 1];
      assert [] + e == e;
    }
  }

  lemma EndOfRaised(p: Bytes, z: Byte)
    requires z != 255
    ensures PrefixEnd(p + [z]) == Below(p + [z + 1])
  {
    assert (p + [z])[..|p|] == p;
  }

  lemma EndRaised(x: Byte, mid: Bytes, z: Byte)
    requires z != 255
    ensures PrefixEnd([x] + mid + [z]) == EndFrom(x, PrefixEnd(mid + [z]))
  {
    EndOfRaised([x] + mid, z);
    EndOfRaised(mid, z);
    assert [x] + mid + [z + 1] == [x] + (mid + [z + 1]);
  }

  lemma {:induction false} PrefixEndTail(p: Bytes)
    requires p != []
    ensures PrefixEnd(p) == EndFrom(p[0], PrefixEnd(p[1..]))
  {
    if |p| == 1 {
      assert p == [p[0]] && p[1..] == [];
      EndOfOne(p[0]);
    } else if p[|p| - 1] != 255 {
      var mid, z := p[1..|p| - 1], p[|p| - 1];
      assert p == [p[0]] + mid + [z] && p[1..] == mid + [z];
      EndRaised(p[0], mid, z);
    } else {
      PrefixEndTail(p[..|p| - 1]);
      assert p[..|p| - 1][1..] == p[1..][..|p| - 2];
    }
  }

  /** The scan from a prefix to its end holds exactly the strings with that prefix. */
  lemma {:induction false} PrefixScanExact(p: Bytes, b: Bytes)
    ensures HasPrefix(b, p) <==> !Before(b, p) && Under(b, PrefixEnd(p))
  {
    if p != [] && b != [] {
      PrefixEndTail(p);
      var q, c := p[1..], b[1..];
      PrefixScanExact(q, c);
      assert p == [p[0]] + q && b == [b[0]] + c;
      assert HasPrefix(b, p) <==> b[0] == p[0] && HasPrefix(c, q);
      match PrefixEnd(q) {
        case Below(e) => assert ([p[0]] + e)[1..] == e;
        case Unbounded =>
          if p[0] != 255 {
            var e: Bytes := [p[0] + 1];
            assert e[1..] == [] && !Before(c, []);
            assert Before(b, e) <==> b[0] <= p[0];
          }
      }
    }
  }

  /** The buffer edited from its end. */
  method PrefixEndLoop(p: Bytes) returns (hi: Bound)
    ensures hi == PrefixEnd(p)
  {
    var i := |p|;
    assert p[..i] == p;
    while i > 0
      invariant 0 <= i <= |p| && PrefixEnd(p) == PrefixEnd(p[..i])
    {
      if p[i - 1] != 255 {
        assert p[..i][..i - 1] == p[..i - 1];
        return Below(p[..i - 1] + [p[i - 1] + 1]);
      }
      assert p[..i][..i - 1] == p[..i - 1];
      i := i - 1;
    }
    return Unbounded;
  }
}

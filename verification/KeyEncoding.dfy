/** Engine keys: a namespace, a kind byte, the user key behind its length, and for
    versioned kinds the timestamp with every bit inverted, so that the newest version of
    a key is the first record at or after its prefix. */
module KeyEncoding {
  import opened Bytes
  import opened Hlc

  datatype Option<T> = None | Some(value: T)

  const DATA: Byte := 100
  const LOCK: Byte := 108
  const WRITE: Byte := 119
  const TXN: Byte := 116
  const READ: Byte := 114

  const WALLS: nat := 0x1_0000_0000_0000_0000

  /** What an int64 wall and a uint32 counter can hold. */
  predicate Storable(t: Timestamp) { -(WALLS / 2) <= t.wall < WALLS / 2 && t.logical < LIMIT }

  function Unsigned(w: int): (u: nat)
    requires -(WALLS / 2) <= w < WALLS / 2
    ensures u < WALLS
  { if w < 0 then w + WALLS else w }

  function Signed(u: nat): int
    requires u < WALLS
  { if u >= WALLS / 2 then u - WALLS else u }

  function InvertedTs(t: Timestamp): (b: Bytes)
    requires Storable(t)
    ensures |b| == 12
  { BigEndian(WALLS - 1 - Unsigned(t.wall), 8) + BigEndian(LIMIT - 1 - t.logical, 4) }

  function MetaKey(ns: Bytes, kind: Byte, key: Bytes): Bytes
    requires |key| < LIMIT
  { ns + [kind] + BigEndian(|key|, 4) + key }

  function VersionedKey(ns: Bytes, kind: Byte, key: Bytes, t: Timestamp): Bytes
    requires |key| < LIMIT && Storable(t)
  { MetaKey(ns, kind, key) + InvertedTs(t) }

  function EncodeKey(ns: Bytes, key: Bytes, t: Timestamp): Bytes
    requires |key| < LIMIT && Storable(t)
  { VersionedKey(ns, DATA, key, t) }

  function TakeMetaKey(ns: Bytes, kind: Byte, b: Bytes): Option<(Bytes, Bytes)> {
    if |b| < |ns| + 5 || b[..|ns|] != ns || b[|ns|] != kind then None
    else
      var n := FromBigEndian(b[|ns| + 1..|ns| + 5]);
      if |b| - |ns| - 5 < n then None
      else Some((b[|ns| + 5..|ns| + 5 + n], b[|ns| + 5 + n..]))
  }

  function TakeTs(raw: Bytes): Timestamp
    requires |raw| == 12
  {
    FromBigEndianRoundTrip(raw[..8]);
    FromBigEndianRoundTrip(raw[8..]);
    Powers();
    Timestamp(Signed(WALLS - 1 - FromBigEndian(raw[..8])), LIMIT - 1 - FromBigEndian(raw[8..]))
  }

  function DecodeVersioned(ns: Bytes, kind: Byte, b: Bytes): Option<(Bytes, Timestamp)> {
    match TakeMetaKey(ns, kind, b)
    case None => None
    case Some((key, rest)) => if |rest| != 12 then None else Some((key, TakeTs(rest)))
  }

  predicate Owned(kind: Byte) { kind in {DATA, LOCK, WRITE, TXN, READ} }

  /** The user key any record belongs to, whatever its kind. */
  function UserKeyOf(ns: Bytes, b: Bytes): Option<Bytes> {
    if |b| <= |ns| || b[..|ns|] != ns || !Owned(b[|ns|]) then None
    else
      match TakeMetaKey(ns, b[|ns|], b)
      case None => None
      case Some((key, _)) => Some(key)
  }

  /** A record re-addressed to another range. */
  function ReNamespace(b: Bytes, from: Bytes, to: Bytes): Bytes {
    if |b| < |from| then b else to + b[|from|..]
  }

  // --- round trips -----------------------------------------------------------

  lemma Powers()
    ensures Pow256(4) == LIMIT && Pow256(8) == WALLS
  {
    assert Pow256(2) == 65536;
    assert Pow256(4) == 65536 * 65536;
    assert Pow256(6) == 65536 * Pow256(4);
    assert Pow256(8) == 65536 * Pow256(6);
  }

  lemma TakesWhatWasMade(ns: Bytes, kind: Byte, key: Bytes, rest: Bytes)
    requires |key| < LIMIT
    ensures TakeMetaKey(ns, kind, MetaKey(ns, kind, key) + rest) == Some((key, rest))
  {
    var b := MetaKey(ns, kind, key) + rest;
    Powers();
    BigEndianRoundTrip(|key|, 4);
    assert b[..|ns|] == ns && b[|ns|] == kind;
    assert b[|ns| + 1..|ns| + 5] == BigEndian(|key|, 4);
    assert b[|ns| + 5..|ns| + 5 + |key|] == key && b[|ns| + 5 + |key|..] == rest;
  }

  lemma TsRoundTrip(t: Timestamp)
    requires Storable(t)
    ensures TakeTs(InvertedTs(t)) == t
  {
    Powers();
    BigEndianRoundTrip(WALLS - 1 - Unsigned(t.wall), 8);
    BigEndianRoundTrip(LIMIT - 1 - t.logical, 4);
    assert InvertedTs(t)[..8] == BigEndian(WALLS - 1 - Unsigned(t.wall), 8);
    assert InvertedTs(t)[8..] == BigEndian(LIMIT - 1 - t.logical, 4);
  }

  /** Decoding gives back exactly what was encoded, negative walls included. */
  lemma EncodeDecodes(ns: Bytes, kind: Byte, key: Bytes, t: Timestamp)
    requires |key| < LIMIT && Storable(t)
    ensures DecodeVersioned(ns, kind, VersionedKey(ns, kind, key, t)) == Some((key, t))
  {
    TakesWhatWasMade(ns, kind, key, InvertedTs(t));
    TsRoundTrip(t);
  }

  lemma MadeFromTaken(ns: Bytes, kind: Byte, b: Bytes)
    requires TakeMetaKey(ns, kind, b).Some?
    ensures var (key, rest) := TakeMetaKey(ns, kind, b).value; |key| < LIMIT && b == MetaKey(ns, kind, key) + rest
  {
    var (key, rest) := TakeMetaKey(ns, kind, b).value;
    var n := b[|ns| + 1..|ns| + 5];
    Powers();
    FromBigEndianRoundTrip(n);
    assert b == b[..|ns|] + [b[|ns|]] + n + b[|ns| + 5..];
    assert b[|ns| + 5..] == key + rest;
    assert b == ns + [kind] + BigEndian(|key|, 4) + (key + rest);
  }

  lemma TsMadeFromTaken(raw: Bytes)
    requires |raw| == 12
    ensures Storable(TakeTs(raw)) && InvertedTs(TakeTs(raw)) == raw
  {
    Powers();
    FromBigEndianRoundTrip(raw[..8]);
    FromBigEndianRoundTrip(raw[8..]);
    assert raw == raw[..8] + raw[8..];
  }

  /** And only encodings decode, so no two keys share one. */
  lemma DecodeEncodes(ns: Bytes, kind: Byte, b: Bytes)
    requires DecodeVersioned(ns, kind, b).Some?
    ensures var (key, t) := DecodeVersioned(ns, kind, b).value;
      |key| < LIMIT && Storable(t) && VersionedKey(ns, kind, key, t) == b
  {
    MadeFromTaken(ns, kind, b);
    TsMadeFromTaken(TakeMetaKey(ns, kind, b).value.1);
  }

  // --- order -----------------------------------------------------------------

  lemma InvertedOrder(t: Timestamp, u: Timestamp)
    requires Storable(t) && Storable(u)
    ensures Before(InvertedTs(t), InvertedTs(u)) <==>
      Unsigned(u.wall) < Unsigned(t.wall) || (t.wall == u.wall && u.logical < t.logical)
  {
    Powers();
    var tw, uw := WALLS - 1 - Unsigned(t.wall), WALLS - 1 - Unsigned(u.wall);
    var tl, ul := BigEndian(LIMIT - 1 - t.logical, 4), BigEndian(LIMIT - 1 - u.logical, 4);
    BigEndianOrder(tw, uw, 8);
    BigEndianOrder(LIMIT - 1 - t.logical, LIMIT - 1 - u.logical, 4);
    if tw == uw {
      BeforeSamePrefix(BigEndian(tw, 8), tl, ul);
    } else {
      BeforeByHead(BigEndian(tw, 8), BigEndian(uw, 8), tl, ul);
    }
  }

  /** Within one key, byte order is reverse timestamp order exactly when the two walls
      have the same sign. */
  lemma NewestSortsFirst(ns: Bytes, kind: Byte, key: Bytes, t: Timestamp, u: Timestamp)
    requires |key| < LIMIT && Storable(t) && Storable(u)
    ensures (Before(VersionedKey(ns, kind, key, t), VersionedKey(ns, kind, key, u)) <==> u.Less(t))
      <==> (t.wall < 0 <==> u.wall < 0)
  {
    BeforeSamePrefix(MetaKey(ns, kind, key), InvertedTs(t), InvertedTs(u));
    InvertedOrder(t, u);
  }

  lemma PrefixIsKey(ns: Bytes, kind: Byte, key: Bytes, other: Bytes, tail: Bytes)
    requires |key| < LIMIT && |other| < LIMIT
    ensures HasPrefix(MetaKey(ns, kind, other) + tail, MetaKey(ns, kind, key)) <==> other == key
  {
    var b, p := MetaKey(ns, kind, other) + tail, MetaKey(ns, kind, key);
    if HasPrefix(b, p) {
      assert b == p + b[|p|..];
      TakesWhatWasMade(ns, kind, key, b[|p|..]);
      TakesWhatWasMade(ns, kind, other, tail);
    }
  }

  /** A prefix scan over one key's chain holds that key's records and no other's, whatever
      bytes the keys contain. */
  lemma ChainIsExact(ns: Bytes, kind: Byte, key: Bytes, other: Bytes, t: Timestamp)
    requires |key| < LIMIT && |other| < LIMIT && Storable(t)
    ensures var b, p := VersionedKey(ns, kind, other, t), MetaKey(ns, kind, key);
      !Before(b, p) && Under(b, PrefixEnd(p)) <==> other == key
  {
    PrefixScanExact(MetaKey(ns, kind, key), VersionedKey(ns, kind, other, t));
    PrefixIsKey(ns, kind, key, other, InvertedTs(t));
  }

  /** The first version at or after the seek key, in byte order. */
  ghost predicate Sought(ns: Bytes, key: Bytes, t: Timestamp, versions: set<Timestamp>, r: Timestamp)
    requires |key| < LIMIT && Storable(t) && forall s :: s in versions ==> Storable(s)
  {
    && r in versions && !Before(EncodeKey(ns, key, r), EncodeKey(ns, key, t))
    && forall s :: s in versions && !Before(EncodeKey(ns, key, s), EncodeKey(ns, key, t)) ==>
         !Before(EncodeKey(ns, key, s), EncodeKey(ns, key, r))
  }

  /** The greatest version not above t. */
  ghost predicate NewestBy(t: Timestamp, versions: set<Timestamp>, r: Timestamp) {
    r in versions && r.LessEq(t) && forall s :: s in versions && s.LessEq(t) ==> s.LessEq(r)
  }

  predicate SameSign(s: Timestamp, t: Timestamp) { s.wall < 0 <==> t.wall < 0 }

  /** The order a seek goes by: walls as unsigned numbers. */
  predicate UnsignedLess(s: Timestamp, t: Timestamp)
    requires Storable(s) && Storable(t)
  { Unsigned(s.wall) < Unsigned(t.wall) || (s.wall == t.wall && s.logical < t.logical) }

  lemma SeekOrder(ns: Bytes, key: Bytes, s: Timestamp, t: Timestamp)
    requires |key| < LIMIT && Storable(s) && Storable(t)
    ensures Before(EncodeKey(ns, key, s), EncodeKey(ns, key, t)) <==> UnsignedLess(t, s)
  {
    BeforeSamePrefix(MetaKey(ns, DATA, key), InvertedTs(s), InvertedTs(t));
    InvertedOrder(s, t);
  }

  /** One seek to (key, t) finds the newest version at or below t wherever a version of t's
      sign is at or below it, or every version has t's sign. */
  lemma SeekIsNewest(ns: Bytes, key: Bytes, t: Timestamp, versions: set<Timestamp>, r: Timestamp)
    requires |key| < LIMIT && Storable(t) && (forall s :: s in versions ==> Storable(s))
    requires
      || (exists s :: s in versions && SameSign(s, t) && s.LessEq(t))
      || (forall s :: s in versions ==> SameSign(s, t))
    ensures Sought(ns, key, t, versions, r) <==> NewestBy(t, versions, r)
  {
    forall s | s in versions ensures Before(EncodeKey(ns, key, s), EncodeKey(ns, key, t)) <==> UnsignedLess(t, s) {
      SeekOrder(ns, key, s, t);
    }
    if r in versions {
      forall s | s in versions ensures Before(EncodeKey(ns, key, s), EncodeKey(ns, key, r)) <==> UnsignedLess(r, s) {
        SeekOrder(ns, key, s, r);
      }
    }
  }

  ghost function Newer(t: Timestamp, versions: set<Timestamp>, s: Timestamp): set<Timestamp> {
    set u | u in versions && u.LessEq(t) && s.Less(u)
  }

  lemma {:induction false} NewestThere(t: Timestamp, versions: set<Timestamp>, s: Timestamp)
    requires s in versions && s.LessEq(t)
    ensures exists r :: NewestBy(t, versions, r)
    decreases Newer(t, versions, s)
  {
    if u :| u in Newer(t, versions, s) {
      assert u !in Newer(t, versions, u) && Newer(t, versions, u) <= Newer(t, versions, s);
      NewestThere(t, versions, u);
    } else {
      forall u | u in versions && u.LessEq(t) ensures u.LessEq(s) { assert u !in Newer(t, versions, s); }
      assert NewestBy(t, versions, s);
    }
  }

  /** And nowhere else: the seek and the newest version agree exactly under that condition. */
  lemma SeekIsNewestIff(ns: Bytes, key: Bytes, t: Timestamp, versions: set<Timestamp>)
    requires |key| < LIMIT && Storable(t) && (forall s :: s in versions ==> Storable(s))
    ensures (forall r :: Sought(ns, key, t, versions, r) <==> NewestBy(t, versions, r)) <==>
      || (exists s :: s in versions && SameSign(s, t) && s.LessEq(t))
      || (forall s :: s in versions ==> SameSign(s, t))
  {
    if (exists s :: s in versions && SameSign(s, t) && s.LessEq(t)) || (forall s :: s in versions ==> SameSign(s, t)) {
      forall r ensures Sought(ns, key, t, versions, r) <==> NewestBy(t, versions, r) {
        SeekIsNewest(ns, key, t, versions, r);
      }
    } else {
      var s :| s in versions && !SameSign(s, t);
      var r := OtherSign(ns, key, t, versions, s);
    }
  }

  /** With only versions of the other sign to find, the seek and the newest part ways. */
  lemma OtherSign(ns: Bytes, key: Bytes, t: Timestamp, versions: set<Timestamp>, s: Timestamp) returns (r: Timestamp)
    requires |key| < LIMIT && Storable(t) && (forall u :: u in versions ==> Storable(u))
    requires s in versions && !SameSign(s, t) && forall u :: u in versions && SameSign(u, t) ==> t.Less(u)
    ensures Sought(ns, key, t, versions, r) != NewestBy(t, versions, r)
  {
    if t.wall >= 0 {
      NewestThere(t, versions, s);
      r :| NewestBy(t, versions, r);
      SeekOrder(ns, key, r, t);
    } else {
      r := FirstSought(ns, key, t, versions, s);
    }
  }

  /** Below zero the seek runs on into the versions above zero. */
  lemma FirstSought(ns: Bytes, key: Bytes, t: Timestamp, versions: set<Timestamp>, s: Timestamp) returns (r: Timestamp)
    requires |key| < LIMIT && Storable(t) && (forall u :: u in versions ==> Storable(u)) && t.wall < 0
    requires s in versions && s.wall >= 0 && forall u :: u in versions && u.wall < 0 ==> t.Less(u)
    ensures Sought(ns, key, t, versions, r) && t.Less(r)
  {
    var top := set u | u in versions && u.wall >= 0;
    var far := Timestamp(WALLS, 0);
    NewestThere(far, top, s);
    r :| NewestBy(far, top, r);
    SeekOrder(ns, key, r, t);
    forall u | u in versions && !Before(EncodeKey(ns, key, u), EncodeKey(ns, key, t))
      ensures !Before(EncodeKey(ns, key, u), EncodeKey(ns, key, r))
    {
      SeekOrder(ns, key, u, t);
      SeekOrder(ns, key, u, r);
      assert u in top;
    }
  }

  // --- moving between ranges -------------------------------------------------

  /** A re-addressed record keeps its kind, its user key and everything after it. */
  lemma ReNamespaceKeepsKey(from: Bytes, to: Bytes, b: Bytes)
    requires UserKeyOf(from, b).Some?
    ensures UserKeyOf(to, ReNamespace(b, from, to)) == UserKeyOf(from, b)
    ensures ReNamespace(ReNamespace(b, from, to), to, from) == b
  {
    var kind := b[|from|];
    MadeFromTaken(from, kind, b);
    var (key, rest) := TakeMetaKey(from, kind, b).value;
    var moved := ReNamespace(b, from, to);
    assert moved == MetaKey(to, kind, key) + rest by {
      assert b[|from|..] == [kind] + BigEndian(|key|, 4) + key + rest;
    }
    TakesWhatWasMade(to, kind, key, rest);
    assert moved[..|to|] == to && moved[|to|] == kind;
    assert moved[|to|..] == b[|from|..] && b == from + b[|from|..];
  }

  lemma ReNamespaceVersioned(from: Bytes, to: Bytes, kind: Byte, key: Bytes, t: Timestamp)
    requires |key| < LIMIT && Storable(t)
    ensures ReNamespace(VersionedKey(from, kind, key, t), from, to) == VersionedKey(to, kind, key, t)
  {
    var b := VersionedKey(from, kind, key, t);
    assert b[|from|..] == [kind] + BigEndian(|key|, 4) + key + InvertedTs(t);
  }
}

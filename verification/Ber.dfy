/** The parts of BER that SNMP uses (ITU-T X.690, sections 8.1.3, 8.3 and 8.19): what is written and what is read. */
module Ber {
  import opened Base

  type Byte = b: int | 0 <= b < 256
  type Bytes = seq<Byte>

  const UINT64: nat := 0x1_0000_0000_0000_0000
  const INT64: int := 0x8000_0000_0000_0000
  const UINT32: nat := 0x1_0000_0000

  type Arc = a: int | 0 <= a < UINT64
  type Oid = seq<Arc>

  // ----- Numbers -------------------------------------------------------------

  function Unsigned(b: Bytes): nat {
    if b == [] then 0 else Unsigned(b[..|b| - 1]) * 256 + b[|b| - 1]
  }

  function Pow256(k: nat): (p: nat)
    ensures p > 0
  {
    if k == 0 then 1 else 256 * Pow256(k - 1)
  }

  lemma {:induction false} PowersGrow(a: nat, b: nat)
    requires a <= b
    ensures Pow256(a) <= Pow256(b)
  {
    if a < b { PowersGrow(a, b - 1); }
  }

  /** The shortest big-endian form. */
  function Minimal(n: nat): (b: Bytes)
    ensures b != []
  {
    if n < 256 then [n] else Minimal(n / 256) + [n % 256]
  }

  function Zeros(k: nat): (b: Bytes)
    ensures |b| == k && forall i :: 0 <= i < k ==> b[i] == 0
  {
    seq(k, _ => 0)
  }

  /** A 64-bit word, big-endian. */
  function Word(n: nat): (b: Bytes)
    requires n < UINT64
    ensures |b| == 8
  {
    MinimalSize8(n);
    Zeros(8 - |Minimal(n)|) + Minimal(n)
  }

  lemma {:induction false} UnsignedMinimal(n: nat)
    ensures Unsigned(Minimal(n)) == n
    ensures n >= 256 ==> Minimal(n)[0] != 0
  {
    if n >= 256 {
      UnsignedMinimal(n / 256);
      assert Minimal(n)[..|Minimal(n)| - 1] == Minimal(n / 256);
    }
  }

  lemma {:induction false} UnsignedBound(b: Bytes)
    ensures Unsigned(b) < Pow256(|b|)
  {
    if b != [] { UnsignedBound(b[..|b| - 1]); }
  }

  /** The number of bytes is the least that holds the number. */
  lemma {:induction false} MinimalSize(n: nat, k: nat)
    requires k > 0
    ensures |Minimal(n)| <= k <==> n < Pow256(k)
  {
    if n >= 256 && k > 1 {
      MinimalSize(n / 256, k - 1);
    } else if n >= 256 {
      assert Pow256(1) == 256 && |Minimal(n / 256)| > 0;
    } else if k > 1 {
      assert Pow256(k) == 256 * Pow256(k - 1);
    }
  }

  lemma {:induction false} LeadingZero(b: Bytes)
    requires b != [] && b[0] == 0
    ensures Unsigned(b) == Unsigned(b[1..])
  {
    if |b| > 1 {
      LeadingZero(b[..|b| - 1]);
      assert b[1..][..|b| - 2] == b[..|b| - 1][1..];
    }
  }

  lemma {:induction false} LeadingZeros(k: nat, b: Bytes)
    requires b != []
    ensures Unsigned(Zeros(k) + b) == Unsigned(b)
  {
    if k == 0 {
      assert Zeros(0) + b == b;
    } else {
      LeadingZero(Zeros(k) + b);
      assert (Zeros(k) + b)[1..] == Zeros(k - 1) + b;
      LeadingZeros(k - 1, b);
    }
  }

  lemma WordHolds(n: nat)
    requires n < UINT64
    ensures Unsigned(Word(n)) == n
  {
    MinimalSize8(n);
    UnsignedMinimal(n);
    LeadingZeros(8 - |Minimal(n)|, Minimal(n));
  }

  /** Without a leading zero there is only one form. */
  lemma {:induction false} MinimalIsUnique(b: Bytes)
    requires b != [] && (|b| == 1 || b[0] != 0)
    ensures b == Minimal(Unsigned(b))
  {
    if |b| == 1 {
      assert Unsigned(b[..0]) == 0;
    } else {
      MinimalIsUnique(b[..|b| - 1]);
      Positive(b[..|b| - 1]);
    }
  }

  lemma {:induction false} Positive(b: Bytes)
    requires b != [] && b[0] != 0
    ensures Unsigned(b) > 0
  {
    if |b| > 1 { Positive(b[..|b| - 1]); }
  }

  lemma {:induction false} UnsignedFront(b: Bytes)
    requires b != []
    ensures Unsigned(b) == b[0] * Pow256(|b| - 1) + Unsigned(b[1..])
  {
    if |b| > 1 {
      UnsignedFront(b[..|b| - 1]);
      assert b[1..][..|b| - 2] == b[..|b| - 1][1..];
      assert Pow256(|b| - 1) == 256 * Pow256(|b| - 2);
      assert (b[0] * Pow256(|b| - 2)) * 256 == b[0] * Pow256(|b| - 1);
    } else {
      assert Unsigned(b[..0]) == 0 && Unsigned(b[1..]) == 0;
    }
  }

  // ----- Lengths and elements --------------------------------------------------

  datatype Tlv = Tlv(tag: Byte, val: Bytes)

  /** No byte string is as long as the last case. */
  function LenOctets(n: nat): (b: Bytes)
    ensures b != []
  {
    if n < 0x80 then [n]
    else if n < UINT64 then
      MinimalSize8(n);
      [0x80 + |Minimal(n)|] + Minimal(n)
    else [0x80]
  }

  lemma MinimalSize8(n: nat)
    ensures |Minimal(n)| <= 8 <==> n < UINT64
  {
    assert Pow256(2) == 256 * Pow256(1) && Pow256(4) == 256 * (256 * Pow256(2)) && Pow256(6) == 256 * (256 * Pow256(4));
    assert Pow256(8) == 256 * (256 * Pow256(6)) == UINT64;
    MinimalSize(n, 8);
  }

  lemma MinimalSize4(n: nat)
    ensures |Minimal(n)| <= 4 <==> n < UINT32
  {
    assert Pow256(2) == 256 * Pow256(1) && Pow256(4) == 256 * (256 * Pow256(2)) == UINT32;
    MinimalSize(n, 4);
  }

  function EncTlv(e: Tlv): (b: Bytes)
    ensures |b| >= 2 + |e.val|
  {
    [e.tag] + LenOctets(|e.val|) + e.val
  }

  /** The length that starts b, and how many octets give it: at most four after the first. */
  function ReadLen(b: Bytes): (r: Option<(nat, nat)>)
    ensures r.Some? ==> 0 < r.value.1 <= |b|
  {
    if b == [] then None
    else if b[0] < 0x80 then Some((b[0], 1))
    else
      var k := b[0] - 0x80;
      if k == 0 || k > 4 || |b| < 1 + k then None
      else Some((Unsigned(b[1..1 + k]), 1 + k))
  }

  /** The element that starts b, and its size. */
  function ReadTlv(b: Bytes): (r: Option<(Tlv, nat)>)
    ensures r.Some? ==> 2 <= r.value.1 <= |b|
  {
    if |b| < 2 then None
    else
      match ReadLen(b[1..])
      case None => None
      case Some((n, used)) =>
        if 1 + used + n > |b| then None
        else Some((Tlv(b[0], b[1 + used..1 + used + n]), 1 + used + n))
  }

  lemma LenRoundTrip(n: nat, rest: Bytes)
    ensures n < UINT32 ==> ReadLen(LenOctets(n) + rest) == Some((n, |LenOctets(n)|))
    ensures n >= UINT32 ==> ReadLen(LenOctets(n) + rest) == None
  {
    if 0x80 <= n < UINT64 {
      MinimalSize8(n);
      MinimalSize4(n);
      UnsignedMinimal(n);
      assert (LenOctets(n) + rest)[1..1 + |Minimal(n)|] == Minimal(n);
    }
  }

  /** What is written is read back if and only if its length fits in four octets. */
  lemma TlvRoundTrip(e: Tlv, rest: Bytes)
    ensures |e.val| < UINT32 ==> ReadTlv(EncTlv(e) + rest) == Some((e, |EncTlv(e)|))
    ensures |e.val| >= UINT32 ==> ReadTlv(EncTlv(e) + rest) == None
  {
    var b := EncTlv(e) + rest;
    LenRoundTrip(|e.val|, e.val + rest);
    assert b[1..] == LenOctets(|e.val|) + (e.val + rest);
    if |e.val| < UINT32 {
      var used := |LenOctets(|e.val|)|;
      assert b[1 + used..1 + used + |e.val|] == e.val;
    }
  }

  // ----- Lists of elements -------------------------------------------------------

  function Prepend<T>(es: seq<T>, tail: Option<seq<T>>): Option<seq<T>> {
    if tail.Some? then Some(es + tail.value) else None
  }

  /** The elements b consists of, if it does: nothing is left over. */
  function Elements(b: Bytes): Option<seq<Tlv>>
    decreases |b|
  {
    if b == [] then Some([])
    else
      match ReadTlv(b)
      case None => None
      case Some((e, size)) => Prepend([e], Elements(b[size..]))
  }

  function EncAll(es: seq<Tlv>): (b: Bytes)
    ensures forall i :: 0 <= i < |es| ==> |es[i].val| + 2 <= |b|
  {
    if es == [] then [] else EncTlv(es[0]) + EncAll(es[1..])
  }

  lemma {:induction false} ElementsRoundTrip(es: seq<Tlv>)
    requires forall e :: e in es ==> |e.val| < UINT32
    ensures Elements(EncAll(es)) == Some(es)
  {
    hide EncTlv, ReadTlv;
    if es != [] {
      var tail := EncAll(es[1..]);
      TlvRoundTrip(es[0], tail);
      assert EncAll(es) == EncTlv(es[0]) + tail;
      assert EncAll(es)[|EncTlv(es[0])|..] == tail;
      ElementsRoundTrip(es[1..]);
      assert [es[0]] + es[1..] == es;
    }
  }

  /** p is one element: its tag, a length in some accepted form, and exactly that many bytes. */
  predicate IsElement(p: Bytes, e: Tlv) {
    && |p| >= 2 + |e.val| && p[0] == e.tag && p[|p| - |e.val|..] == e.val
    && LengthForm(p[1..|p| - |e.val|], |e.val|)
  }

  predicate LengthForm(l: Bytes, n: nat) {
    || (|l| == 1 && l[0] == n < 0x80)
    || (2 <= |l| <= 5 && l[0] == 0x80 + |l| - 1 && Unsigned(l[1..]) == n)
  }

  function Flatten(ps: seq<Bytes>): Bytes {
    if ps == [] then [] else ps[0] + Flatten(ps[1..])
  }

  predicate Tiles(ps: seq<Bytes>, b: Bytes, es: seq<Tlv>) {
    Flatten(ps) == b && |ps| == |es| && forall i :: 0 <= i < |ps| ==> IsElement(ps[i], es[i])
  }

  lemma ReadIsElement(b: Bytes)
    requires ReadTlv(b).Some?
    ensures IsElement(b[..ReadTlv(b).value.1], ReadTlv(b).value.0)
  {
    var (e, size) := ReadTlv(b).value;
    var p := b[..size];
    var used := ReadLen(b[1..]).value.1;
    assert p[1..|p| - |e.val|] == b[1..1 + used];
    assert b[1..][1..used] == b[1..1 + used][1..];
    assert p[|p| - |e.val|..] == e.val;
  }

  lemma ElementIsRead(p: Bytes, e: Tlv, rest: Bytes)
    requires IsElement(p, e)
    ensures ReadTlv(p + rest) == Some((e, |p|))
  {
    var b := p + rest;
    var l := p[1..|p| - |e.val|];
    assert b[1..][..|l|] == l;
    if |l| > 1 {
      assert b[1..][1..1 + (|l| - 1)] == l[1..];
    }
    assert b[1 + |l|..1 + |l| + |e.val|] == e.val;
  }

  /** A byte string is accepted as a list of elements exactly when they tile it: no gap, no overlap, nothing left. */
  lemma {:induction false} AcceptedIffTiled(b: Bytes, es: seq<Tlv>)
    ensures Elements(b) == Some(es) <==> exists ps :: Tiles(ps, b, es)
    decreases |b|
  {
    if Elements(b) == Some(es) {
      var _ := Tiling(b, es);
    }
    if ps :| Tiles(ps, b, es) {
      TiledIsAccepted(ps, b, es);
    }
  }

  lemma {:induction false} Tiling(b: Bytes, es: seq<Tlv>) returns (ps: seq<Bytes>)
    requires Elements(b) == Some(es)
    ensures Tiles(ps, b, es)
    decreases |b|
  {
    if b == [] {
      ps := [];
    } else {
      var (e, size) := ReadTlv(b).value;
      ReadIsElement(b);
      var more := Tiling(b[size..], es[1..]);
      ps := [b[..size]] + more;
      assert ps[1..] == more;
      assert b == b[..size] + b[size..];
      forall i | 0 <= i < |ps| ensures IsElement(ps[i], es[i]) {
        assert i > 0 ==> ps[i] == more[i - 1] && es[i] == es[1..][i - 1];
      }
    }
  }

  lemma {:induction false} TiledIsAccepted(ps: seq<Bytes>, b: Bytes, es: seq<Tlv>)
    requires Tiles(ps, b, es)
    ensures Elements(b) == Some(es)
  {
    if ps != [] {
      ElementIsRead(ps[0], es[0], Flatten(ps[1..]));
      assert b[|ps[0]|..] == Flatten(ps[1..]);
      TiledIsAccepted(ps[1..], Flatten(ps[1..]), es[1..]);
      assert [es[0]] + es[1..] == es;
    }
  }

  // ----- INTEGER -------------------------------------------------------------------

  function Signed(b: Bytes): int
    requires b != []
  {
    if b[0] < 0x80 then Unsigned(b) else Unsigned(b) - Pow256(|b|)
  }

  function DecInt(b: Bytes): Option<int> {
    if 1 <= |b| <= 8 then Some(Signed(b)) else None
  }

  /** The first byte only repeats the sign of the second. */
  predicate Redundant(b: Bytes) {
    |b| > 1 && ((b[0] == 0 && b[1] < 0x80) || (b[0] == 0xff && b[1] >= 0x80))
  }

  function Strip(b: Bytes): (r: Bytes)
    requires b != []
    ensures 1 <= |r| <= |b| && !Redundant(r)
  {
    if Redundant(b) then Strip(b[1..]) else b
  }

  /** The shortest two's complement form of a 64-bit integer. */
  function SignedBytes(n: int): (b: Bytes)
    requires -INT64 <= n < INT64
    ensures 1 <= |b| <= 8 && !Redundant(b)
  {
    Strip(Word(n % UINT64))
  }

  lemma DroppingKeepsSign(b: Bytes)
    requires Redundant(b)
    ensures Signed(b[1..]) == Signed(b)
  {
    UnsignedFront(b);
    assert Pow256(|b|) == 256 * Pow256(|b| - 1);
  }

  lemma {:induction false} StripKeepsValue(b: Bytes)
    requires b != []
    ensures Signed(Strip(b)) == Signed(b)
  {
    if Redundant(b) {
      DroppingKeepsSign(b);
      StripKeepsValue(b[1..]);
    }
  }

  lemma {:induction false} TopByte(b: Bytes)
    requires b != []
    ensures b[0] >= 0x80 <==> 2 * Unsigned(b) >= Pow256(|b|)
  {
    UnsignedFront(b);
    UnsignedBound(b[1..]);
    if b[0] >= 0x80 {
      TimesIsMonotone(128, b[0], Pow256(|b| - 1));
    } else {
      TimesIsMonotone(b[0], 127, Pow256(|b| - 1));
    }
  }

  lemma TimesIsMonotone(a: nat, b: nat, p: nat)
    requires a <= b
    ensures a * p <= b * p
  {
  }

  /** Every 64-bit integer is read back as it was written. */
  lemma IntRoundTrip(n: int)
    requires -INT64 <= n < INT64
    ensures DecInt(SignedBytes(n)) == Some(n)
  {
    var b := Word(n % UINT64);
    WordHolds(n % UINT64);
    assert Pow256(2) == 256 * Pow256(1) && Pow256(4) == 256 * (256 * Pow256(2)) && Pow256(6) == 256 * (256 * Pow256(4));
    assert Pow256(8) == 256 * (256 * Pow256(6)) == UINT64;
    TopByte(b);
    StripKeepsValue(b);
  }

  // ----- Unsigned values -------------------------------------------------------------

  function UintRaw(n: nat): (b: Bytes)
    ensures b != [] && b[0] < 0x80
  {
    if Minimal(n)[0] >= 0x80 then [0] + Minimal(n) else Minimal(n)
  }

  /** A non-negative value of at most `width` bytes, not counting one leading zero. */
  predicate UintFits(b: Bytes, width: nat) {
    && b != [] && b[0] < 0x80
    && |if |b| > 1 && b[0] == 0 then b[1..] else b| <= width
  }

  /** A written value is read back, and a 32-bit reader accepts exactly the 32-bit ones. */
  lemma UintRoundTrip(n: nat)
    ensures Unsigned(UintRaw(n)) == n
    ensures UintFits(UintRaw(n), 4) <==> n < UINT32
  {
    UnsignedMinimal(n);
    MinimalSize4(n);
    if Minimal(n)[0] >= 0x80 {
      LeadingZero([0] + Minimal(n));
      assert ([0] + Minimal(n))[1..] == Minimal(n);
    }
  }

  // ----- OBJECT IDENTIFIER -------------------------------------------------------------

  /** The groups before the last, each marked as continued. */
  function Groups(v: nat): Bytes {
    if v < 128 then [v + 128] else Groups(v / 128) + [v % 128 + 128]
  }

  function ArcBytes(v: nat): Bytes {
    if v < 128 then [v] else Groups(v / 128) + [v % 128]
  }

  function ArcsBytes(arcs: Oid): Bytes {
    if arcs == [] then [] else ArcBytes(arcs[0]) + ArcsBytes(arcs[1..])
  }

  /** The first two arcs share a byte, computed in 64 bits. */
  function EncOid(oid: Oid): Option<Bytes> {
    if |oid| < 2 || oid[0] > 2 then None
    else
      var first := (oid[0] * 40 + oid[1]) % UINT64;
      if first > 255 then None else Some([first] + ArcsBytes(oid[2..]))
  }

  /** The arcs in b, given what has been read of the current one; overflow is refused. */
  function DecArcs(b: Bytes, v: Arc): Option<Oid> {
    if b == [] then Some([])
    else if v > (UINT64 - 1) / 128 then None
    else
      var w: Arc := v * 128 + b[0] % 128;
      if b[0] < 128 then Prepend([w], DecArcs(b[1..], 0)) else DecArcs(b[1..], w)
  }

  function DecOid(b: Bytes): Option<Oid> {
    if b == [] || b[|b| - 1] >= 128 then None
    else Prepend([b[0] / 40, b[0] % 40], DecArcs(b[1..], 0))
  }

  lemma {:induction false} GroupsAreRead(v: nat, rest: Bytes)
    requires v <= (UINT64 - 1) / 128
    ensures DecArcs(Groups(v) + rest, 0) == DecArcs(rest, v)
  {
    if v < 128 {
      assert ([v + 128] + rest)[1..] == rest;
    } else {
      var x: Byte := v % 128 + 128;
      GroupsAreRead(v / 128, [x] + rest);
      assert Groups(v) + rest == Groups(v / 128) + ([x] + rest);
      assert ([x] + rest)[1..] == rest;
    }
  }

  lemma ArcIsRead(v: Arc, rest: Bytes)
    ensures DecArcs(ArcBytes(v) + rest, 0) == Prepend([v], DecArcs(rest, 0))
  {
    if v < 128 {
      assert ([v] + rest)[1..] == rest;
    } else {
      var x: Byte := v % 128;
      GroupsAreRead(v / 128, [x] + rest);
      assert ArcBytes(v) + rest == Groups(v / 128) + ([x] + rest);
      assert ([x] + rest)[1..] == rest;
    }
  }

  lemma {:induction false} ArcsAreRead(arcs: Oid)
    ensures DecArcs(ArcsBytes(arcs), 0) == Some(arcs)
  {
    if arcs != [] {
      ArcIsRead(arcs[0], ArcsBytes(arcs[1..]));
      ArcsAreRead(arcs[1..]);
      assert arcs == [arcs[0]] + arcs[1..];
    }
  }

  lemma {:induction false} ArcsEndClosed(arcs: Oid)
    ensures arcs != [] ==> ArcsBytes(arcs) != [] && ArcsBytes(arcs)[|ArcsBytes(arcs)| - 1] < 128
    ensures arcs == [] ==> ArcsBytes(arcs) == []
  {
    if arcs != [] {
      ArcsEndClosed(arcs[1..]);
      var a := ArcBytes(arcs[0]);
      assert a != [] && a[|a| - 1] < 128;
    }
  }

  /** An identifier the encoder takes comes back exactly when its second arc is below 40. */
  lemma OidRoundTrip(oid: Oid)
    requires EncOid(oid).Some?
    ensures DecOid(EncOid(oid).value) == Some(oid) <==> oid[1] < 40
    ensures EncOid(oid).value != []
  {
    var first := (oid[0] * 40 + oid[1]) % UINT64;
    var b := EncOid(oid).value;
    ArcsAreRead(oid[2..]);
    ArcsEndClosed(oid[2..]);
    assert b[1..] == ArcsBytes(oid[2..]);
    assert oid == [oid[0], oid[1]] + oid[2..];
    if oid[1] < 40 {
      assert first == oid[0] * 40 + oid[1];
      assert first / 40 == oid[0] && first % 40 == oid[1];
    } else {
      assert DecOid(b).Some? ==> DecOid(b).value[1] < 40;
    }
  }

  /** The arithmetic wraps: a huge second arc is taken for a small one. */
  lemma WrappedArcIsAccepted()
    ensures var oid: Oid := [1, UINT64 - 40]; EncOid(oid) == Some([0]) && DecOid([0]) == Some([0, 0])
  {
    var oid: Oid := [1, UINT64 - 40];
    assert (oid[0] * 40 + oid[1]) % UINT64 == 0;
    assert oid[2..] == [] && ArcsBytes(oid[2..]) == [];
    assert EncOid(oid).value == [0];
    var b: Bytes := [0];
    assert b[1..] == [];
    var start: Oid := [0, 0];
    assert start + [] == start && DecOid(b) == Prepend(start, DecArcs([], 0));
  }
}

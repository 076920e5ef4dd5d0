/** The encoding and decoding loops, and the cursor that messages are read with. */
module BerCode {
  import opened Base
  import opened Ber

  method EncodeLength(n: nat) returns (out: Bytes)
    ensures out == LenOctets(n)
  {
    hide Pow256, Zeros;
    if n < 0x80 {
      return [n];
    }
    if n >= UINT64 {
      return [0x80]; // no byte string is as long
    }
    var tmp, i := Word(n), 0;
    WordHolds(n);
    while i < 7 && tmp[i] == 0
      invariant i <= 7 && Unsigned(tmp[i..]) == n
    {
      LeadingZero(tmp[i..]);
      assert tmp[i..][1..] == tmp[i + 1..];
      i := i + 1;
    }
    var body := tmp[i..];
    MinimalIsUnique(body);
    out := [0x80 + |body|] + body;
  }

  method EncodeSigned(n: int) returns (out: Bytes)
    requires -INT64 <= n < INT64
    ensures out == SignedBytes(n)
  {
    var b, i := Word(n % UINT64), 0;
    while i < 7 && ((b[i] == 0 && b[i + 1] < 0x80) || (b[i] == 0xff && b[i + 1] >= 0x80))
      invariant i <= 7 && Strip(b[i..]) == SignedBytes(n)
    {
      assert b[i..][1..] == b[i + 1..];
      i := i + 1;
    }
    out := b[i..];
  }

  method EncodeUnsigned(n: nat) returns (out: Bytes)
    requires n < UINT64
    ensures out == UintRaw(n)
  {
    var b, i := Word(n), 0;
    WordHolds(n);
    while i < 7 && b[i] == 0
      invariant i <= 7 && Unsigned(b[i..]) == n
    {
      LeadingZero(b[i..]);
      assert b[i..][1..] == b[i + 1..];
      i := i + 1;
    }
    MinimalIsUnique(b[i..]);
    out := if b[i] >= 0x80 then [0] + b[i..] else b[i..];
  }

  method DecodeInt(b: Bytes) returns (r: Option<int>)
    ensures r == DecInt(b)
  {
    if |b| == 0 || |b| > 8 {
      return None;
    }
    var n: int := if b[0] >= 0x80 then -1 else 0;
    for i := 0 to |b|
      invariant n == Unsigned(b[..i]) - if b[0] >= 0x80 then Pow256(i) else 0
    {
      assert b[..i + 1][..i] == b[..i];
      n := n * 256 + b[i];
    }
    assert b[..|b|] == b;
    r := Some(n);
  }

  /** In 64 bits: high bytes are lost, but never those of an accepted value. */
  method DecodeUnsigned(b: Bytes) returns (v: nat)
    ensures v == Unsigned(b) % UINT64
    ensures |b| <= 8 || UintFits(b, 8) ==> v == Unsigned(b)
  {
    v := 0;
    for i := 0 to |b|
      invariant v == Unsigned(b[..i]) % UINT64
    {
      assert b[..i + 1][..i] == b[..i];
      WrapsOnce(Unsigned(b[..i]), b[i]);
      v := (v * 256 + b[i]) % UINT64;
    }
    assert b[..|b|] == b;
    if |b| <= 8 || UintFits(b, 8) {
      AcceptedIsWhole(b);
    }
  }

  lemma WrapsOnce(n: nat, c: Byte)
    ensures (n % UINT64 * 256 + c) % UINT64 == (n * 256 + c) % UINT64
  {
    var q, r := n / UINT64, n % UINT64;
    assert n * 256 + c == UINT64 * (q * 256) + (r * 256 + c);
    ModAway(q * 256, r * 256 + c);
  }

  lemma ModAway(q: nat, r: nat)
    ensures (UINT64 * q + r) % UINT64 == r % UINT64
  {
  }

  lemma AcceptedIsWhole(b: Bytes)
    requires |b| <= 8 || UintFits(b, 8)
    ensures Unsigned(b) < UINT64
  {
    if |b| > 8 {
      LeadingZero(b);
      ShortIsSmall(b[1..]);
    } else {
      ShortIsSmall(b);
    }
  }

  lemma {:induction false} ShortIsSmall(b: Bytes)
    requires |b| <= 8
    ensures Unsigned(b) < UINT64
  {
    assert Pow256(2) == 256 * Pow256(1) && Pow256(4) == 256 * (256 * Pow256(2)) && Pow256(6) == 256 * (256 * Pow256(4));
    assert Pow256(8) == 256 * (256 * Pow256(6)) == UINT64;
    UnsignedBound(b);
    PowersGrow(|b|, 8);
  }

  /** All groups but the last are marked as continued. */
  function Marked(chunk: seq<nat>): Bytes
    requires forall i :: 0 <= i < |chunk| ==> chunk[i] < 128
  {
    seq(|chunk|, i requires 0 <= i < |chunk| => if i < |chunk| - 1 then chunk[i] + 128 else chunk[i])
  }

  lemma MarkedMore(x: nat, chunk: seq<nat>)
    requires x < 128 && chunk != [] && forall i :: 0 <= i < |chunk| ==> chunk[i] < 128
    ensures Marked([x] + chunk) == [x + 128] + Marked(chunk)
  {
  }

  function GroupsLeft(v: nat): Bytes {
    if v == 0 then [] else Groups(v)
  }

  lemma GroupsLeftStep(v: nat)
    requires v > 0
    ensures GroupsLeft(v) == GroupsLeft(v / 128) + [v % 128 + 128]
  {
  }

  /** The groups split off so far, and what is left of the number. */
  ghost predicate SplitSoFar(arc: Arc, v: nat, chunk: seq<nat>) {
    && (forall i :: 0 <= i < |chunk| ==> chunk[i] < 128)
    && (if chunk == [] then v == arc else ArcBytes(arc) == GroupsLeft(v) + Marked(chunk))
  }

  lemma FirstSplit(arc: Arc)
    requires arc >= 128
    ensures ArcBytes(arc) == GroupsLeft(arc / 128) + Marked([arc % 128])
  {
  }

  lemma SplitMore(arc: Arc, v: nat, chunk: seq<nat>)
    requires arc >= 128 && v > 0 && SplitSoFar(arc, v, chunk)
    ensures SplitSoFar(arc, v / 128, [v % 128] + chunk)
  {
    hide ArcBytes, Groups, GroupsLeft, Marked;
    if chunk == [] {
      FirstSplit(arc);
      assert [v % 128] + chunk == [v % 128];
    } else {
      GroupsLeftStep(v);
      MarkedMore(v % 128, chunk);
      assert GroupsLeft(v / 128) + ([v % 128 + 128] + Marked(chunk)) == GroupsLeft(v) + Marked(chunk);
    }
  }

  method EncodeArc(arc: Arc) returns (out: Bytes)
    ensures out == ArcBytes(arc)
  {
    if arc < 128 {
      return [arc];
    }
    var v: nat, chunk: seq<nat> := arc, [];
    while v > 0
      invariant SplitSoFar(arc, v, chunk)
    {
      hide SplitSoFar;
      SplitMore(arc, v, chunk);
      chunk := [v % 128] + chunk;
      v := v / 128;
    }
    out := Mark(chunk);
    assert [] + Marked(chunk) == Marked(chunk);
  }

  method Mark(chunk: seq<nat>) returns (out: Bytes)
    requires forall i :: 0 <= i < |chunk| ==> chunk[i] < 128
    ensures out == Marked(chunk)
  {
    out := [];
    for j := 0 to |chunk|
      invariant |out| == j && forall i :: 0 <= i < j ==> out[i] == Marked(chunk)[i]
    {
      out := out + [if j < |chunk| - 1 then chunk[j] + 128 else chunk[j]];
    }
  }

  method EncodeOid(oid: Oid) returns (r: Option<Bytes>)
    ensures r == EncOid(oid)
  {
    if |oid| < 2 || oid[0] > 2 {
      return None;
    }
    var first := (oid[0] * 40 + oid[1]) % UINT64;
    if first > 255 {
      return None;
    }
    var out: Bytes := [first];
    var arcs := oid[2..];
    for k := 0 to |arcs|
      invariant out + ArcsBytes(arcs[k..]) == [first] + ArcsBytes(arcs)
    {
      var a := EncodeArc(arcs[k]);
      assert arcs[k..][1..] == arcs[k + 1..];
      assert out + (a + ArcsBytes(arcs[k + 1..])) == (out + a) + ArcsBytes(arcs[k + 1..]);
      out := out + a;
    }
    assert arcs[|arcs|..] == [] && out + [] == out;
    r := Some(out);
  }

  method DecodeOid(b: Bytes) returns (r: Option<Oid>)
    ensures r == DecOid(b)
  {
    if b == [] {
      return None;
    }
    var arcs: Oid := [];
    var v: Arc := 0;
    ghost var all := DecArcs(b[1..], 0);
    assert all.Some? ==> arcs + all.value == all.value;
    for k := 1 to |b|
      invariant DecArcs(b[1..], 0) == Prepend(arcs, DecArcs(b[k..], v))
    {
      assert b[k..][1..] == b[k + 1..];
      if v > (UINT64 - 1) / 128 {
        return None;
      }
      v := v * 128 + b[k] % 128;
      if b[k] < 128 {
        ghost var more := DecArcs(b[k + 1..], 0);
        assert more.Some? ==> arcs + ([v] + more.value) == (arcs + [v]) + more.value;
        arcs, v := arcs + [v], 0;
      }
    }
    assert b[|b|..] == [] && arcs + [] == arcs;
    if b[|b| - 1] >= 128 {
      return None;
    }
    r := Some([b[0] / 40, b[0] % 40] + arcs);
  }

  /** A cursor over a byte string; `seen` are the elements read so far. */
  class Reader {
    const b: Bytes
    var i: nat
    ghost var seen: seq<Tlv>

    constructor (b: Bytes)
      ensures this.b == b && seen == [] && Valid()
    {
      this.b, i, seen := b, 0, [];
      new;
      assert b[0..] == b;
      assert Elements(b).Some? ==> [] + Elements(b).value == Elements(b).value;
    }

    /** The cursor is within the bytes, and what it has read is how they start as a list of elements. */
    ghost predicate Valid()
      reads this
    {
      i <= |b| && Elements(b) == Prepend(seen, Elements(b[i..]))
    }

    predicate More()
      reads this
    {
      i < |b|
    }

    /** The element at the cursor and where it ends. */
    method Parse() returns (r: Option<(Tlv, nat)>)
      requires i <= |b|
      ensures r == ReadTlv(b[i..])
    {
      ghost var rest := b[i..];
      if i + 2 > |b| {
        return None;
      }
      ghost var l := rest[1..];
      assert l == b[i + 1..];
      var len := ParseLength(i + 1);
      if len.None? {
        return None;
      }
      var (n, used) := len.value;
      if i + 1 + used + n > |b| {
        return None;
      }
      assert b[i + 1 + used..i + 1 + used + n] == rest[1 + used..1 + used + n];
      r := Some((Tlv(b[i], b[i + 1 + used..i + 1 + used + n]), 1 + used + n));
    }

    /** The length at a position and how many octets give it. */
    method ParseLength(at: nat) returns (r: Option<(nat, nat)>)
      requires at < |b|
      ensures r == ReadLen(b[at..])
    {
      var n: nat := b[at];
      assert b[at..][0] == b[at];
      if n < 0x80 {
        return Some((n, 1));
      }
      var k := n - 0x80;
      if k == 0 || k > 4 || at + 1 + k > |b| {
        return None;
      }
      assert b[at + 1..at + 1 + k] == b[at..][1..1 + k];
      n := DecodeUnsigned(b[at + 1..at + 1 + k]);
      r := Some((n, 1 + k));
    }

    /** Reads one element, if one is there. */
    method Read() returns (r: Option<Tlv>)
      requires Valid()
      modifies this
      ensures r.Some? ==> Valid() && seen == old(seen) + [r.value] && i > old(i)
      ensures r.None? ==> Elements(b).None? || Elements(b) == Some(old(seen))
    {
      hide Elements, ReadTlv, ReadLen;
      var p := Parse();
      if p.None? {
        Stuck();
        return None;
      }
      var (e, size) := p.value;
      Moved(size, e);
      i := i + size;
      seen := seen + [e];
      r := Some(e);
    }

    lemma Moved(size: nat, e: Tlv)
      requires Valid() && ReadTlv(b[i..]) == Some((e, size))
      ensures i + size <= |b| && Elements(b) == Prepend(seen + [e], Elements(b[i + size..]))
    {
      assert b[i..][size..] == b[i + size..];
      ghost var more := Elements(b[i + size..]);
      assert more.Some? ==> seen + ([e] + more.value) == (seen + [e]) + more.value;
    }

    lemma Stuck()
      requires Valid() && ReadTlv(b[i..]).None?
      ensures Elements(b).None? || Elements(b) == Some(seen)
    {
      if b[i..] == [] {
        assert seen + [] == seen;
      }
    }

    /** Reads one element of the wanted kind. */
    method ReadTag(want: Byte) returns (r: Option<Bytes>)
      requires Valid()
      modifies this
      ensures r.Some? ==> Valid() && seen == old(seen) + [Tlv(want, r.value)] && i > old(i)
      ensures r.None? ==> (Elements(b).None? || |Elements(b).value| <= |old(seen)|
                           || Elements(b).value[|old(seen)|].tag != want)
    {
      var e := Read();
      if e.None? {
        return None;
      }
      if e.value.tag != want {
        ghost var more := Elements(b[i..]);
        assert more.Some? ==> (seen + more.value)[|old(seen)|] == e.value;
        return None;
      }
      r := Some(e.value.val);
    }

    /** What was read stays how the bytes start. */
    lemma SoFar()
      requires Valid()
      ensures Elements(b).Some? ==> seen <= Elements(b).value
    {
    }

    /** At the end of the bytes the elements read are all there are. */
    lemma AtEnd()
      requires Valid() && !More()
      ensures Elements(b) == Some(seen)
    {
      assert b[i..] == [] && seen + [] == seen;
    }

    /** Before the end there is another element, or none can be read. */
    lemma NotAtEnd()
      requires Valid() && More()
      ensures Elements(b).Some? ==> |Elements(b).value| > |seen| && seen <= Elements(b).value
    {
      assert b[i..] != [];
    }
  }
}

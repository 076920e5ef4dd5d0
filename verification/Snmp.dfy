/**
  SNMP messages as lists of BER elements: what a trap or a GET response must consist of to be
  accepted, what it then says, and the traps this program builds itself. RFC 3416, sections
  4.2.4 and 4.2.6.
 */
module Snmp {
  import opened Base
  import opened Ber

  const TAG_INT: Byte := 0x02
  const TAG_OCTETS: Byte := 0x04
  const TAG_NULL: Byte := 0x05
  const TAG_OID: Byte := 0x06
  const TAG_SEQ: Byte := 0x30
  const TAG_IP: Byte := 0x40
  const TAG_COUNTER32: Byte := 0x41
  const TAG_GAUGE32: Byte := 0x42
  const TAG_TICKS: Byte := 0x43
  const TAG_COUNTER64: Byte := 0x46

  const PDU_GET: Byte := 0xA0
  const PDU_RESPONSE: Byte := 0xA2
  const PDU_V1_TRAP: Byte := 0xA4
  const PDU_INFORM: Byte := 0xA6
  const PDU_V2_TRAP: Byte := 0xA7

  const SYS_UPTIME: Oid := [1, 3, 6, 1, 2, 1, 1, 3, 0]
  const SNMP_TRAP_OID: Oid := [1, 3, 6, 1, 6, 3, 1, 1, 4, 1, 0]
  const GENERIC_TRAPS: Oid := [1, 3, 6, 1, 6, 3, 1, 1, 5]

  // ----- Values ----------------------------------------------------------------

  predicate NoSuch(tag: Byte) {
    tag == 0x80 || tag == 0x81 || tag == 0x82
  }

  predicate ValidValue(v: Tlv) {
    if v.tag == TAG_INT then DecInt(v.val).Some?
    else if v.tag == TAG_COUNTER32 || v.tag == TAG_GAUGE32 || v.tag == TAG_TICKS then UintFits(v.val, 4)
    else if v.tag == TAG_COUNTER64 then UintFits(v.val, 8)
    else if v.tag == TAG_NULL || NoSuch(v.tag) then v.val == []
    else if v.tag == TAG_OID then DecOid(v.val).Some?
    else if v.tag == TAG_IP then |v.val| == 4
    else true
  }

  datatype Shown =
    | Text(bytes: Bytes)
    | Name(oid: Oid)
    | Number(n: int)
    | Counted(tag: Byte, count: nat)
    | Ticks(ticks: nat)
    | Address(bytes: Bytes)
    | Nothing
    | Raw(tag: Byte, bytes: Bytes)

  /** A value as a trap shows it. */
  function ShowTrap(v: Tlv): Shown
    requires ValidValue(v)
  {
    if v.tag == TAG_OCTETS then Text(v.val)
    else if v.tag == TAG_OID then Name(DecOid(v.val).value)
    else if v.tag == TAG_INT then Number(DecInt(v.val).value)
    else if v.tag == TAG_COUNTER32 || v.tag == TAG_GAUGE32 || v.tag == TAG_COUNTER64 then
      if Unsigned(v.val) >= INT64 then Raw(v.tag, v.val) else Number(Unsigned(v.val))
    else if v.tag == TAG_TICKS then Ticks(Unsigned(v.val))
    else if v.tag == TAG_IP then Address(v.val)
    else if v.tag == TAG_NULL then Nothing
    else Raw(v.tag, v.val)
  }

  /** A value as a GET returns it: the kind of counter is kept, missing objects are null. */
  function ShowGet(v: Tlv): Shown
    requires ValidValue(v)
  {
    if v.tag == TAG_OCTETS then Text(v.val)
    else if v.tag == TAG_OID then Name(DecOid(v.val).value)
    else if v.tag == TAG_INT then Number(DecInt(v.val).value)
    else if v.tag == TAG_COUNTER32 || v.tag == TAG_GAUGE32 || v.tag == TAG_TICKS then Counted(v.tag, Unsigned(v.val))
    else if v.tag == TAG_COUNTER64 && Unsigned(v.val) < INT64 then Counted(v.tag, Unsigned(v.val))
    else if v.tag == TAG_NULL || NoSuch(v.tag) then Nothing
    else Raw(v.tag, v.val)
  }

  // ----- Variable bindings ---------------------------------------------------------

  datatype Binding = Binding(oid: Oid, value: Tlv)

  /** One binding: an identifier and a well-formed value, and nothing else. */
  function BindingOf(vb: Bytes): (r: Option<Binding>)
    ensures r.Some? ==> ValidValue(r.value.value)
  {
    match Elements(vb)
    case None => None
    case Some(es) =>
      if |es| == 2 && es[0].tag == TAG_OID && DecOid(es[0].val).Some? && ValidValue(es[1])
      then Some(Binding(DecOid(es[0].val).value, es[1]))
      else None
  }

  predicate AllValid(bs: seq<Binding>) {
    forall i :: 0 <= i < |bs| ==> ValidValue(bs[i].value)
  }

  function BindingsOf(es: seq<Tlv>): (r: Option<seq<Binding>>)
    ensures r.Some? ==> |r.value| == |es| && AllValid(r.value)
  {
    if es == [] then Some([])
    else
      var b := if es[0].tag == TAG_SEQ then BindingOf(es[0].val) else None;
      if b.None? then None else Prepend([b.value], BindingsOf(es[1..]))
  }

  function BindingList(vbl: Bytes): (r: Option<seq<Binding>>)
    ensures r.Some? ==> AllValid(r.value)
  {
    match Elements(vbl)
    case None => None
    case Some(es) => BindingsOf(es)
  }

  // ----- The envelope --------------------------------------------------------------

  datatype Envelope = Envelope(version: int, community: Bytes, pdu: Tlv)

  /** The three parts of a message: version, community, PDU. */
  function MessageOf(body: Bytes): Option<Envelope> {
    match Elements(body)
    case None => None
    case Some(es) =>
      if |es| == 3 && es[0].tag == TAG_INT && es[1].tag == TAG_OCTETS
         && (DecInt(es[0].val) == Some(0) || DecInt(es[0].val) == Some(1))
      then Some(Envelope(DecInt(es[0].val).value, es[1].val, es[2]))
      else None
  }

  function EnvelopeOf(data: Bytes): Option<Envelope> {
    match Elements(data)
    case None => None
    case Some(top) => if |top| == 1 && top[0].tag == TAG_SEQ then MessageOf(top[0].val) else None
  }

  // ----- Traps -------------------------------------------------------------------------

  datatype PduKind = V1Trap | V2Trap | Inform

  datatype Shot = Shot(oid: Oid, value: Shown)

  datatype Trap = Trap(community: Bytes, version: int, pdu: PduKind, oid: Option<Oid>, bindings: seq<Shot>)

  function Shots(bs: seq<Binding>): (r: seq<Shot>)
    requires AllValid(bs)
    ensures |r| == |bs|
  {
    seq(|bs|, i requires 0 <= i < |bs| => Shot(bs[i].oid, ShowTrap(bs[i].value)))
  }

  /** What the last snmpTrapOID binding of the right type names. */
  function TrapOidIn(ss: seq<Shot>): Option<Oid> {
    if ss == [] then None
    else
      var last := ss[|ss| - 1];
      if last.oid == SNMP_TRAP_OID && last.value.Name? then Some(last.value.oid) else TrapOidIn(ss[..|ss| - 1])
  }

  /** Version 2 traps and informs: request id, two zeros, bindings. */
  function V2Of(community: Bytes, kind: PduKind, body: Bytes): Option<Trap> {
    match Elements(body)
    case None => None
    case Some(es) =>
      if |es| == 4 && es[0].tag == TAG_INT && es[1].tag == TAG_INT && es[2].tag == TAG_INT && es[3].tag == TAG_SEQ
         && DecInt(es[0].val).Some? && DecInt(es[1].val) == Some(0) && DecInt(es[2].val) == Some(0)
         && BindingList(es[3].val).Some?
      then
        var shots := Shots(BindingList(es[3].val).value);
        Some(Trap(community, 1, kind, TrapOidIn(shots), shots))
      else None
  }

  /** A standard trap, or one of the enterprise's own. */
  function V1Oid(enterprise: Oid, generic: int, specific: int): Oid
    requires 0 <= generic <= 6 && 0 <= specific < INT64
  {
    if generic == 6 then enterprise + [0, specific] else GENERIC_TRAPS + [generic + 1]
  }

  /** Version 1 traps: enterprise, agent, generic and specific trap, time, bindings. */
  function V1Of(community: Bytes, body: Bytes): Option<Trap> {
    match Elements(body)
    case None => None
    case Some(es) =>
      if |es| == 6 && es[0].tag == TAG_OID && es[1].tag == TAG_IP && es[2].tag == TAG_INT && es[3].tag == TAG_INT
         && es[4].tag == TAG_TICKS && es[5].tag == TAG_SEQ
         && DecOid(es[0].val).Some? && |es[1].val| == 4 && DecInt(es[2].val).Some? && DecInt(es[3].val).Some?
         && ValidValue(es[4]) && BindingList(es[5].val).Some?
         && 0 <= DecInt(es[2].val).value <= 6 && 0 <= DecInt(es[3].val).value
      then
        DecIntBound(es[3].val);
        Some(Trap(community, 0, V1Trap, Some(V1Oid(DecOid(es[0].val).value, DecInt(es[2].val).value, DecInt(es[3].val).value)),
                  Shots(BindingList(es[5].val).value)))
      else None
  }

  lemma DecIntBound(b: Bytes)
    requires DecInt(b).Some?
    ensures -INT64 <= DecInt(b).value < INT64
  {
    UnsignedBound(b);
    TopByte(b);
    PowersGrow(|b|, 8);
    assert Pow256(2) == 256 * Pow256(1) && Pow256(4) == 256 * (256 * Pow256(2)) && Pow256(6) == 256 * (256 * Pow256(4));
    assert Pow256(8) == 256 * (256 * Pow256(6)) == 2 * INT64;
  }

  /** What a datagram says as a trap, if it is one: the whole of it has to be accounted for. */
  function TrapOf(data: Bytes): Option<Trap> {
    match EnvelopeOf(data)
    case None => None
    case Some(env) =>
      if env.pdu.tag == PDU_V1_TRAP then if env.version == 0 then V1Of(env.community, env.pdu.val) else None
      else if env.version != 1 then None
      else if env.pdu.tag == PDU_V2_TRAP then V2Of(env.community, V2Trap, env.pdu.val)
      else if env.pdu.tag == PDU_INFORM then V2Of(env.community, Inform, env.pdu.val)
      else None
  }

  // ----- GET responses -----------------------------------------------------------------

  datatype GetResponse = GetResponse(version: int, community: Bytes, id: int, status: int, index: int, values: map<Oid, Shown>)

  predicate DistinctOids(bs: seq<Binding>) {
    forall i, j :: 0 <= i < j < |bs| ==> bs[i].oid != bs[j].oid
  }

  function ValuesOf(bs: seq<Binding>): map<Oid, Shown>
    requires AllValid(bs)
  {
    if bs == [] then map[]
    else
      var last := bs[|bs| - 1];
      ValuesOf(bs[..|bs| - 1])[last.oid := ShowGet(last.value)]
  }

  function GetOf(data: Bytes): Option<GetResponse> {
    match EnvelopeOf(data)
    case None => None
    case Some(env) => if env.pdu.tag == PDU_RESPONSE then ResponseOf(env) else None
  }

  /** Request id, error status and index, and bindings that name no object twice. */
  function ResponseOf(env: Envelope): Option<GetResponse> {
    match Elements(env.pdu.val)
    case None => None
    case Some(es) =>
      if |es| == 4 && es[0].tag == TAG_INT && es[1].tag == TAG_INT && es[2].tag == TAG_INT && es[3].tag == TAG_SEQ
         && DecInt(es[0].val).Some? && DecInt(es[1].val).Some? && DecInt(es[2].val).Some?
         && 0 <= DecInt(es[1].val).value <= 18 && 0 <= DecInt(es[2].val).value
         && BindingList(es[3].val).Some? && DistinctOids(BindingList(es[3].val).value)
      then Some(GetResponse(env.version, env.community, DecInt(es[0].val).value, DecInt(es[1].val).value,
                            DecInt(es[2].val).value, ValuesOf(BindingList(es[3].val).value)))
      else None
  }

  function OidSet(bs: seq<Binding>): set<Oid> {
    set i | 0 <= i < |bs| :: bs[i].oid
  }

  lemma {:induction false} ValuesHaveTheOids(bs: seq<Binding>)
    requires AllValid(bs)
    ensures ValuesOf(bs).Keys == OidSet(bs)
  {
    hide ShowGet, ValidValue;
    if bs != [] {
      var init := bs[..|bs| - 1];
      ValuesHaveTheOids(init);
      assert OidSet(bs) == OidSet(init) + {bs[|bs| - 1].oid};
    }
  }

  /** Each binding of an accepted response is in the result under its own name, and nothing else is. */
  lemma {:induction false} ResponseKeepsEveryBinding(bs: seq<Binding>, i: nat)
    requires AllValid(bs) && DistinctOids(bs) && i < |bs|
    ensures ValuesOf(bs).Keys == OidSet(bs)
    ensures ValuesOf(bs)[bs[i].oid] == ShowGet(bs[i].value)
  {
    hide ShowGet, ValidValue;
    ValuesHaveTheOids(bs);
    if i < |bs| - 1 {
      ResponseKeepsEveryBinding(bs[..|bs| - 1], i);
      assert bs[i].oid != bs[|bs| - 1].oid;
    }
  }

  // ----- Nothing left over -----------------------------------------------------------

  ghost predicate IsTiled(b: Bytes, es: seq<Tlv>) {
    exists ps :: Tiles(ps, b, es)
  }

  /** An identifier and a value, and nothing else. */
  ghost predicate IsPair(b: Bytes) {
    exists name, value :: IsTiled(b, [Tlv(TAG_OID, name), value])
  }

  lemma {:induction false} BindingsArePairs(es: seq<Tlv>, i: nat)
    requires BindingsOf(es).Some? && i < |es|
    ensures es[i].tag == TAG_SEQ && IsPair(es[i].val)
  {
    hide ValidValue;
    if i > 0 {
      BindingsArePairs(es[1..], i - 1);
    } else {
      var pair := Elements(es[0].val).value;
      AcceptedIffTiled(es[0].val, pair);
      assert pair == [Tlv(TAG_OID, pair[0].val), pair[1]];
    }
  }

  lemma EnvelopeTiles(data: Bytes) returns (body: Bytes, parts: seq<Tlv>)
    requires EnvelopeOf(data).Some?
    ensures IsTiled(data, [Tlv(TAG_SEQ, body)]) && IsTiled(body, parts)
    ensures |parts| == 3 && parts[2] == EnvelopeOf(data).value.pdu
  {
    body := Elements(data).value[0].val;
    parts := Elements(body).value;
    AcceptedIffTiled(data, Elements(data).value);
    assert Elements(data).value == [Tlv(TAG_SEQ, body)];
    AcceptedIffTiled(body, parts);
  }

  lemma ListTiles(vbl: Bytes) returns (list: seq<Tlv>)
    requires BindingList(vbl).Some?
    ensures IsTiled(vbl, list)
    ensures forall i :: 0 <= i < |list| ==> IsPair(list[i].val)
  {
    list := Elements(vbl).value;
    AcceptedIffTiled(vbl, list);
    forall i | 0 <= i < |list| ensures IsPair(list[i].val) {
      BindingsArePairs(list, i);
    }
  }

  /**
    In an accepted trap, at every level, the elements make up the whole of what contains them:
    message, its three parts, the PDU's fields, the list of bindings, and each binding.
   */
  lemma TrapIsTiled(data: Bytes) returns (body: Bytes, parts: seq<Tlv>, fields: seq<Tlv>, list: seq<Tlv>)
    requires TrapOf(data).Some?
    ensures IsTiled(data, [Tlv(TAG_SEQ, body)]) && IsTiled(body, parts) && |parts| == 3
    ensures IsTiled(parts[2].val, fields) && |fields| == if parts[2].tag == PDU_V1_TRAP then 6 else 4
    ensures IsTiled(fields[|fields| - 1].val, list)
    ensures forall i :: 0 <= i < |list| ==> IsPair(list[i].val)
  {
    hide BindingList, IsTiled, DecInt, DecOid, ValidValue, EnvelopeOf, Shots, TrapOidIn;
    body, parts := EnvelopeTiles(data);
    fields := WholeTiled(parts[2].val);
    list := ListTiles(fields[|fields| - 1].val);
  }

  lemma WholeTiled(b: Bytes) returns (es: seq<Tlv>)
    requires Elements(b).Some?
    ensures Elements(b) == Some(es) && IsTiled(b, es)
  {
    es := Elements(b).value;
    AcceptedIffTiled(b, es);
  }

  /** The same for an accepted GET response, which moreover has no object twice. */
  lemma ResponseIsTiled(data: Bytes) returns (body: Bytes, parts: seq<Tlv>, fields: seq<Tlv>, list: seq<Tlv>)
    requires GetOf(data).Some?
    ensures IsTiled(data, [Tlv(TAG_SEQ, body)]) && IsTiled(body, parts) && |parts| == 3
    ensures IsTiled(parts[2].val, fields) && |fields| == 4 && IsTiled(fields[3].val, list)
    ensures forall i :: 0 <= i < |list| ==> IsPair(list[i].val)
    ensures BindingsOf(list).Some? && DistinctOids(BindingsOf(list).value) && |GetOf(data).value.values| == |list|
  {
    hide IsTiled, DecInt, ValidValue, EnvelopeOf, BindingsOf, DistinctOids, ValuesOf, OidSet;
    body, parts := EnvelopeTiles(data);
    fields := WholeTiled(parts[2].val);
    var bs := BindingList(fields[3].val).value;
    list := Elements(fields[3].val).value;
    assert BindingsOf(list) == Some(bs);
    EachOnce(bs);
    TiledIs(fields[3].val, list);
    forall i | 0 <= i < |list| ensures IsPair(list[i].val) {
      BindingsArePairs(list, i);
    }
  }

  lemma TiledIs(b: Bytes, es: seq<Tlv>)
    requires Elements(b) == Some(es)
    ensures IsTiled(b, es)
  {
    AcceptedIffTiled(b, es);
  }

  lemma {:induction false} EachOnce(bs: seq<Binding>)
    requires AllValid(bs) && DistinctOids(bs)
    ensures |ValuesOf(bs)| == |bs|
  {
    hide ShowGet, ValidValue;
    if bs != [] {
      var init := bs[..|bs| - 1];
      EachOnce(init);
      ValuesHaveTheOids(init);
      assert bs[|bs| - 1].oid !in OidSet(init);
      assert ValuesOf(bs).Keys == ValuesOf(init).Keys + {bs[|bs| - 1].oid};
      assert |ValuesOf(bs)| == |ValuesOf(bs).Keys| && |ValuesOf(init)| == |ValuesOf(init).Keys|;
    }
  }
}

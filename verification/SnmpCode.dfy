/** The decoders as they read a datagram with cursors, and the builders, each against what it should do. */
module SnmpCode {
  import opened Base
  import opened Ber
  import opened BerCode
  import opened Snmp
  import opened SnmpTraps

  // ----- Reading ---------------------------------------------------------------

  method OpenEnvelope(data: Bytes) returns (r: Option<Envelope>)
    ensures r == EnvelopeOf(data)
  {
    hide Elements, DecInt;
    var top := new Reader(data);
    var body := top.ReadTag(TAG_SEQ);
    if body.None? {
      return None;
    }
    if top.More() {
      top.NotAtEnd();
      return None;
    }
    top.AtEnd();
    r := OpenMessage(body.value);
  }

  method OpenMessage(body: Bytes) returns (r: Option<Envelope>)
    ensures r == MessageOf(body)
  {
    hide Elements, DecInt;
    var c := new Reader(body);
    var ver := c.ReadTag(TAG_INT);
    if ver.None? {
      return None;
    }
    var version := DecodeInt(ver.value);
    c.SoFar();
    if version != Some(0) && version != Some(1) {
      return None;
    }
    var community := c.ReadTag(TAG_OCTETS);
    if community.None? {
      return None;
    }
    var pdu := c.Read();
    if pdu.None? {
      return None;
    }
    if c.More() {
      c.NotAtEnd();
      return None;
    }
    c.AtEnd();
    r := Some(Envelope(version.value, community.value, pdu.value));
  }

  method ReadBinding(vb: Bytes) returns (r: Option<Binding>)
    ensures r == BindingOf(vb)
  {
    hide Elements, ValidValue, DecOid;
    var c := new Reader(vb);
    var o := c.ReadTag(TAG_OID);
    if o.None? {
      return None;
    }
    var v := c.Read();
    if v.None? {
      return None;
    }
    var oid := DecodeOid(o.value);
    c.SoFar();
    if oid.None? {
      return None;
    }
    if c.More() {
      c.NotAtEnd();
      return None;
    }
    c.AtEnd();
    if !ValidValue(v.value) {
      return None;
    }
    r := Some(Binding(oid.value, v.value));
  }

  lemma {:induction false} BindingsAppend(a: seq<Tlv>, b: seq<Tlv>)
    ensures BindingsOf(a + b) ==
            if BindingsOf(a).None? then None else Prepend(BindingsOf(a).value, BindingsOf(b))
  {
    hide BindingOf;
    if a == [] {
      assert a + b == b;
      assert BindingsOf(b).Some? ==> [] + BindingsOf(b).value == BindingsOf(b).value;
    } else {
      assert (a + b)[1..] == a[1..] + b;
      BindingsAppend(a[1..], b);
      if BindingsOf(a).Some? && BindingsOf(b).Some? {
        var first, rest := BindingOf(a[0].val).value, BindingsOf(a[1..]).value;
        assert [first] + (rest + BindingsOf(b).value) == ([first] + rest) + BindingsOf(b).value;
      }
    }
  }

  lemma OneBinding(e: Tlv)
    ensures BindingsOf([e]) == if e.tag == TAG_SEQ && BindingOf(e.val).Some? then Some([BindingOf(e.val).value]) else None
  {
    assert BindingsOf([e][1..]) == Some([]);
    if BindingOf(e.val).Some? { assert [BindingOf(e.val).value] + [] == [BindingOf(e.val).value]; }
  }

  /** A list with one bad element is refused as a whole. */
  lemma BadBinding(es: seq<Tlv>, k: nat)
    requires k < |es| && (es[k].tag != TAG_SEQ || BindingOf(es[k].val).None?)
    ensures BindingsOf(es).None?
  {
    hide BindingsOf, BindingOf;
    assert es == es[..k] + ([es[k]] + es[k + 1..]);
    BindingsAppend(es[..k], [es[k]] + es[k + 1..]);
    BindingsAppend([es[k]], es[k + 1..]);
    OneBinding(es[k]);
  }

  method ReadBindings(vbl: Bytes) returns (r: Option<seq<Binding>>)
    ensures r == BindingList(vbl)
  {
    hide Elements, BindingsOf, BindingOf;
    var c := new Reader(vbl);
    var out: seq<Binding> := [];
    NoBindingsYet();
    while c.More()
      invariant c.Valid() && BindingsOf(c.seen) == Some(out)
      decreases |vbl| - c.i
    {
      c.NotAtEnd();
      ghost var seen, i := c.seen, c.i;
      var vb := c.ReadTag(TAG_SEQ);
      if vb.None? {
        if Elements(vbl).Some? { BadBinding(Elements(vbl).value, |seen|); }
        return None;
      }
      c.SoFar();
      var one := ReadBinding(vb.value);
      if one.None? {
        if Elements(vbl).Some? { BadBinding(Elements(vbl).value, |seen|); }
        return None;
      }
      BindingsAppend(seen, [Tlv(TAG_SEQ, vb.value)]);
      OneBinding(Tlv(TAG_SEQ, vb.value));
      out := out + [one.value];
    }
    c.AtEnd();
    r := Some(out);
  }

  lemma NoBindingsYet()
    ensures BindingsOf([]) == Some([])
  {
  }

  /** The request id and the two numbers behind it. */
  method ReadHeader(c: Reader) returns (r: Option<(Bytes, Bytes, Bytes)>)
    requires c.Valid() && c.seen == []
    modifies c
    ensures r.Some? ==> c.Valid() && c.seen == [Tlv(TAG_INT, r.value.0), Tlv(TAG_INT, r.value.1), Tlv(TAG_INT, r.value.2)]
    ensures r.None? ==> (Elements(c.b).Some? ==> var es := Elements(c.b).value;
                         |es| < 3 || es[0].tag != TAG_INT || es[1].tag != TAG_INT || es[2].tag != TAG_INT)
  {
    hide Elements;
    var x := c.ReadTag(TAG_INT);
    if x.None? {
      return None;
    }
    var y := c.ReadTag(TAG_INT);
    if y.None? {
      return None;
    }
    var z := c.ReadTag(TAG_INT);
    if z.None? {
      return None;
    }
    r := Some((x.value, y.value, z.value));
  }

  method DecodeV2(community: Bytes, kind: PduKind, body: Bytes) returns (r: Option<Trap>)
    ensures r == V2Of(community, kind, body)
  {
    hide Elements, DecInt, BindingList, Shots, TrapOidIn, ValidValue;
    var c := new Reader(body);
    var header := ReadHeader(c);
    if header.None? {
      return None;
    }
    var (x, y, z) := header.value;
    c.SoFar();
    var id := DecodeInt(x);
    var status := DecodeInt(y);
    var index := DecodeInt(z);
    if id.None? || status != Some(0) || index != Some(0) {
      return None;
    }
    var vbl := c.ReadTag(TAG_SEQ);
    if vbl.None? {
      return None;
    }
    if c.More() {
      c.NotAtEnd();
      return None;
    }
    c.AtEnd();
    var bindings := ReadBindings(vbl.value);
    if bindings.None? {
      return None;
    }
    var shots := Shots(bindings.value);
    var name := FindTrapOid(shots);
    r := Some(Trap(community, 1, kind, name, shots));
  }

  /** The last binding that names a trap wins. */
  method FindTrapOid(shots: seq<Shot>) returns (name: Option<Oid>)
    ensures name == TrapOidIn(shots)
  {
    name := None;
    for i := 0 to |shots|
      invariant name == TrapOidIn(shots[..i])
    {
      assert shots[..i + 1][..i] == shots[..i];
      if shots[i].oid == SNMP_TRAP_OID && shots[i].value.Name? {
        name := Some(shots[i].value.oid);
      }
    }
    assert shots[..|shots|] == shots;
  }

  /** The first five fields of a version 1 trap. */
  method ReadV1Header(c: Reader) returns (r: Option<(Bytes, Bytes, Bytes, Bytes, Bytes)>)
    requires c.Valid() && c.seen == []
    modifies c
    ensures r.Some? ==> c.Valid() && c.seen == [Tlv(TAG_OID, r.value.0), Tlv(TAG_IP, r.value.1), Tlv(TAG_INT, r.value.2),
                                                Tlv(TAG_INT, r.value.3), Tlv(TAG_TICKS, r.value.4)]
    ensures r.None? ==> (Elements(c.b).Some? ==> var es := Elements(c.b).value;
                         |es| < 5 || es[0].tag != TAG_OID || es[1].tag != TAG_IP || es[2].tag != TAG_INT
                         || es[3].tag != TAG_INT || es[4].tag != TAG_TICKS)
  {
    hide Elements;
    var ent := c.ReadTag(TAG_OID);
    if ent.None? {
      return None;
    }
    var addr := c.ReadTag(TAG_IP);
    if addr.None? {
      return None;
    }
    var gen := c.ReadTag(TAG_INT);
    if gen.None? {
      return None;
    }
    var spec := c.ReadTag(TAG_INT);
    if spec.None? {
      return None;
    }
    var ticks := c.ReadTag(TAG_TICKS);
    if ticks.None? {
      return None;
    }
    r := Some((ent.value, addr.value, gen.value, spec.value, ticks.value));
  }

  method DecodeV1(community: Bytes, body: Bytes) returns (r: Option<Trap>)
    ensures r == V1Of(community, body)
  {
    hide Elements, DecInt, DecOid, BindingList, Shots, ValidValue;
    var c := new Reader(body);
    var header := ReadV1Header(c);
    if header.None? {
      return None;
    }
    var (ent, addr, gen, spec, ticks) := header.value;
    c.SoFar();
    var enterprise := DecodeOid(ent);
    if enterprise.None? || |addr| != 4 || !ValidValue(Tlv(TAG_TICKS, ticks)) {
      return None;
    }
    var vbl := c.ReadTag(TAG_SEQ);
    if vbl.None? {
      return None;
    }
    c.SoFar();
    var bindings := ReadBindings(vbl.value);
    if bindings.None? {
      return None;
    }
    if c.More() {
      c.NotAtEnd();
      return None;
    }
    c.AtEnd();
    var generic := DecodeInt(gen);
    var specific := DecodeInt(spec);
    if generic.None? || generic.value < 0 || generic.value > 6 || specific.None? || specific.value < 0 {
      return None;
    }
    DecIntBound(spec);
    r := Some(Trap(community, 0, V1Trap, Some(V1Oid(enterprise.value, generic.value, specific.value)), Shots(bindings.value)));
  }

  /** A datagram is a trap exactly when its elements account for all of it. */
  method DecodeTrap(data: Bytes) returns (r: Option<Trap>)
    ensures r == TrapOf(data)
  {
    hide EnvelopeOf, V1Of, V2Of;
    var env := OpenEnvelope(data);
    if env.None? {
      return None;
    }
    var Envelope(version, community, pdu) := env.value;
    if (pdu.tag == PDU_V1_TRAP && version != 0) || (pdu.tag != PDU_V1_TRAP && version != 1) {
      return None;
    }
    if pdu.tag == PDU_V2_TRAP || pdu.tag == PDU_INFORM {
      r := DecodeV2(community, if pdu.tag == PDU_V2_TRAP then V2Trap else Inform, pdu.val);
    } else if pdu.tag == PDU_V1_TRAP {
      r := DecodeV1(community, pdu.val);
    } else {
      r := None;
    }
  }

  method DecodeGetResponse(data: Bytes) returns (r: Option<GetResponse>)
    ensures r == GetOf(data)
  {
    hide EnvelopeOf, ResponseOf;
    var env := OpenEnvelope(data);
    if env.None? || env.value.pdu.tag != PDU_RESPONSE {
      return None;
    }
    r := DecodeResponse(env.value);
  }

  method DecodeResponse(env: Envelope) returns (r: Option<GetResponse>)
    ensures r == ResponseOf(env)
  {
    hide Elements, DecInt, BindingList, ValidValue, ValuesOf, DistinctOids;
    var c := new Reader(env.pdu.val);
    var header := ReadHeader(c);
    if header.None? {
      return None;
    }
    var (x, y, z) := header.value;
    c.SoFar();
    var id := DecodeInt(x);
    var status := DecodeInt(y);
    var index := DecodeInt(z);
    if id.None? || status.None? || index.None? || status.value < 0 || status.value > 18 || index.value < 0 {
      return None;
    }
    var vbl := c.ReadTag(TAG_SEQ);
    if vbl.None? {
      return None;
    }
    if c.More() {
      c.NotAtEnd();
      return None;
    }
    c.AtEnd();
    var bindings := ReadBindings(vbl.value);
    if bindings.None? {
      return None;
    }
    var values := CollectValues(bindings.value);
    if values.None? {
      return None;
    }
    r := Some(GetResponse(env.version, env.community, id.value, status.value, index.value, values.value));
  }

  /** The values by identifier; a second value for one identifier refuses them all. */
  method CollectValues(bs: seq<Binding>) returns (r: Option<map<Oid, Shown>>)
    requires AllValid(bs)
    ensures r == if DistinctOids(bs) then Some(ValuesOf(bs)) else None
  {
    hide ValidValue, ShowGet, DistinctOids, ValuesOf, OidSet;
    var values: map<Oid, Shown> := map[];
    NoValues();
    for i := 0 to |bs|
      invariant DistinctOids(bs[..i]) && values == ValuesOf(bs[..i])
    {
      ValuesHaveTheOids(bs[..i]);
      NextOid(bs, i);
      if bs[i].oid in values {
        return None;
      }
      values := values[bs[i].oid := ShowGet(bs[i].value)];
    }
    assert bs[..|bs|] == bs;
    r := Some(values);
  }

  lemma NoValues()
    ensures DistinctOids([]) && ValuesOf([]) == map[]
  {
  }

  /** The next binding keeps the identifiers distinct exactly when its own is new. */
  lemma NextOid(bs: seq<Binding>, i: nat)
    requires i < |bs| && AllValid(bs) && DistinctOids(bs[..i])
    ensures bs[i].oid in OidSet(bs[..i]) ==> !DistinctOids(bs)
    ensures bs[i].oid !in OidSet(bs[..i]) ==> DistinctOids(bs[..i + 1])
    ensures ValuesOf(bs[..i + 1]) == ValuesOf(bs[..i])[bs[i].oid := ShowGet(bs[i].value)]
  {
    hide ValidValue, ShowGet;
    var init := bs[..i];
    assert bs[..i + 1][..i] == init;
    assert forall j :: 0 <= j < i ==> init[j] == bs[j] && init[j].oid in OidSet(init);
    if bs[i].oid in OidSet(init) {
      var j :| 0 <= j < i && init[j].oid == bs[i].oid;
      assert bs[j].oid == bs[i].oid;
    }
  }

  // ----- Building ------------------------------------------------------------------

  method EncodeTlv(e: Tlv) returns (out: Bytes)
    ensures out == EncTlv(e)
  {
    var len := EncodeLength(|e.val|);
    out := [e.tag] + len + e.val;
  }

  method EncodeInt(n: Int64) returns (out: Bytes)
    ensures out == EncTlv(IntTlv(n))
  {
    var body: Bytes := [0];
    if n != 0 {
      body := EncodeSigned(n);
    } else {
      ZeroIsOneByte();
    }
    out := EncodeTlv(Tlv(TAG_INT, body));
  }

  lemma {:induction false} StripZeros(k: nat)
    ensures Strip(Zeros(k) + [0]) == [0]
  {
    if k > 0 {
      assert (Zeros(k) + [0])[1..] == Zeros(k - 1) + [0];
      StripZeros(k - 1);
    } else {
      assert Zeros(0) + [0] == [0];
    }
  }

  lemma ZeroIsOneByte()
    ensures SignedBytes(0) == [0]
  {
    assert Word(0) == Zeros(7) + [0];
    StripZeros(7);
  }

  method EncodeValue(v: InValue) returns (r: Option<Bytes>)
    ensures r == if EncValue(v).Some? then Some(EncTlv(EncValue(v).value)) else None
  {
    match v {
      case StrIn(text) =>
        var b := EncodeTlv(Tlv(TAG_OCTETS, text));
        r := Some(b);
      case OidIn(name) =>
        r := EncodeOidTlv(name);
      case IntIn(n) =>
        var b := EncodeInt(n);
        r := Some(b);
      case TicksIn(t) =>
        var raw := EncodeUnsigned(t % UINT64);
        var b := EncodeTlv(Tlv(TAG_TICKS, raw));
        r := Some(b);
    }
  }

  method EncodeOidTlv(oid: Oid) returns (r: Option<Bytes>)
    ensures r == if EncOid(oid).Some? then Some(EncTlv(Tlv(TAG_OID, EncOid(oid).value))) else None
  {
    var body := EncodeOid(oid);
    if body.None? {
      return None;
    }
    var b := EncodeTlv(Tlv(TAG_OID, body.value));
    r := Some(b);
  }

  method EncodeBinding(b: InBinding) returns (r: Option<Bytes>)
    ensures r == if EncBinding(b).Some? then Some(EncTlv(EncBinding(b).value)) else None
  {
    var value := EncodeValue(b.value);
    if value.None? {
      return None;
    }
    var name := EncodeOidTlv(b.oid);
    if name.None? {
      return None;
    }
    EncTwo(Tlv(TAG_OID, EncOid(b.oid).value), EncValue(b.value).value);
    var out := EncodeTlv(Tlv(TAG_SEQ, name.value + value.value));
    r := Some(out);
  }

  lemma EncTwo(a: Tlv, b: Tlv)
    ensures EncAll([a, b]) == EncTlv(a) + EncTlv(b)
  {
    EncAllAppend([], a);
    EncAllAppend([a], b);
    assert [] + [a] == [a] && [a] + [b] == [a, b] && [] + EncTlv(a) == EncTlv(a);
  }

  lemma {:induction false} EncAllAppend(es: seq<Tlv>, e: Tlv)
    ensures EncAll(es + [e]) == EncAll(es) + EncTlv(e)
  {
    if es == [] {
      assert [] + [e] == [e] && [e][1..] == [];
      assert EncTlv(e) + [] == EncTlv(e) && [] + EncTlv(e) == EncTlv(e);
    } else {
      assert (es + [e])[1..] == es[1..] + [e];
      EncAllAppend(es[1..], e);
      assert EncTlv(es[0]) + (EncAll(es[1..]) + EncTlv(e)) == (EncTlv(es[0]) + EncAll(es[1..])) + EncTlv(e);
    }
  }

  lemma {:induction false} EncBindingsAppend(bs: seq<InBinding>, b: InBinding)
    ensures EncBindings(bs + [b]) ==
            if EncBindings(bs).None? || EncBinding(b).None? then None
            else Some(EncBindings(bs).value + [EncBinding(b).value])
  {
    hide EncBinding;
    if bs == [] {
      assert [] + [b] == [b] && [b][1..] == [];
      if EncBinding(b).Some? {
        var e := EncBinding(b).value;
        assert [e] + [] == [e] && [] + [e] == [e];
      }
    } else {
      assert (bs + [b])[1..] == bs[1..] + [b];
      EncBindingsAppend(bs[1..], b);
      if EncBindings(bs).Some? && EncBinding(b).Some? {
        var first, rest := EncBinding(bs[0]).value, EncBindings(bs[1..]).value;
        assert [first] + (rest + [EncBinding(b).value]) == ([first] + rest) + [EncBinding(b).value];
      }
    }
  }

  lemma {:induction false} BadBindings(bs: seq<InBinding>, k: nat)
    requires k < |bs| && EncBinding(bs[k]).None?
    ensures EncBindings(bs).None?
  {
    if k > 0 { BadBindings(bs[1..], k - 1); }
  }

  /** The bindings one after the other. */
  method EncodeBindings(bs: seq<InBinding>) returns (r: Option<Bytes>)
    ensures r == if EncBindings(bs).Some? then Some(EncAll(EncBindings(bs).value)) else None
  {
    hide EncBinding, EncTlv, EncAll, EncBindings;
    var out: Bytes := [];
    NothingEncoded();
    for i := 0 to |bs|
      invariant EncBindings(bs[..i]).Some? && out == EncAll(EncBindings(bs[..i]).value)
    {
      var one := EncodeBinding(bs[i]);
      if one.None? {
        BadBindings(bs, i);
        return None;
      }
      assert bs[..i + 1] == bs[..i] + [bs[i]];
      EncBindingsAppend(bs[..i], bs[i]);
      EncAllAppend(EncBindings(bs[..i]).value, EncBinding(bs[i]).value);
      out := out + one.value;
    }
    assert bs[..|bs|] == bs;
    r := Some(out);
  }

  lemma NothingEncoded()
    ensures EncBindings([]) == Some([]) && EncAll([]) == []
  {
  }

  /** A PDU with its message around it. */
  method EncodeMessage(community: Bytes, tag: Byte, id: Int64, bindings: Bytes) returns (out: Bytes)
    ensures forall es :: EncAll(es) == bindings ==> out == EncTlv(Tlv(TAG_SEQ, MessageBody(community, tag, id, es)))
  {
    var first := EncodeInt(id);
    var zero := EncodeInt(0);
    var list := EncodeTlv(Tlv(TAG_SEQ, bindings));
    var pdu := EncodeTlv(Tlv(tag, first + zero + zero + list));
    var version := EncodeInt(1);
    var name := EncodeTlv(Tlv(TAG_OCTETS, community));
    EncFour(IntTlv(id), IntTlv(0), IntTlv(0), Tlv(TAG_SEQ, bindings));
    EncThree(IntTlv(1), Tlv(TAG_OCTETS, community), Tlv(tag, first + zero + zero + list));
    out := EncodeTlv(Tlv(TAG_SEQ, version + name + pdu));
  }

  lemma EncThree(a: Tlv, b: Tlv, c: Tlv)
    ensures EncAll([a, b, c]) == EncTlv(a) + EncTlv(b) + EncTlv(c)
  {
    EncTwo(a, b);
    EncAllAppend([a, b], c);
    assert [a, b] + [c] == [a, b, c];
  }

  lemma EncFour(a: Tlv, b: Tlv, c: Tlv, d: Tlv)
    ensures EncAll([a, b, c, d]) == EncTlv(a) + EncTlv(b) + EncTlv(c) + EncTlv(d)
  {
    EncThree(a, b, c);
    EncAllAppend([a, b, c], d);
    assert [a, b, c] + [d] == [a, b, c, d];
  }

  /** A version 2 trap; every one starts with sysUpTime and snmpTrapOID. */
  method BuildV2cTrap(community: Bytes, trapOid: Oid, bs: seq<InBinding>, uptime: Int64) returns (r: Option<Bytes>)
    ensures r == Built(community, trapOid, bs, uptime)
  {
    hide EncBindings, EncAll, EncTlv, MessageBody;
    var bindings := EncodeBindings(WithHeader(trapOid, bs, uptime));
    if bindings.None? {
      return None;
    }
    var out := EncodeMessage(community, PDU_V2_TRAP, 1, bindings.value);
    r := Some(out);
  }

  lemma {:induction false} AskBindingsAppend(oids: seq<Oid>, oid: Oid)
    ensures AskBindings(oids + [oid]) ==
            if AskBindings(oids).None? || AskBinding(oid).None? then None
            else Some(AskBindings(oids).value + [AskBinding(oid).value])
  {
    hide AskBinding;
    if oids == [] {
      assert [] + [oid] == [oid] && [oid][1..] == [];
      if AskBinding(oid).Some? {
        var e := AskBinding(oid).value;
        assert [e] + [] == [e] && [] + [e] == [e];
      }
    } else {
      assert (oids + [oid])[1..] == oids[1..] + [oid];
      AskBindingsAppend(oids[1..], oid);
      if AskBindings(oids).Some? && AskBinding(oid).Some? {
        var first, rest := AskBinding(oids[0]).value, AskBindings(oids[1..]).value;
        assert [first] + (rest + [AskBinding(oid).value]) == ([first] + rest) + [AskBinding(oid).value];
      }
    }
  }

  lemma {:induction false} BadAsk(oids: seq<Oid>, k: nat)
    requires k < |oids| && AskBinding(oids[k]).None?
    ensures AskBindings(oids).None?
  {
    if k > 0 { BadAsk(oids[1..], k - 1); }
  }

  lemma NothingAsked()
    ensures AskBindings([]) == Some([]) && EncAll([]) == []
  {
  }

  /** One request for several objects. */
  method BuildGetRequest(id: Int64, community: Bytes, oids: seq<Oid>) returns (r: Option<Bytes>)
    ensures r == Request(id, community, oids)
  {
    hide AskBinding, AskBindings, EncAll, EncTlv, MessageBody;
    var vbs: Bytes := [];
    NothingAsked();
    for i := 0 to |oids|
      invariant AskBindings(oids[..i]).Some? && vbs == EncAll(AskBindings(oids[..i]).value)
    {
      var one := EncodeAsk(oids[i]);
      if one.None? {
        BadAsk(oids, i);
        return None;
      }
      assert oids[..i + 1] == oids[..i] + [oids[i]];
      AskBindingsAppend(oids[..i], oids[i]);
      EncAllAppend(AskBindings(oids[..i]).value, AskBinding(oids[i]).value);
      vbs := vbs + one.value;
    }
    assert oids[..|oids|] == oids;
    var out := EncodeMessage(community, PDU_GET, id, vbs);
    r := Some(out);
  }

  method EncodeAsk(oid: Oid) returns (r: Option<Bytes>)
    ensures r == if AskBinding(oid).Some? then Some(EncTlv(AskBinding(oid).value)) else None
  {
    var name := EncodeOidTlv(oid);
    if name.None? {
      return None;
    }
    var empty := EncodeTlv(Tlv(TAG_NULL, []));
    EncTwo(Tlv(TAG_OID, EncOid(oid).value), Tlv(TAG_NULL, []));
    var out := EncodeTlv(Tlv(TAG_SEQ, name.value + empty));
    r := Some(out);
  }
}

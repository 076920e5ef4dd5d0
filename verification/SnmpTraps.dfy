/** Building version 2 traps, and reading them back. */
module SnmpTraps {
  import opened Base
  import opened Ber
  import opened Snmp

  type Int64 = n: int | -INT64 <= n < INT64

  datatype InValue = StrIn(text: Bytes) | OidIn(name: Oid) | IntIn(n: Int64) | TicksIn(t: Int64)

  datatype InBinding = InBinding(oid: Oid, value: InValue)

  // ----- What is built -----------------------------------------------------------

  function IntTlv(n: Int64): Tlv {
    Tlv(TAG_INT, SignedBytes(n))
  }

  /** Tick counts are taken as 64-bit words: a negative one becomes huge. */
  function EncValue(v: InValue): Option<Tlv> {
    match v
    case StrIn(text) => Some(Tlv(TAG_OCTETS, text))
    case OidIn(name) => if EncOid(name).Some? then Some(Tlv(TAG_OID, EncOid(name).value)) else None
    case IntIn(n) => Some(IntTlv(n))
    case TicksIn(t) => Some(Tlv(TAG_TICKS, UintRaw(t % UINT64)))
  }

  function EncBinding(b: InBinding): Option<Tlv> {
    if EncValue(b.value).None? || EncOid(b.oid).None? then None
    else Some(Tlv(TAG_SEQ, EncAll([Tlv(TAG_OID, EncOid(b.oid).value), EncValue(b.value).value])))
  }

  function EncBindings(bs: seq<InBinding>): (r: Option<seq<Tlv>>)
    ensures r.Some? ==> |r.value| == |bs|
  {
    if bs == [] then Some([])
    else if EncBinding(bs[0]).None? then None
    else Prepend([EncBinding(bs[0]).value], EncBindings(bs[1..]))
  }

  /** The two bindings every trap starts with. */
  function WithHeader(trapOid: Oid, bs: seq<InBinding>, uptime: Int64): seq<InBinding> {
    [InBinding(SYS_UPTIME, TicksIn(uptime)), InBinding(SNMP_TRAP_OID, OidIn(trapOid))] + bs
  }

  function PduBody(id: Int64, bindings: seq<Tlv>): Bytes {
    EncAll([IntTlv(id), IntTlv(0), IntTlv(0), Tlv(TAG_SEQ, EncAll(bindings))])
  }

  function MessageBody(community: Bytes, tag: Byte, id: Int64, bindings: seq<Tlv>): Bytes {
    EncAll([IntTlv(1), Tlv(TAG_OCTETS, community), Tlv(tag, PduBody(id, bindings))])
  }

  function Built(community: Bytes, trapOid: Oid, bs: seq<InBinding>, uptime: Int64): Option<Bytes> {
    match EncBindings(WithHeader(trapOid, bs, uptime))
    case None => None
    case Some(es) => Some(EncTlv(Tlv(TAG_SEQ, MessageBody(community, PDU_V2_TRAP, 1, es))))
  }

  // ----- What should be read -------------------------------------------------------

  function Expected(b: InBinding): Shot {
    match b.value
    case StrIn(text) => Shot(b.oid, Text(text))
    case OidIn(name) => Shot(b.oid, Name(name))
    case IntIn(n) => Shot(b.oid, Number(n))
    case TicksIn(t) => Shot(b.oid, Ticks(if t < 0 then 0 else t))
  }

  function ExpectedAll(bs: seq<InBinding>): (ss: seq<Shot>)
    ensures |ss| == |bs|
  {
    seq(|bs|, i requires 0 <= i < |bs| => Expected(bs[i]))
  }

  /** Second arcs below 40, and 32-bit tick counts. */
  predicate Faithful(b: InBinding) {
    && |b.oid| >= 2 && b.oid[1] < 40
    && (b.value.OidIn? ==> |b.value.name| >= 2 && b.value.name[1] < 40)
    && (b.value.TicksIn? ==> 0 <= b.value.t < UINT32)
  }

  predicate AllFaithful(bs: seq<InBinding>) {
    forall i :: 0 <= i < |bs| ==> Faithful(bs[i])
  }

  lemma OneIsAnElement()
    ensures DecInt(IntTlv(1).val) == Some(1) && DecInt(IntTlv(0).val) == Some(0)
  {
    IntRoundTrip(1);
    IntRoundTrip(0);
  }

  /** The value of a binding is read as meant exactly when it is faithful. */
  lemma ValueRoundTrip(oid: Oid, v: InValue)
    requires EncValue(v).Some?
    ensures var e := EncValue(v).value;
      (ValidValue(e) && ShowTrap(e) == Expected(InBinding(oid, v)).value)
      <==> ((v.OidIn? ==> v.name[1] < 40) && (v.TicksIn? ==> 0 <= v.t < UINT32))
    ensures v.OidIn? ==> |v.name| >= 2
  {
    hide DecInt, SignedBytes, DecOid, UintRaw, UintFits, Unsigned;
    match v
    case StrIn(_) =>
    case OidIn(name) => OidRoundTrip(name);
    case IntIn(n) => IntRoundTrip(n);
    case TicksIn(t) => UintRoundTrip(t % UINT64);
  }

  lemma PairRoundTrip(a: Tlv, b: Tlv)
    requires |EncAll([a, b])| < UINT32
    ensures Elements(EncAll([a, b])) == Some([a, b])
  {
    assert [a, b][0] == a && [a, b][1] == b;
    ElementsRoundTrip([a, b]);
  }

  lemma BindingRoundTrip(b: InBinding)
    requires EncBinding(b).Some? && |EncBinding(b).value.val| < UINT32
    ensures var r := BindingOf(EncBinding(b).value.val);
      (r.Some? && Shot(r.value.oid, ShowTrap(r.value.value)) == Expected(b)) <==> Faithful(b)
  {
    var o, v := Tlv(TAG_OID, EncOid(b.oid).value), EncValue(b.value).value;
    PairRoundTrip(o, v);
    OidRoundTrip(b.oid);
    ValueRoundTrip(b.oid, b.value);
    hide ShowTrap, ValidValue, EncOid, DecOid, EncValue, Elements, EncAll;
    assert Expected(b).oid == b.oid;
  }

  lemma NoBindings()
    ensures BindingsOf([]) == Some([]) && Shots([]) == ExpectedAll([]) && AllFaithful([])
  {
  }

  /** A list of bindings is read as meant exactly when each of them is faithful. */
  lemma {:induction false} BindingsRoundTrip(bs: seq<InBinding>, es: seq<Tlv>)
    requires EncBindings(bs) == Some(es) && forall i :: 0 <= i < |es| ==> |es[i].val| < UINT32
    ensures var r := BindingsOf(es);
      (r.Some? && Shots(r.value) == ExpectedAll(bs)) <==> AllFaithful(bs)
  {
    hide BindingsOf, BindingOf, Expected, ExpectedAll, Faithful, AllFaithful, ShowTrap, ValidValue, EncBinding, Shots;
    if bs == [] {
      NoBindings();
    }
    if bs != [] {
      var tail := es[1..];
      assert es == [es[0]] + tail && EncBindings(bs[1..]) == Some(tail) && es[0] == EncBinding(bs[0]).value;
      BindingRoundTrip(bs[0]);
      BindingsRoundTrip(bs[1..], tail);
      FaithfulSplit(bs);
      BindingsAreSequences(bs[0]);
      ShotsSplit(bs, es);
    }
  }

  lemma BindingsAreSequences(b: InBinding)
    ensures EncBinding(b).Some? ==> EncBinding(b).value.tag == TAG_SEQ
  {
  }

  lemma {:induction false} FaithfulSplit(bs: seq<InBinding>)
    requires bs != []
    ensures AllFaithful(bs) <==> Faithful(bs[0]) && AllFaithful(bs[1..])
  {
    hide Faithful;
    assert forall i :: 1 <= i < |bs| ==> bs[i] == bs[1..][i - 1];
    assert forall i :: 0 <= i < |bs[1..]| ==> bs[1..][i] == bs[i + 1];
  }

  /** A list is read as meant when its first binding and the rest are. */
  lemma {:induction false} ShotsSplit(bs: seq<InBinding>, es: seq<Tlv>)
    requires bs != [] && |es| == |bs| && es[0].tag == TAG_SEQ
    ensures var r, first, rest := BindingsOf(es), BindingOf(es[0].val), BindingsOf(es[1..]);
      (r.Some? && Shots(r.value) == ExpectedAll(bs)) <==>
      ((first.Some? && Shot(first.value.oid, ShowTrap(first.value.value)) == Expected(bs[0]))
       && (rest.Some? && Shots(rest.value) == ExpectedAll(bs[1..])))
  {
    hide BindingOf, Expected, ShowTrap, ValidValue;
    var r := BindingsOf(es);
    assert ExpectedAll(bs) == [Expected(bs[0])] + ExpectedAll(bs[1..]);
    if r.Some? {
      var first, rest := BindingOf(es[0].val).value, BindingsOf(es[1..]).value;
      assert r.value == [first] + rest;
      assert Shots(r.value) == [Shot(first.oid, ShowTrap(first.value))] + Shots(rest);
      SameHeadAndTail(Shot(first.oid, ShowTrap(first.value)), Shots(rest), Expected(bs[0]), ExpectedAll(bs[1..]));
    }
  }

  lemma SameHeadAndTail<T>(a: T, s: seq<T>, b: T, t: seq<T>)
    ensures [a] + s == [b] + t <==> a == b && s == t
  {
    if [a] + s == [b] + t {
      assert ([a] + s)[0] == ([b] + t)[0];
      assert ([a] + s)[1..] == s && ([b] + t)[1..] == t;
    }
  }

  /** Which trap the message names, going by the last binding that names one. */
  lemma {:induction false} LastNameWins(bs: seq<InBinding>)
    ensures TrapOidIn(ExpectedAll(bs)) == NamedTrap(bs)
  {
    if bs != [] {
      var init := bs[..|bs| - 1];
      LastNameWins(init);
      assert ExpectedAll(bs)[..|bs| - 1] == ExpectedAll(init);
    }
  }

  function NamedTrap(bs: seq<InBinding>): Option<Oid> {
    if bs == [] then None
    else
      var last := bs[|bs| - 1];
      if last.oid == SNMP_TRAP_OID && last.value.OidIn? then Some(last.value.name) else NamedTrap(bs[..|bs| - 1])
  }

  lemma FieldsRoundTrip(fields: seq<Tlv>)
    requires |EncAll(fields)| < UINT32
    ensures Elements(EncAll(fields)) == Some(fields)
    ensures forall i :: 0 <= i < |fields| ==> |fields[i].val| < UINT32
  {
    ElementsRoundTrip(fields);
  }

  lemma PduParts(id: Int64, es: seq<Tlv>)
    requires |PduBody(id, es)| < UINT32
    ensures Elements(PduBody(id, es)) == Some([IntTlv(id), IntTlv(0), IntTlv(0), Tlv(TAG_SEQ, EncAll(es))])
    ensures Elements(EncAll(es)) == Some(es)
    ensures forall i :: 0 <= i < |es| ==> |es[i].val| < UINT32
  {
    hide Elements, EncAll, SignedBytes;
    var fields := [IntTlv(id), IntTlv(0), IntTlv(0), Tlv(TAG_SEQ, EncAll(es))];
    FieldsRoundTrip(fields);
    assert fields[3].val == EncAll(es);
    FieldsRoundTrip(es);
  }

  lemma MessageParts(community: Bytes, tag: Byte, id: Int64, es: seq<Tlv>)
    requires |MessageBody(community, tag, id, es)| < UINT32
    ensures var data := EncTlv(Tlv(TAG_SEQ, MessageBody(community, tag, id, es)));
      EnvelopeOf(data) == Some(Envelope(1, community, Tlv(tag, PduBody(id, es))))
    ensures |PduBody(id, es)| < UINT32
  {
    hide Elements, EncAll, SignedBytes, DecInt, EncTlv, PduBody;
    OneIsAnElement();
    var parts := [IntTlv(1), Tlv(TAG_OCTETS, community), Tlv(tag, PduBody(id, es))];
    FieldsRoundTrip(parts);
    assert parts[2].val == PduBody(id, es);
    OnlyElement(Tlv(TAG_SEQ, MessageBody(community, tag, id, es)));
  }

  lemma OnlyElement(e: Tlv)
    ensures |e.val| < UINT32 ==> Elements(EncTlv(e)) == Some([e])
    ensures |e.val| >= UINT32 ==> Elements(EncTlv(e)) == None
  {
    TlvRoundTrip(e, []);
    var b := EncTlv(e);
    assert b + [] == b && b[|b|..] == [] && b != [];
    assert [e] + [] == [e];
  }

  /**
    A trap built here decodes to the same community, trap and bindings, in order, exactly when the
    message fits in four length octets, every identifier has a second arc below 40, the tick counts
    are 32-bit, and no later binding names another trap.
   */
  lemma TrapRoundTrip(community: Bytes, trapOid: Oid, bs: seq<InBinding>, uptime: Int64)
    requires Built(community, trapOid, bs, uptime).Some?
    ensures var all := WithHeader(trapOid, bs, uptime); var es := EncBindings(all).value;
      TrapOf(Built(community, trapOid, bs, uptime).value)
        == Some(Trap(community, 1, V2Trap, Some(trapOid), ExpectedAll(all)))
      <==> (|MessageBody(community, PDU_V2_TRAP, 1, es)| < UINT32 && AllFaithful(all) && NamedTrap(all) == Some(trapOid))
  {
    hide Elements, EncAll, EncTlv, MessageBody, PduBody, EnvelopeOf, BindingsOf, Expected, ExpectedAll, AllFaithful,
         NamedTrap, TrapOidIn, Shots, EncBindings, DecInt, SignedBytes, WithHeader, ValidValue;
    var all := WithHeader(trapOid, bs, uptime);
    var es := EncBindings(all).value;
    var data := Built(community, trapOid, bs, uptime).value;
    if |MessageBody(community, PDU_V2_TRAP, 1, es)| < UINT32 {
      MessageParts(community, PDU_V2_TRAP, 1, es);
      PduParts(1, es);
      OneIsAnElement();
      BindingsRoundTrip(all, es);
      LastNameWins(all);
    } else {
      OnlyElement(Tlv(TAG_SEQ, MessageBody(community, PDU_V2_TRAP, 1, es)));
      NoEnvelope(data);
    }
  }

  lemma NoEnvelope(data: Bytes)
    requires Elements(data).None?
    ensures EnvelopeOf(data).None?
  {
  }

  // ----- Version 1 traps -----------------------------------------------------------

  /** The six fields of a version 1 trap. */
  function V1Fields(enterprise: Bytes, agent: Bytes, generic: Int64, specific: Int64, ticks: nat, bindings: seq<Tlv>): seq<Tlv> {
    [Tlv(0x06, enterprise), Tlv(0x40, agent), IntTlv(generic), IntTlv(specific), Tlv(0x43, UintRaw(ticks)), Tlv(0x30, EncAll(bindings))]
  }

  function V1Message(community: Bytes, body: Bytes): Bytes {
    EncAll([IntTlv(0), Tlv(0x04, community), Tlv(0xA4, body)])
  }

  /**
    A version 1 trap written out is read as itself if its generic number is 0 to 6 and its specific one not
    negative, and refused otherwise. Generic trap n is 1.3.6.1.6.3.1.1.5.(n+1); number 6 stands for the
    enterprise's own trap, enterprise.0.specific. RFC 3584, section 3.1.
   */
  lemma V1RoundTrip(community: Bytes, enterprise: Oid, agent: Bytes, generic: Int64, specific: Int64, ticks: nat,
                    bs: seq<InBinding>, es: seq<Tlv>)
    requires EncOid(enterprise).Some? && |enterprise| >= 2 && enterprise[1] < 40 && |agent| == 4 && ticks < UINT32
    requires EncBindings(bs) == Some(es) && AllFaithful(bs)
    requires var body := EncAll(V1Fields(EncOid(enterprise).value, agent, generic, specific, ticks, es));
      |V1Message(community, body)| < UINT32
    ensures var body := EncAll(V1Fields(EncOid(enterprise).value, agent, generic, specific, ticks, es));
      TrapOf(EncTlv(Tlv(0x30, V1Message(community, body)))) ==
        if 0 <= generic < 6 && 0 <= specific then
          Some(Trap(community, 0, V1Trap, Some([1, 3, 6, 1, 6, 3, 1, 1, 5, generic + 1]), ExpectedAll(bs)))
        else if generic == 6 && 0 <= specific then
          Some(Trap(community, 0, V1Trap, Some(enterprise + [0, specific]), ExpectedAll(bs)))
        else None
  {
    hide Elements, EncAll, EncTlv, EnvelopeOf, BindingsOf, ExpectedAll, AllFaithful, Shots, EncBindings, DecInt, SignedBytes,
         ValidValue, EncOid, DecOid, UintRaw, V1Message, V1Fields;
    var fields := V1Fields(EncOid(enterprise).value, agent, generic, specific, ticks, es);
    V1Parts(community, EncAll(fields));
    V1Body(enterprise, agent, generic, specific, ticks, bs, es);
    assert GENERIC_TRAPS + [generic + 1] == [1, 3, 6, 1, 6, 3, 1, 1, 5, generic + 1] || generic < 0 || generic >= 6;
  }

  lemma V1Parts(community: Bytes, body: Bytes)
    requires |V1Message(community, body)| < UINT32
    ensures |body| < UINT32
    ensures EnvelopeOf(EncTlv(Tlv(0x30, V1Message(community, body)))) == Some(Envelope(0, community, Tlv(0xA4, body)))
  {
    hide Elements, EncAll, SignedBytes, DecInt, EncTlv;
    OneIsAnElement();
    var parts := [IntTlv(0), Tlv(0x04, community), Tlv(0xA4, body)];
    FieldsRoundTrip(parts);
    assert parts[2].val == body;
    OnlyElement(Tlv(0x30, V1Message(community, body)));
  }

  lemma V1Body(enterprise: Oid, agent: Bytes, generic: Int64, specific: Int64, ticks: nat, bs: seq<InBinding>, es: seq<Tlv>)
    requires EncOid(enterprise).Some? && |enterprise| >= 2 && enterprise[1] < 40 && |agent| == 4 && ticks < UINT32
    requires EncBindings(bs) == Some(es) && AllFaithful(bs)
    requires |EncAll(V1Fields(EncOid(enterprise).value, agent, generic, specific, ticks, es))| < UINT32
    ensures var fields := V1Fields(EncOid(enterprise).value, agent, generic, specific, ticks, es);
      && Elements(EncAll(fields)) == Some(fields) && |fields| == 6
      && fields[0].tag == 0x06 && DecOid(fields[0].val) == Some(enterprise)
      && fields[1] == Tlv(0x40, agent)
      && fields[2].tag == 0x02 && DecInt(fields[2].val) == Some(generic)
      && fields[3].tag == 0x02 && DecInt(fields[3].val) == Some(specific)
      && fields[4].tag == 0x43 && ValidValue(fields[4])
      && fields[5].tag == 0x30 && BindingList(fields[5].val).Some? && Shots(BindingList(fields[5].val).value) == ExpectedAll(bs)
  {
    hide Elements, EncAll, BindingsOf, ExpectedAll, AllFaithful, Shots, EncBindings, DecInt, SignedBytes, EncOid, DecOid, UintRaw;
    var fields := V1Fields(EncOid(enterprise).value, agent, generic, specific, ticks, es);
    FieldsRoundTrip(fields);
    OidRoundTrip(enterprise);
    IntRoundTrip(generic);
    IntRoundTrip(specific);
    UintRoundTrip(ticks);
    assert fields[5].val == EncAll(es);
    FieldsRoundTrip(es);
    BindingsRoundTrip(bs, es);
  }

  // ----- Any message of version 2 ------------------------------------------------------

  /**
    A PDU of any type with readable bindings: type 0xA7 is a trap and 0xA6 an inform, named by the last binding of
    1.3.6.1.6.3.1.1.4.1.0 to an identifier; every other type of version 2 is no trap. RFC 3416, section 3.
   */
  lemma PduTypesAre(community: Bytes, tag: Byte, id: Int64, bs: seq<InBinding>, es: seq<Tlv>)
    requires EncBindings(bs) == Some(es) && AllFaithful(bs) && |MessageBody(community, tag, id, es)| < UINT32
    ensures var name := NamedTrap(bs);
      TrapOf(EncTlv(Tlv(0x30, MessageBody(community, tag, id, es)))) ==
        if tag == 0xA7 then Some(Trap(community, 1, V2Trap, name, ExpectedAll(bs)))
        else if tag == 0xA6 then Some(Trap(community, 1, Inform, name, ExpectedAll(bs)))
        else None
    ensures bs != [] && bs[|bs| - 1].value.OidIn? && bs[|bs| - 1].oid == [1, 3, 6, 1, 6, 3, 1, 1, 4, 1, 0] ==>
              NamedTrap(bs) == Some(bs[|bs| - 1].value.name)
    ensures bs != [] && !(bs[|bs| - 1].value.OidIn? && bs[|bs| - 1].oid == [1, 3, 6, 1, 6, 3, 1, 1, 4, 1, 0]) ==>
              NamedTrap(bs) == NamedTrap(bs[..|bs| - 1])
    ensures bs == [] ==> NamedTrap(bs) == None
  {
    hide Elements, EncAll, EncTlv, MessageBody, PduBody, EnvelopeOf, BindingsOf, Expected, ExpectedAll, AllFaithful,
         TrapOidIn, Shots, EncBindings, DecInt, SignedBytes, ValidValue;
    MessageParts(community, tag, id, es);
    PduParts(id, es);
    OneIsAnElement();
    IntRoundTrip(id);
    BindingsRoundTrip(bs, es);
    LastNameWins(bs);
  }

  /** A GET response of version 2 as an agent writes it. */
  function AnswerBody(id: Int64, status: Int64, index: Int64, bindings: seq<Tlv>): Bytes {
    EncAll([IntTlv(id), IntTlv(status), IntTlv(index), Tlv(0x30, EncAll(bindings))])
  }

  function Answer(community: Bytes, tag: Byte, body: Bytes): Bytes {
    EncAll([IntTlv(1), Tlv(0x04, community), Tlv(tag, body)])
  }

  /**
    It is read, with its numbers and every value, if and only if its type is 0xA2, its error status is one
    of 0 to 18, its index is not negative and it names no object twice.
   */
  lemma AnswerIsRead(community: Bytes, tag: Byte, id: Int64, status: Int64, index: Int64, es: seq<Tlv>, bs: seq<Binding>)
    requires BindingsOf(es) == Some(bs) && |Answer(community, tag, AnswerBody(id, status, index, es))| < UINT32
    ensures GetOf(EncTlv(Tlv(0x30, Answer(community, tag, AnswerBody(id, status, index, es))))) ==
              if tag == 0xA2 && 0 <= status <= 18 && 0 <= index && DistinctOids(bs)
              then Some(GetResponse(1, community, id, status, index, ValuesOf(bs))) else None
  {
    hide Elements, EncAll, EncTlv, EnvelopeOf, BindingsOf, DecInt, SignedBytes, ValidValue, Answer, AnswerBody, ValuesOf, DistinctOids;
    var body := AnswerBody(id, status, index, es);
    AnswerParts(community, tag, body);
    AnswerFields(id, status, index, es);
    IntRoundTrip(id);
    IntRoundTrip(status);
    IntRoundTrip(index);
  }

  lemma AnswerParts(community: Bytes, tag: Byte, body: Bytes)
    requires |Answer(community, tag, body)| < UINT32
    ensures |body| < UINT32
    ensures EnvelopeOf(EncTlv(Tlv(0x30, Answer(community, tag, body)))) == Some(Envelope(1, community, Tlv(tag, body)))
  {
    hide Elements, EncAll, SignedBytes, DecInt, EncTlv;
    OneIsAnElement();
    var parts := [IntTlv(1), Tlv(0x04, community), Tlv(tag, body)];
    FieldsRoundTrip(parts);
    assert parts[2].val == body;
    OnlyElement(Tlv(0x30, Answer(community, tag, body)));
  }

  lemma AnswerFields(id: Int64, status: Int64, index: Int64, es: seq<Tlv>)
    requires |AnswerBody(id, status, index, es)| < UINT32
    ensures Elements(AnswerBody(id, status, index, es)) == Some([IntTlv(id), IntTlv(status), IntTlv(index), Tlv(0x30, EncAll(es))])
    ensures Elements(EncAll(es)) == Some(es)
  {
    hide Elements, EncAll, SignedBytes;
    var fields := [IntTlv(id), IntTlv(status), IntTlv(index), Tlv(0x30, EncAll(es))];
    FieldsRoundTrip(fields);
    assert fields[3].val == EncAll(es);
    FieldsRoundTrip(es);
  }

  // ----- Values of a GET -------------------------------------------------------------

  /** A written INTEGER is returned as its number. */
  lemma IntegersAreShown(n: Int64)
    ensures var v := Tlv(0x02, SignedBytes(n)); ValidValue(v) && ShowGet(v) == Number(n) && ShowTrap(v) == Number(n)
  {
    IntRoundTrip(n);
  }

  /** A written Counter32, Gauge32 or TimeTicks is accepted exactly if it is a 32-bit number, and returned as that number. */
  lemma CountersAreShown(tag: Byte, n: nat)
    requires tag in {0x41, 0x42, 0x43}
    ensures var v := Tlv(tag, UintRaw(n));
      && (ValidValue(v) <==> n < 0x1_0000_0000)
      && (n < 0x1_0000_0000 ==> ShowGet(v) == Counted(tag, n) && ShowTrap(v) == if tag == 0x43 then Ticks(n) else Number(n))
  {
    UintRoundTrip(n);
  }

  /** A Counter64 is accepted exactly if it is a 64-bit number; from 2^63 on it is returned as its bytes. */
  lemma WideCountersAreShown(n: nat)
    ensures var v := Tlv(0x46, UintRaw(n));
      && (ValidValue(v) <==> n < 0x1_0000_0000_0000_0000)
      && (n < 0x8000_0000_0000_0000 ==> ShowGet(v) == Counted(0x46, n) && ShowTrap(v) == Number(n))
      && (0x8000_0000_0000_0000 <= n < 0x1_0000_0000_0000_0000 ==> ShowGet(v) == ShowTrap(v) == Raw(0x46, v.val))
  {
    UintRoundTrip(n);
    UnsignedMinimal(n);
    MinimalSize8(n);
  }

  /**
    The other values. Missing objects and nulls carry no bytes and are returned as nothing, an address has four
    bytes; octets are returned as they are, and so is everything of a type not known.
   */
  lemma OtherValuesAreShown(v: Tlv)
    ensures v.tag in {0x05, 0x80, 0x81, 0x82} ==> (ValidValue(v) <==> v.val == []) && (ValidValue(v) ==> ShowGet(v) == Nothing)
    ensures v.tag == 0x05 && ValidValue(v) ==> ShowTrap(v) == Nothing
    ensures v.tag == 0x04 ==> ValidValue(v) && ShowGet(v) == Text(v.val) && ShowTrap(v) == Text(v.val)
    ensures v.tag == 0x40 ==> (ValidValue(v) <==> |v.val| == 4)
    ensures v.tag == 0x40 && ValidValue(v) ==> ShowTrap(v) == Address(v.val) && ShowGet(v) == Raw(0x40, v.val)
    ensures v.tag !in {0x02, 0x04, 0x05, 0x06, 0x40, 0x41, 0x42, 0x43, 0x46, 0x80, 0x81, 0x82} ==>
              ValidValue(v) && ShowGet(v) == Raw(v.tag, v.val) && ShowTrap(v) == Raw(v.tag, v.val)
  {
  }

  // ----- GET requests --------------------------------------------------------------

  function AskBinding(oid: Oid): Option<Tlv> {
    if EncOid(oid).None? then None
    else Some(Tlv(TAG_SEQ, EncAll([Tlv(TAG_OID, EncOid(oid).value), Tlv(TAG_NULL, [])])))
  }

  function AskBindings(oids: seq<Oid>): (r: Option<seq<Tlv>>)
    ensures r.Some? ==> |r.value| == |oids|
  {
    if oids == [] then Some([])
    else if AskBinding(oids[0]).None? then None
    else Prepend([AskBinding(oids[0]).value], AskBindings(oids[1..]))
  }

  function Request(id: Int64, community: Bytes, oids: seq<Oid>): Option<Bytes> {
    match AskBindings(oids)
    case None => None
    case Some(es) => Some(EncTlv(Tlv(TAG_SEQ, MessageBody(community, PDU_GET, id, es))))
  }

  function Asked(oids: seq<Oid>): (bs: seq<Binding>)
    ensures |bs| == |oids|
  {
    seq(|oids|, i requires 0 <= i < |oids| => Binding(oids[i], Tlv(TAG_NULL, [])))
  }

  predicate Representable(oids: seq<Oid>) {
    forall i :: 0 <= i < |oids| ==> |oids[i]| >= 2 && oids[i][1] < 40
  }

  lemma AskRoundTrip(oid: Oid)
    requires AskBinding(oid).Some? && |AskBinding(oid).value.val| < UINT32
    ensures BindingOf(AskBinding(oid).value.val) == Some(Binding(oid, Tlv(TAG_NULL, []))) <==> oid[1] < 40
    ensures |oid| >= 2 && AskBinding(oid).value.tag == TAG_SEQ
  {
    PairRoundTrip(Tlv(TAG_OID, EncOid(oid).value), Tlv(TAG_NULL, []));
    OidRoundTrip(oid);
  }

  lemma {:induction false} AsksRoundTrip(oids: seq<Oid>, es: seq<Tlv>)
    requires AskBindings(oids) == Some(es) && forall i :: 0 <= i < |es| ==> |es[i].val| < UINT32
    ensures BindingsOf(es) == Some(Asked(oids)) <==> Representable(oids)
  {
    if oids != [] {
      var tail := es[1..];
      assert es == [es[0]] + tail && AskBindings(oids[1..]) == Some(tail) && es[0] == AskBinding(oids[0]).value;
      AskRoundTrip(oids[0]);
      AsksRoundTrip(oids[1..], tail);
      AskedSplit(oids, es);
    }
  }

  lemma {:induction false} AskedSplit(oids: seq<Oid>, es: seq<Tlv>)
    requires oids != [] && |es| == |oids| && es[0].tag == TAG_SEQ && |oids[0]| >= 2
    ensures BindingsOf(es) == Some(Asked(oids)) <==>
            (BindingOf(es[0].val) == Some(Binding(oids[0], Tlv(TAG_NULL, []))) && BindingsOf(es[1..]) == Some(Asked(oids[1..])))
    ensures Representable(oids) <==> oids[0][1] < 40 && Representable(oids[1..])
  {
    hide BindingOf, ValidValue;
    assert Asked(oids) == [Binding(oids[0], Tlv(TAG_NULL, []))] + Asked(oids[1..]);
    if BindingsOf(es).Some? {
      var first, rest := BindingOf(es[0].val).value, BindingsOf(es[1..]).value;
      assert BindingsOf(es).value == [first] + rest;
      SameHeadAndTail(first, rest, Binding(oids[0], Tlv(TAG_NULL, [])), Asked(oids[1..]));
    }
    assert forall i :: 1 <= i < |oids| ==> oids[i] == oids[1..][i - 1];
    assert forall i :: 0 <= i < |oids[1..]| ==> oids[1..][i] == oids[i + 1];
  }

  datatype GetRequest = GetRequest(version: int, community: Bytes, id: int, bindings: seq<Binding>)

  /** What a datagram asks for, if it is a GET request. */
  function AskedBy(data: Bytes): Option<GetRequest> {
    match EnvelopeOf(data)
    case None => None
    case Some(env) => if env.pdu.tag == PDU_GET then AskedIn(env) else None
  }

  function AskedIn(env: Envelope): Option<GetRequest> {
    match Elements(env.pdu.val)
    case None => None
    case Some(es) =>
      if |es| == 4 && es[0].tag == TAG_INT && es[1].tag == TAG_INT && es[2].tag == TAG_INT && es[3].tag == TAG_SEQ
         && DecInt(es[0].val).Some? && DecInt(es[1].val) == Some(0) && DecInt(es[2].val) == Some(0)
         && BindingList(es[3].val).Some?
      then Some(GetRequest(env.version, env.community, DecInt(es[0].val).value, BindingList(es[3].val).value))
      else None
  }

  /**
    A GET request reads as its id, its community and exactly the objects it was built for if and only if
    it fits in four length octets and every identifier has a second arc below 40.
   */
  lemma RequestRoundTrip(id: Int64, community: Bytes, oids: seq<Oid>)
    requires Request(id, community, oids).Some?
    ensures AskedBy(Request(id, community, oids).value) == Some(GetRequest(1, community, id, Asked(oids)))
        <==> (|MessageBody(community, PDU_GET, id, AskBindings(oids).value)| < UINT32 && Representable(oids))
  {
    hide Elements, EncAll, EncTlv, MessageBody, PduBody, EnvelopeOf, BindingsOf, Asked, Representable, SignedBytes, DecInt;
    var es := AskBindings(oids).value;
    if |MessageBody(community, PDU_GET, id, es)| < UINT32 {
      MessageParts(community, PDU_GET, id, es);
      PduParts(id, es);
      AsksRoundTrip(oids, es);
      OneIsAnElement();
      IntRoundTrip(id);
    } else {
      OnlyElement(Tlv(TAG_SEQ, MessageBody(community, PDU_GET, id, es)));
      NoEnvelope(Request(id, community, oids).value);
    }
  }
}

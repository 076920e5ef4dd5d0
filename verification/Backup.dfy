/** Configuration backups: secrets are blanked on export and filled in again from the present file on import. */
module Backup {
  import opened Base
  import opened Json

  // ----- Secret fields and identities --------------------------------------------

  predicate Contains(s: string, part: string) {
    part <= s || (s != [] && Contains(s[1..], part))
  }

  predicate SecretKey(key: string) {
    var k := Lower(key);
    k != "secret_policy"
    && (Contains(k, "password") || Contains(k, "passwd") || Contains(k, "secret") || Contains(k, "token")
        || Contains(k, "community") || Contains(k, "api_key") || Contains(k, "private_key"))
  }

  /** A non-empty string under a name. */
  function TextAt(v: Json, name: string): Option<string>
    requires v.Obj?
  {
    if name in v.fields && v.fields[name].Str? && v.fields[name].text != "" then Some(v.fields[name].text) else None
  }

  function Labelled(v: Json, name: string): seq<string>
    requires v.Obj?
  {
    match TextAt(v, name) case Some(text) => [name + ":" + text] case None => []
  }

  function Endpoints(v: Json): seq<string>
    requires v.Obj?
  {
    Labelled(v, "mgmt_ip") + Labelled(v, "ip") + Labelled(v, "bmc_ip")
  }

  function Joined(parts: seq<string>): string {
    if parts == [] then "" else if |parts| == 1 then parts[0] else parts[0] + "|" + Joined(parts[1..])
  }

  /** What an array element is recognised by: its key with its addresses, or its addresses, or its name. */
  function Segments(v: Json): seq<string>
    requires v.Obj?
  {
    if TextAt(v, "key").Some? then Labelled(v, "key") + Endpoints(v)
    else if Endpoints(v) != [] then Endpoints(v)
    else Labelled(v, "name")
  }

  function Identity(v: Json): Option<string> {
    if !v.Obj? || Segments(v) == [] then None else Some(Joined(Segments(v)))
  }

  /**
    An element with a key goes by the key and its addresses, one without by its addresses, and only one with
    neither by its name. The name of one with a key or an address does not matter.
   */
  lemma IdentityIs(v: Json)
    requires v.Obj?
    ensures var key, mgmt, ip, bmc, name := TextAt(v, "key"), TextAt(v, "mgmt_ip"), TextAt(v, "ip"), TextAt(v, "bmc_ip"), TextAt(v, "name");
      && (key.Some? && mgmt.None? && ip.None? && bmc.None? ==> Identity(v) == Some("key:" + key.value))
      && (key.Some? && mgmt.Some? && ip.None? && bmc.None? ==> Identity(v) == Some("key:" + key.value + "|mgmt_ip:" + mgmt.value))
      && (key.None? && mgmt.Some? && ip.None? && bmc.Some? ==> Identity(v) == Some("mgmt_ip:" + mgmt.value + "|bmc_ip:" + bmc.value))
      && (key.None? && mgmt.None? && ip.Some? && bmc.None? ==> Identity(v) == Some("ip:" + ip.value))
      && (key.None? && mgmt.None? && ip.None? && bmc.None? ==> Identity(v) == if name.Some? then Some("name:" + name.value) else None)
  {
    var key, mgmt, ip, bmc, name := TextAt(v, "key"), TextAt(v, "mgmt_ip"), TextAt(v, "ip"), TextAt(v, "bmc_ip"), TextAt(v, "name");
    assert "key" + ":" == "key:" && "mgmt_ip" + ":" == "mgmt_ip:" && "ip" + ":" == "ip:" && "bmc_ip" + ":" == "bmc_ip:" && "name" + ":" == "name:";
    if key.Some? && mgmt.Some? && ip.None? && bmc.None? {
      assert Segments(v) == ["key:" + key.value] + ["mgmt_ip:" + mgmt.value];
      TwoParts("key:" + key.value, "mgmt_ip:" + mgmt.value);
      assert "key:" + key.value + "|" + ("mgmt_ip:" + mgmt.value) == "key:" + key.value + "|mgmt_ip:" + mgmt.value;
    } else if key.None? && mgmt.Some? && ip.None? && bmc.Some? {
      assert Segments(v) == ["mgmt_ip:" + mgmt.value] + ["bmc_ip:" + bmc.value];
      TwoParts("mgmt_ip:" + mgmt.value, "bmc_ip:" + bmc.value);
      assert "mgmt_ip:" + mgmt.value + "|" + ("bmc_ip:" + bmc.value) == "mgmt_ip:" + mgmt.value + "|bmc_ip:" + bmc.value;
    } else if key.Some? && mgmt.None? && ip.None? && bmc.None? {
      assert Segments(v) == ["key:" + key.value];
    } else if key.None? && mgmt.None? && ip.Some? && bmc.None? {
      assert Segments(v) == ["ip:" + ip.value];
    } else if key.None? && mgmt.None? && ip.None? && bmc.None? && name.Some? {
      assert Segments(v) == ["name:" + name.value];
    }
  }

  lemma TwoParts(a: string, b: string)
    ensures Joined([a] + [b]) == a + "|" + b && Joined([a]) == a
  {
    assert ([a] + [b])[1..] == [b];
  }

  type Ids = seq<Option<string>>

  function IdsOf(items: seq<Json>): (ids: Ids)
    ensures |ids| == |items|
  {
    seq(|items|, i requires 0 <= i < |items| => Identity(items[i]))
  }

  /** How many of the first n elements go by an identity. */
  function Count(ids: Ids, id: string, n: nat): nat
    requires n <= |ids|
  {
    if n == 0 then 0 else Count(ids, id, n - 1) + if ids[n - 1] == Some(id) then 1 else 0
  }

  /** The last of the first n elements that goes by it. */
  function LastWith(ids: Ids, id: string, n: nat): (j: nat)
    requires n <= |ids| && Count(ids, id, n) > 0
    ensures j < n && ids[j] == Some(id)
  {
    if ids[n - 1] == Some(id) then n - 1 else LastWith(ids, id, n - 1)
  }

  /** The one old element with the identity of a new one, if it is unique on both sides. */
  function Partner(new0: Ids, i: nat, old0: Ids): (j: Option<nat>)
    requires i < |new0|
    ensures j.Some? ==> j.value < |old0| && new0[i].Some? && old0[j.value] == new0[i]
  {
    match new0[i]
    case None => None
    case Some(id) =>
      if Count(old0, id, |old0|) == 1 && Count(new0, id, |new0|) == 1 then Some(LastWith(old0, id, |old0|)) else None
  }

  // ----- Blanking and filling ------------------------------------------------------

  function Redact(v: Json): Json
    decreases v, 1
  {
    match v
    case Obj(fields) => Obj(map k | k in fields :: RedactField(v, k))
    case Arr(items) => Arr(seq(|items|, i requires 0 <= i < |items| => Redact(items[i])))
    case _ => v
  }

  function RedactField(v: Json, k: string): Json
    requires v.Obj? && k in v.fields
    decreases v, 0
  {
    if SecretKey(k) && v.fields[k].Str? then Str("") else Redact(v.fields[k])
  }

  /** The new document with its blank secrets filled from the old one. */
  function Merge(n: Json, o: Option<Json>): Json
    decreases n, 1
  {
    match n
    case Obj(fields) => Obj(map k | k in fields :: MergeField(n, k, o))
    case Arr(items) => Arr(seq(|items|, i requires 0 <= i < |items| => MergeItem(n, i, o)))
    case _ => n
  }

  function FieldOf(o: Option<Json>, k: string): Option<Json> {
    if o.Some? && o.value.Obj? && k in o.value.fields then Some(o.value.fields[k]) else None
  }

  function ItemsOf(o: Option<Json>): seq<Json> {
    if o.Some? && o.value.Arr? then o.value.items else []
  }

  function MergeField(n: Json, k: string, o: Option<Json>): Json
    requires n.Obj? && k in n.fields
    decreases n, 0
  {
    var child, before := n.fields[k], FieldOf(o, k);
    if SecretKey(k) then if child == Str("") && before.Some? && before.value.Str? then before.value else child
    else Merge(child, before)
  }

  function MergeItem(n: Json, i: nat, o: Option<Json>): Json
    requires n.Arr? && i < |n.items|
    decreases n, 0
  {
    match Partner(IdsOf(n.items), i, IdsOf(ItemsOf(o)))
    case Some(j) => Merge(n.items[i], Some(ItemsOf(o)[j]))
    case None => n.items[i]
  }

  // ----- What blanking does ------------------------------------------------------

  /** No non-empty string under a secret key anywhere. */
  predicate Clean(v: Json)
    decreases v, 1
  {
    match v
    case Obj(fields) => forall k :: k in fields ==> CleanField(v, k)
    case Arr(items) => forall i :: 0 <= i < |items| ==> Clean(items[i])
    case _ => true
  }

  predicate CleanField(v: Json, k: string)
    requires v.Obj? && k in v.fields
    decreases v, 0
  {
    if SecretKey(k) && v.fields[k].Str? then v.fields[k].text == "" else Clean(v.fields[k])
  }

  /** A blanked document holds no secret. */
  lemma {:induction false} RedactedIsClean(v: Json)
    ensures Clean(Redact(v))
  {
    match v
    case Obj(fields) =>
      var w := Redact(v);
      forall k | k in fields ensures CleanField(w, k) {
        assert w.fields[k] == RedactField(v, k);
        RedactedIsClean(fields[k]);
        if !(SecretKey(k) && fields[k].Str?) { StrStays(fields[k]); }
      }
    case Arr(items) =>
      forall i | 0 <= i < |items| ensures Clean(Redact(items[i])) {
        RedactedIsClean(items[i]);
      }
    case _ =>
  }

  /** Somewhere in s stands the part. */
  ghost predicate Occurs(part: string, s: string) {
    exists before: string, after: string :: s == before + part + after
  }

  lemma {:induction false} ContainsIs(s: string, part: string)
    ensures Contains(s, part) <==> Occurs(part, s)
  {
    if part <= s {
      assert s == "" + part + s[|part|..];
    } else if s != [] {
      ContainsIs(s[1..], part);
      if before: string, after: string :| s[1..] == before + part + after {
        assert s == ([s[0]] + before) + part + after;
      }
      if before: string, after: string :| s == before + part + after {
        assert before == "" ==> s == part + after;
        assert s[1..] == before[1..] + part + after;
      }
    }
  }

  /** The names whose texts are secret, in whatever case. */
  ghost predicate NameIsSecret(key: string) {
    Lower(key) != "secret_policy"
    && exists part :: part in {"password", "passwd", "secret", "token", "community", "api_key", "private_key"} && Occurs(part, Lower(key))
  }

  lemma SecretKeyIs(key: string)
    ensures SecretKey(key) <==> NameIsSecret(key)
  {
    var k := Lower(key);
    forall part ensures Contains(k, part) <==> Occurs(part, k) { ContainsIs(k, part); }
  }

  /** Place by place: exactly the texts of secret names are blanked, and no other value is changed. */
  lemma {:induction false} BlankedAre(v: Json, p: Path)
    requires At(v, p).Some? && !At(v, p).value.Obj? && !At(v, p).value.Arr?
    ensures At(Redact(v), p) ==
              if p != [] && p[|p| - 1].Field? && NameIsSecret(p[|p| - 1].name) && At(v, p).value.Str? then Some(Str("")) else At(v, p)
  {
    hide SecretKey, NameIsSecret;
    if p != [] {
      match p[0]
      case Field(k) =>
        SecretKeyIs(k);
        assert Redact(v).fields[k] == RedactField(v, k);
        if |p| == 1 {
          assert p[1..] == [] && p[|p| - 1] == p[0];
          LeafStays(v.fields[k]);
        } else {
          OnlyTreesHavePlaces(v.fields[k], p[1..]);
          BlankedAre(v.fields[k], p[1..]);
        }
      case Elem(i) =>
        assert Redact(v).items[i] == Redact(v.items[i]);
        BlankedAre(v.items[i], p[1..]);
    }
  }

  lemma LeafStays(v: Json)
    requires !v.Obj? && !v.Arr?
    ensures Redact(v) == v
  {
  }

  lemma OnlyTreesHavePlaces(v: Json, p: Path)
    requires At(v, p).Some? && p != []
    ensures !v.Str?
  {
  }

  lemma StrStays(v: Json)
    ensures Redact(v).Str? <==> v.Str?
    ensures Redact(v).Obj? <==> v.Obj?
    ensures Redact(v).Arr? <==> v.Arr?
  {
  }

  /** Blanking leaves exactly the clean documents as they are. */
  lemma {:induction false} CleanIsUntouched(v: Json)
    ensures Redact(v) == v <==> Clean(v)
  {
    match v
    case Obj(fields) =>
      var w := Redact(v);
      forall k | k in fields ensures w.fields[k] == fields[k] <==> CleanField(v, k) {
        assert w.fields[k] == RedactField(v, k);
        CleanIsUntouched(fields[k]);
      }
      if w == v {
        forall k | k in fields ensures CleanField(v, k) { assert w.fields[k] == fields[k]; }
      }
      if Clean(v) {
        assert w.fields == fields;
      }
    case Arr(items) =>
      var w := Redact(v);
      forall i | 0 <= i < |items| ensures w.items[i] == items[i] <==> Clean(items[i]) {
        CleanIsUntouched(items[i]);
      }
      if w == v {
        forall i | 0 <= i < |items| ensures Clean(items[i]) { assert w.items[i] == items[i]; }
      }
      if Clean(v) {
        assert w.items == items;
      }
    case _ =>
  }

  lemma SameText(v: Json, name: string)
    requires v.Obj? && !SecretKey(name)
    ensures Redact(v).Obj? && TextAt(Redact(v), name) == TextAt(v, name)
  {
    hide SecretKey;
    if name in v.fields {
      assert Redact(v).fields[name] == RedactField(v, name);
      StrStays(v.fields[name]);
    }
  }

  /** Blanking does not change what an element is recognised by. */
  lemma SameIdentity(v: Json)
    ensures Identity(Redact(v)) == Identity(v)
  {
    if v.Obj? {
      NotSecret();
      SameText(v, "key");
      SameText(v, "mgmt_ip");
      SameText(v, "ip");
      SameText(v, "bmc_ip");
      SameText(v, "name");
    }
  }

  lemma NotSecret()
    ensures !SecretKey("key") && !SecretKey("mgmt_ip") && !SecretKey("ip") && !SecretKey("bmc_ip") && !SecretKey("name")
  {
    hide Contains;
    ShortHasNone("key");
    ShortHasNone("ip");
    ShortHasNone("name");
    assert Lower("key") == "key" && Lower("ip") == "ip" && Lower("name") == "name";
    assert Lower("mgmt_ip") == "mgmt_ip" && Lower("bmc_ip") == "bmc_ip";
    AddressHasNone("mgmt_ip");
    AddressHasNone("bmc_ip");
  }

  lemma {:induction false} TooShort(s: string, part: string)
    requires |s| < |part|
    ensures !Contains(s, part)
  {
    if s != [] { TooShort(s[1..], part); }
  }

  lemma ShortHasNone(s: string)
    requires |s| < 5
    ensures !Contains(s, "password") && !Contains(s, "passwd") && !Contains(s, "secret") && !Contains(s, "token")
            && !Contains(s, "community") && !Contains(s, "api_key") && !Contains(s, "private_key")
  {
    TooShort(s, "password");
    TooShort(s, "passwd");
    TooShort(s, "secret");
    TooShort(s, "token");
    TooShort(s, "community");
    TooShort(s, "api_key");
    TooShort(s, "private_key");
  }

  lemma {:induction false} Skip(s: string, part: string, n: nat)
    requires part != [] && n <= |s| && forall i :: 0 <= i < n ==> s[i] != part[0]
    ensures Contains(s, part) <==> Contains(s[n..], part)
  {
    if n > 0 {
      assert s[0] != part[0];
      assert !(part <= s);
      Skip(s[1..], part, n - 1);
      assert s[1..][n - 1..] == s[n..];
    } else {
      assert s[0..] == s;
    }
  }

  lemma AddressHasNone(s: string)
    requires s == "mgmt_ip" || s == "bmc_ip"
    ensures !Contains(s, "password") && !Contains(s, "passwd") && !Contains(s, "secret") && !Contains(s, "token")
            && !Contains(s, "community") && !Contains(s, "api_key") && !Contains(s, "private_key")
  {
    var n := |s| - 4;
    ShortHasNone(s[n..]);
    Skip(s, "password", n);
    Skip(s, "passwd", n);
    Skip(s, "secret", n);
    Skip(s, "token", n);
    Skip(s, "community", n);
    Skip(s, "api_key", n);
    Skip(s, "private_key", n);
  }

  // ----- Export and import again -----------------------------------------------------

  /**
    Secret fields hold strings, or values with nothing to blank; array elements have nothing to
    blank, or are objects with an identity no other element has.
   */
  predicate Recoverable(d: Json)
    decreases d, 1
  {
    match d
    case Obj(fields) => forall k :: k in fields ==> RecoverableField(d, k)
    case Arr(items) => forall i :: 0 <= i < |items| ==> RecoverableItem(d, i)
    case _ => true
  }

  predicate RecoverableField(d: Json, k: string)
    requires d.Obj? && k in d.fields
    decreases d, 0
  {
    if SecretKey(k) then d.fields[k].Str? || Clean(d.fields[k]) else Recoverable(d.fields[k])
  }

  predicate RecoverableItem(d: Json, i: nat)
    requires d.Arr? && i < |d.items|
    decreases d, 0
  {
    if HasOwnIdentity(d.items, i) then Recoverable(d.items[i]) else Clean(d.items[i])
  }

  predicate HasOwnIdentity(items: seq<Json>, i: nat)
    requires i < |items|
  {
    Identity(items[i]).Some? && Count(IdsOf(items), Identity(items[i]).value, |items|) == 1
  }

  lemma {:induction false} CountSees(ids: Ids, id: string, n: nat, i: nat)
    requires i < n <= |ids| && ids[i] == Some(id)
    ensures Count(ids, id, n) >= 1
    ensures Count(ids, id, n) == 1 ==> LastWith(ids, id, n) == i
  {
    if i < n - 1 { CountSees(ids, id, n - 1, i); }
  }

  /** Each blanked element with an identity of its own finds the element it came from. */
  lemma OwnPartner(items: seq<Json>, blank: seq<Json>, i: nat)
    requires |blank| == |items| && i < |items| && forall j :: 0 <= j < |items| ==> blank[j] == Redact(items[j])
    ensures Partner(IdsOf(blank), i, IdsOf(items)) == if HasOwnIdentity(items, i) then Some(i) else None
  {
    hide Redact, Identity;
    forall j | 0 <= j < |items| ensures IdsOf(blank)[j] == IdsOf(items)[j] {
      SameIdentity(items[j]);
    }
    assert IdsOf(blank) == IdsOf(items);
    if Identity(items[i]).Some? {
      CountSees(IdsOf(items), Identity(items[i]).value, |items|, i);
    }
  }

  lemma {:induction false} MergeWithNothing(n: Json)
    ensures Merge(n, None) == n
  {
    match n
    case Obj(fields) =>
      forall k | k in fields ensures MergeField(n, k, None) == fields[k] {
        MergeWithNothing(fields[k]);
      }
      assert Merge(n, None).fields == fields;
    case Arr(items) =>
      assert Merge(n, None).items == items;
    case _ =>
  }

  /** Exporting a document and importing it over itself gives it back exactly when it is recoverable. */
  lemma {:induction false} ExportImport(d: Json)
    ensures Merge(Redact(d), Some(d)) == d <==> Recoverable(d)
  {
    match d
    case Obj(fields) =>
      var m := Merge(Redact(d), Some(d));
      forall k | k in fields ensures m.fields[k] == fields[k] <==> RecoverableField(d, k) {
        ExportImport(fields[k]);
        FieldComesBack(d, k);
      }
      assert m.fields.Keys == fields.Keys;
      SameFields(m, d);
    case Arr(items) =>
      var m := Merge(Redact(d), Some(d));
      forall i | 0 <= i < |items| ensures m.items[i] == items[i] <==> RecoverableItem(d, i) {
        ExportImport(items[i]);
        ItemComesBack(d, i);
      }
      SameItems(m, d);
    case _ =>
  }

  lemma SameFields(m: Json, d: Json)
    requires m.Obj? && d.Obj? && m.fields.Keys == d.fields.Keys
    ensures m == d <==> forall k :: k in d.fields ==> m.fields[k] == d.fields[k]
  {
    if forall k :: k in d.fields ==> m.fields[k] == d.fields[k] {
      assert m.fields == d.fields;
    }
  }

  lemma SameItems(m: Json, d: Json)
    requires m.Arr? && d.Arr? && |m.items| == |d.items|
    ensures m == d <==> forall i :: 0 <= i < |d.items| ==> m.items[i] == d.items[i]
  {
    if forall i :: 0 <= i < |d.items| ==> m.items[i] == d.items[i] {
      assert m.items == d.items;
    }
  }

  lemma FieldComesBack(d: Json, k: string)
    requires d.Obj? && k in d.fields
    requires Merge(Redact(d.fields[k]), Some(d.fields[k])) == d.fields[k] <==> Recoverable(d.fields[k])
    ensures Redact(d).Obj? && k in Redact(d).fields
    ensures MergeField(Redact(d), k, Some(d)) == d.fields[k] <==> RecoverableField(d, k)
  {
    hide SecretKey, Recoverable, Clean, Redact, Merge;
    RedactedField(d, k);
    CleanIsUntouched(d.fields[k]);
    StrStays(d.fields[k]);
  }

  lemma RedactedField(d: Json, k: string)
    requires d.Obj? && k in d.fields
    ensures Redact(d).Obj? && k in Redact(d).fields && Redact(d).fields[k] == RedactField(d, k)
  {
  }

  lemma ItemComesBack(d: Json, i: nat)
    requires d.Arr? && i < |d.items|
    requires Merge(Redact(d.items[i]), Some(d.items[i])) == d.items[i] <==> Recoverable(d.items[i])
    ensures Redact(d).Arr? && i < |Redact(d).items|
    ensures MergeItem(Redact(d), i, Some(d)) == d.items[i] <==> RecoverableItem(d, i)
  {
    hide Recoverable, Clean, Partner, HasOwnIdentity, Identity;
    var blank := Redact(d).items;
    assert forall j :: 0 <= j < |d.items| ==> blank[j] == Redact(d.items[j]);
    OwnPartner(d.items, blank, i);
    CleanIsUntouched(d.items[i]);
  }

  // ----- The loops of an import --------------------------------------------------------

  function Tally(counts: map<string, nat>, id: string): nat {
    if id in counts then counts[id] else 0
  }

  method CountIdentities(items: seq<Json>) returns (counts: map<string, nat>, last: map<string, nat>)
    ensures forall id :: Tally(counts, id) == Count(IdsOf(items), id, |items|)
    ensures forall id :: Count(IdsOf(items), id, |items|) > 0 ==> id in last && last[id] == LastWith(IdsOf(items), id, |items|)
  {
    hide Identity;
    counts, last := map[], map[];
    for i := 0 to |items|
      invariant forall id :: Tally(counts, id) == Count(IdsOf(items), id, i)
      invariant forall id :: Count(IdsOf(items), id, i) > 0 ==> id in last && last[id] == LastWith(IdsOf(items), id, i)
    {
      var id := Identity(items[i]);
      if id.Some? {
        counts := counts[id.value := Tally(counts, id.value) + 1];
        last := last[id.value := i];
      }
    }
  }

  /** Fills the blank secrets of n from o. */
  method MergeSecrets(n: Json, o: Option<Json>) returns (m: Json)
    ensures m == Merge(n, o)
    decreases n, 2
  {
    match n {
      case Obj(fields) => m := MergeFields(n, o);
      case Arr(items) => m := MergeItems(n, o);
      case _ => m := n;
    }
  }

  method MergeFields(n: Json, o: Option<Json>) returns (m: Json)
    requires n.Obj?
    ensures m == Merge(n, o)
    decreases n, 1
  {
    hide MergeField, SecretKey;
    var rest := n.fields.Keys;
    var out: map<string, Json> := map[];
    while rest != {}
      invariant rest <= n.fields.Keys && out.Keys == n.fields.Keys - rest
      invariant forall k :: k in out ==> out[k] == MergeField(n, k, o)
      decreases rest
    {
      var k :| k in rest;
      var child := MergeOne(n, k, o);
      out, rest := out[k := child], rest - {k};
    }
    assert out == map k | k in n.fields :: MergeField(n, k, o);
    m := Obj(out);
  }

  method MergeOne(n: Json, k: string, o: Option<Json>) returns (child: Json)
    requires n.Obj? && k in n.fields
    ensures child == MergeField(n, k, o)
    decreases n, 0
  {
    child := n.fields[k];
    var before := FieldOf(o, k);
    if SecretKey(k) {
      if child == Str("") && before.Some? && before.value.Str? && before.value.text != "" {
        child := before.value;
      }
    } else if o.Some? && o.value.Obj? {
      child := MergeSecrets(child, before);
    } else {
      MergeWithNothing(child);
    }
  }

  method MergeItems(n: Json, o: Option<Json>) returns (m: Json)
    requires n.Arr?
    ensures m == Merge(n, o)
    decreases n, 1
  {
    hide Identity, Count, LastWith, MergeItem;
    var olds := ItemsOf(o);
    var oldCounts, oldByIdentity := CountIdentities(olds);
    var newCounts, _ := CountIdentities(n.items);
    var out: seq<Json> := [];
    for i := 0 to |n.items|
      invariant |out| == i && forall j :: 0 <= j < i ==> out[j] == MergeItem(n, j, o)
    {
      var item, id := n.items[i], Identity(n.items[i]);
      if id.Some? && Tally(oldCounts, id.value) == 1 && Tally(newCounts, id.value) == 1 {
        PartnerIs(n, i, o, oldByIdentity[id.value]);
        item := MergeSecrets(item, Some(olds[oldByIdentity[id.value]]));
      } else {
        NoPartner(n, i, o);
      }
      out := out + [item];
    }
    assert out == Merge(n, o).items;
    m := Arr(out);
  }

  lemma PartnerIs(n: Json, i: nat, o: Option<Json>, j: nat)
    requires n.Arr? && i < |n.items| && Identity(n.items[i]).Some?
    requires var id := Identity(n.items[i]).value; var olds := IdsOf(ItemsOf(o));
      Count(olds, id, |olds|) == 1 && Count(IdsOf(n.items), id, |n.items|) == 1 && j == LastWith(olds, id, |olds|)
    ensures j < |ItemsOf(o)| && MergeItem(n, i, o) == Merge(n.items[i], Some(ItemsOf(o)[j]))
  {
    hide Identity, Merge;
  }

  lemma NoPartner(n: Json, i: nat, o: Option<Json>)
    requires n.Arr? && i < |n.items|
    requires Identity(n.items[i]).Some? ==> var id := Identity(n.items[i]).value; var olds := IdsOf(ItemsOf(o));
      Count(olds, id, |olds|) != 1 || Count(IdsOf(n.items), id, |n.items|) != 1
    ensures MergeItem(n, i, o) == n.items[i]
  {
    hide Identity, Merge;
  }

  // ----- Where filled secrets come from --------------------------------------------------

  /** q is in the old document where p is in the new one: the same fields, and array elements of the same identity. */
  predicate SamePlace(n: Json, p: Path, o: Json, q: Path) {
    && |p| == |q|
    && (p == []
        || match p[0]
           case Field(k) => q[0] == p[0] && n.Obj? && o.Obj? && k in n.fields && k in o.fields
                            && SamePlace(n.fields[k], p[1..], o.fields[k], q[1..])
           case Elem(i) => q[0].Elem? && n.Arr? && o.Arr? && i < |n.items| && q[0].index < |o.items|
                           && Partner(IdsOf(n.items), i, IdsOf(o.items)) == Some(q[0].index)
                           && SamePlace(n.items[i], p[1..], o.items[q[0].index], q[1..]))
  }

  /** Importing adds and removes nothing, and changes nothing but blank secrets. */
  lemma {:induction false} MergeOnlyFills(n: Json, o: Option<Json>, p: Path)
    ensures At(Merge(n, o), p).Some? <==> At(n, p).Some?
    ensures At(n, p).Some? && !At(n, p).value.Obj? && !At(n, p).value.Arr? && At(n, p) != Some(Str("")) ==>
              At(Merge(n, o), p) == At(n, p)
    decreases n, |p|
  {
    hide SecretKey, Partner;
    if p != [] {
      match p[0]
      case Field(k) =>
        if n.Obj? && k in n.fields {
          assert Merge(n, o).fields[k] == MergeField(n, k, o);
          MergeOnlyFills(n.fields[k], FieldOf(o, k), p[1..]);
        }
      case Elem(i) =>
        if n.Arr? && i < |n.items| {
          assert Merge(n, o).items[i] == MergeItem(n, i, o);
          if Partner(IdsOf(n.items), i, IdsOf(ItemsOf(o))).Some? {
            MergeOnlyFills(n.items[i], Some(ItemsOf(o)[Partner(IdsOf(n.items), i, IdsOf(ItemsOf(o))).value]), p[1..]);
          }
        }
    }
  }

  lemma StrHasNoPlaces(v: Json, p: Path)
    requires v.Str? && At(v, p).Some?
    ensures p == []
  {
  }

  /**
    A string that was not in the imported document stands where that had a blank under a secret
    key, and is what the old document has in the same place.
   */
  lemma {:induction false} FilledFromSamePlace(n: Json, o: Option<Json>, p: Path, text: string) returns (q: Path)
    requires At(Merge(n, o), p) == Some(Str(text)) && At(n, p) != Some(Str(text))
    ensures At(n, p) == Some(Str("")) && p != [] && p[|p| - 1].Field? && SecretKey(p[|p| - 1].name)
    ensures o.Some? && SamePlace(n, p, o.value, q) && At(o.value, q) == Some(Str(text))
    decreases n, |p|
  {
    hide SecretKey, Partner, Identity;
    match p[0]
    case Field(k) =>
      assert Merge(n, o).fields[k] == MergeField(n, k, o);
      if SecretKey(k) {
        assert MergeField(n, k, o).Str?;
        StrHasNoPlaces(MergeField(n, k, o), p[1..]);
        q := p;
        assert p == [p[0]] && q[1..] == [];
      } else {
        var rest := FilledFromSamePlace(n.fields[k], FieldOf(o, k), p[1..], text);
        q := [p[0]] + rest;
        assert q[1..] == rest && p[1..][|p| - 2] == p[|p| - 1];
      }
    case Elem(i) =>
      assert Merge(n, o).items[i] == MergeItem(n, i, o);
      var j := Partner(IdsOf(n.items), i, IdsOf(ItemsOf(o))).value;
      var rest := FilledFromSamePlace(n.items[i], Some(ItemsOf(o)[j]), p[1..], text);
      q := [Elem(j)] + rest;
      assert q[1..] == rest && p[1..][|p| - 2] == p[|p| - 1];
  }
}

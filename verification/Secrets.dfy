/** Secret references in configuration documents, and replacing plaintext secrets by references. */
module Secrets {
  import opened Base
  import opened Json

  const PREFIX: string := "secret://"
  const MANAGED_PREFIX: string := "serverdesk.managed."

  const PROTECTED_KEYS: set<string> :=
    {"password", "passwd", "root_password", "admin_password", "node_root_password", "web_password",
     "bmc_password", "community", "snmp_community", "trap_community", "secret", "token", "api_key",
     "private_key", "webhook_url"}

  // ----- Names and references -----------------------------------------------

  /** A letter, a digit, or one of three signs; everything beyond ASCII is taken for a letter. */
  predicate NameChar(c: char) {
    'a' <= c <= 'z' || 'A' <= c <= 'Z' || '0' <= c <= '9' || c == '.' || c == '_' || c == '-' || c > '\U{7F}'
  }

  /** Its bytes in UTF-8. */
  function CharSize(c: char): nat {
    if c <= '\U{7F}' then 1 else if c <= '\U{7FF}' then 2 else if c <= '\U{FFFF}' then 3 else 4
  }

  function ByteSize(s: string): nat {
    if s == "" then 0 else ByteSize(s[..|s| - 1]) + CharSize(s[|s| - 1])
  }

  predicate ValidName(name: string) {
    name != "" && ByteSize(name) <= 128 && name[0] != '.' && forall i :: 0 <= i < |name| ==> NameChar(name[i])
  }

  predicate HexChar(c: char) {
    '0' <= c <= '9' || 'a' <= c <= 'f' || 'A' <= c <= 'F'
  }

  /** Names this service generated itself: its prefix, and a version of 16 hex digits after the last dot. */
  predicate Managed(name: string) {
    && MANAGED_PREFIX <= name
    && |name| >= 17 && name[|name| - 17] == '.'
    && forall i :: |name| - 16 <= i < |name| ==> HexChar(name[i])
  }

  /** The part after the last dot decides, once the prefix is there. */
  lemma ManagedMeans(head: string, version: string)
    requires |version| == 16
    ensures Managed(head + "." + version) <==>
              "serverdesk.managed." <= head + "."
              && forall c :: c in version ==> '0' <= c <= '9' || 'a' <= c <= 'f' || 'A' <= c <= 'F'
  {
    var name := head + "." + version;
    assert name[..|head| + 1] == head + "." && name[|head| + 1..] == version && name[|head|] == '.';
    if Managed(name) {
      assert name[18] == MANAGED_PREFIX[18] == '.';
      assert |head| + 1 >= 19;
      assert (head + ".")[..19] == name[..19] == MANAGED_PREFIX;
    }
    forall c | c in version && Managed(name) ensures HexChar(c) {
      var i :| 0 <= i < 16 && version[i] == c;
      assert HexChar(name[|head| + 1 + i]);
    }
    if "serverdesk.managed." <= head + "." && forall c :: c in version ==> HexChar(c) {
      forall i | |name| - 16 <= i < |name| ensures HexChar(name[i]) { assert name[i] == version[i - |head| - 1]; }
    }
  }

  datatype Reference = Plain | Malformed | To(name: string)

  function ReferenceOf(text: string): Reference {
    if !(PREFIX <= text) then Plain
    else if ValidName(text[|PREFIX|..]) then To(text[|PREFIX|..])
    else Malformed
  }

  lemma ReferenceRoundTrip(name: string)
    requires ValidName(name)
    ensures ReferenceOf(PREFIX + name) == To(name)
  {
    assert (PREFIX + name)[|PREFIX|..] == name;
  }

  /** Every name referenced anywhere in v. */
  function Refs(v: Json): set<string> {
    match v
    case Str(text) => (match ReferenceOf(text) case To(name) => {name} case _ => {})
    case Arr(items) => set i, n | 0 <= i < |items| && n in Refs(items[i]) :: n
    case Obj(fields) => set k, n | k in fields && n in Refs(fields[k]) :: n
    case _ => {}
  }

  function ManagedRefs(v: Json): set<string> {
    set n | n in Refs(v) && Managed(n)
  }

  // ----- Plaintext secrets --------------------------------------------------

  predicate Documentation(key: string) {
    key != "" && key[0] == '_'
  }

  predicate Protected(key: string) {
    Lower(key) in PROTECTED_KEYS
  }

  /** The value of a protected key that has to be replaced. */
  predicate Plaintext(v: Json) {
    v.Str? && v.text != "" && ReferenceOf(v.text) == Plain
  }

  predicate MalformedRef(v: Json) {
    v.Str? && ReferenceOf(v.text) == Malformed
  }

  /** Each plaintext secret of v with its place. */
  function PlainSecrets(v: Json, path: Path): set<(Path, string)>
    decreases v, 1
  {
    match v
    case Arr(items) => set i, x | 0 <= i < |items| && x in PlainSecrets(items[i], path + [Elem(i)]) :: x
    case Obj(fields) => set k, x | k in fields && x in PlainField(v, k, path) :: x
    case _ => {}
  }

  function PlainField(v: Json, k: string, path: Path): set<(Path, string)>
    requires v.Obj? && k in v.fields
    decreases v, 0
  {
    var child := v.fields[k];
    if Documentation(k) then {}
    else if Protected(k) then if Plaintext(child) then {(path + [Field(k)], child.text)} else {}
    else PlainSecrets(child, path + [Field(k)])
  }

  /** A protected key somewhere holds a reference that is not well formed: the document is refused. */
  predicate HasMalformed(v: Json)
    decreases v, 1
  {
    match v
    case Arr(items) => exists i :: 0 <= i < |items| && HasMalformed(items[i])
    case Obj(fields) => exists k :: k in fields && MalformedField(v, k)
    case _ => false
  }

  predicate MalformedField(v: Json, k: string)
    requires v.Obj? && k in v.fields
    decreases v, 0
  {
    !Documentation(k) && (if Protected(k) then MalformedRef(v.fields[k]) else HasMalformed(v.fields[k]))
  }

  /** v with every plaintext secret replaced by a reference to the name given to its place. */
  function Protect(v: Json, path: Path, naming: Path -> string): Json
    decreases v, 1
  {
    match v
    case Arr(items) => Arr(seq(|items|, i requires 0 <= i < |items| => Protect(items[i], path + [Elem(i)], naming)))
    case Obj(fields) => Obj(map k | k in fields :: ProtectField(v, k, path, naming))
    case _ => v
  }

  function ProtectField(v: Json, k: string, path: Path, naming: Path -> string): Json
    requires v.Obj? && k in v.fields
    decreases v, 0
  {
    var child := v.fields[k];
    if Documentation(k) then child
    else if Protected(k) then if Plaintext(child) then Str(PREFIX + naming(path + [Field(k)])) else child
    else Protect(child, path + [Field(k)], naming)
  }

  /** What the service reads: protected keys with their references resolved. */
  function Reveal(v: Json, creds: map<string, string>): Json
    decreases v, 1
  {
    match v
    case Arr(items) => Arr(seq(|items|, i requires 0 <= i < |items| => Reveal(items[i], creds)))
    case Obj(fields) => Obj(map k | k in fields :: RevealField(v, k, creds))
    case _ => v
  }

  function RevealField(v: Json, k: string, creds: map<string, string>): Json
    requires v.Obj? && k in v.fields
    decreases v, 0
  {
    var child := v.fields[k];
    if Documentation(k) then child
    else if Protected(k) then
      if child.Str? && ReferenceOf(child.text).To? && ReferenceOf(child.text).name in creds
      then Str(creds[ReferenceOf(child.text).name]) else child
    else Reveal(child, creds)
  }

  // ----- What protection does -----------------------------------------------

  /** Well-formed generated names for some places, no two of them the same. */
  ghost predicate GoodNames(naming: Path -> string, places: set<Path>) {
    && (forall p :: p in places ==> ValidName(naming(p)) && Managed(naming(p)))
    && (forall p, q :: p in places && q in places && naming(p) == naming(q) ==> p == q)
  }

  function Places(secrets: set<(Path, string)>): set<Path> {
    set x | x in secrets :: x.0
  }

  function NamesOf(secrets: set<(Path, string)>, naming: Path -> string): set<string> {
    set x | x in secrets :: naming(x.0)
  }

  /** All places lie below the given one, and each holds one secret. */
  lemma {:induction false} SecretsAreBelow(v: Json, path: Path, x: (Path, string))
    requires x in PlainSecrets(v, path)
    ensures path <= x.0 && x.1 != ""
  {
    match v
    case Arr(items) =>
      var i :| 0 <= i < |items| && x in PlainSecrets(items[i], path + [Elem(i)]);
      SecretsAreBelow(items[i], path + [Elem(i)], x);
    case Obj(fields) =>
      var k :| k in fields && x in PlainField(v, k, path);
      if !Protected(k) { SecretsAreBelow(fields[k], path + [Field(k)], x); }
  }

  lemma {:induction false} OneSecretPerPlace(v: Json, path: Path, x: (Path, string), y: (Path, string))
    requires x in PlainSecrets(v, path) && y in PlainSecrets(v, path) && x.0 == y.0
    ensures x == y
  {
    match v
    case Arr(items) =>
      var i :| 0 <= i < |items| && x in PlainSecrets(items[i], path + [Elem(i)]);
      var j :| 0 <= j < |items| && y in PlainSecrets(items[j], path + [Elem(j)]);
      SecretsAreBelow(items[i], path + [Elem(i)], x);
      SecretsAreBelow(items[j], path + [Elem(j)], y);
      assert x.0[|path|] == Elem(i) && y.0[|path|] == Elem(j);
      OneSecretPerPlace(items[i], path + [Elem(i)], x, y);
    case Obj(fields) =>
      var k :| k in fields && x in PlainField(v, k, path);
      var l :| l in fields && y in PlainField(v, l, path);
      FieldSecretsAreBelow(v, k, path, x);
      FieldSecretsAreBelow(v, l, path, y);
      assert x.0[|path|] == Field(k) && y.0[|path|] == Field(l);
      if !Protected(k) { OneSecretPerPlace(fields[k], path + [Field(k)], x, y); }
  }

  lemma FieldSecretsAreBelow(v: Json, k: string, path: Path, x: (Path, string))
    requires v.Obj? && k in v.fields && x in PlainField(v, k, path)
    ensures path + [Field(k)] <= x.0
  {
    if !Protected(k) { SecretsAreBelow(v.fields[k], path + [Field(k)], x); }
  }

  /** The protected document references nothing but what it did before and the names of its secrets. */
  lemma {:induction false} ProtectRefs(v: Json, path: Path, naming: Path -> string, all: set<Path>)
    requires GoodNames(naming, all) && Places(PlainSecrets(v, path)) <= all
    ensures Refs(Protect(v, path, naming)) <= Refs(v) + NamesOf(PlainSecrets(v, path), naming)
    decreases v, 1
  {
    match v
    case Arr(items) =>
      forall i, n | 0 <= i < |items| && n in Refs(Protect(items[i], path + [Elem(i)], naming))
        ensures n in Refs(v) + NamesOf(PlainSecrets(v, path), naming)
      {
        assert PlainSecrets(items[i], path + [Elem(i)]) <= PlainSecrets(v, path);
        ProtectRefs(items[i], path + [Elem(i)], naming, all);
      }
    case Obj(fields) =>
      forall k, n | k in fields && n in Refs(ProtectField(v, k, path, naming))
        ensures n in Refs(v) + NamesOf(PlainSecrets(v, path), naming)
      {
        assert PlainField(v, k, path) <= PlainSecrets(v, path);
        ProtectFieldRefs(v, k, path, naming, all);
      }
    case _ =>
  }

  /** Protection only adds references: the ones already there stay. */
  lemma {:induction false} ProtectKeepsRefs(v: Json, path: Path, naming: Path -> string)
    ensures Refs(v) <= Refs(Protect(v, path, naming))
  {
    match v
    case Arr(items) =>
      var w := Protect(v, path, naming);
      forall i, n | 0 <= i < |items| && n in Refs(items[i]) ensures n in Refs(w) {
        ProtectKeepsRefs(items[i], path + [Elem(i)], naming);
        assert w.items[i] == Protect(items[i], path + [Elem(i)], naming);
      }
    case Obj(fields) =>
      var w := Protect(v, path, naming);
      forall k, n | k in fields && n in Refs(fields[k]) ensures n in Refs(w) {
        assert w.fields[k] == ProtectField(v, k, path, naming);
        if !Documentation(k) && !Protected(k) { ProtectKeepsRefs(fields[k], path + [Field(k)], naming); }
      }
    case _ =>
  }

  /** Every name given to a secret is referenced where the secret was. */
  lemma {:induction false} NamesAreReferenced(v: Json, path: Path, naming: Path -> string, x: (Path, string))
    requires x in PlainSecrets(v, path) && ValidName(naming(x.0))
    ensures naming(x.0) in Refs(Protect(v, path, naming))
  {
    var w := Protect(v, path, naming);
    match v
    case Arr(items) =>
      var i :| 0 <= i < |items| && x in PlainSecrets(items[i], path + [Elem(i)]);
      NamesAreReferenced(items[i], path + [Elem(i)], naming, x);
      assert w.items[i] == Protect(items[i], path + [Elem(i)], naming);
    case Obj(fields) =>
      var k :| k in fields && x in PlainField(v, k, path);
      assert w.fields[k] == ProtectField(v, k, path, naming);
      if Protected(k) {
        ReferenceRoundTrip(naming(x.0));
      } else {
        NamesAreReferenced(fields[k], path + [Field(k)], naming, x);
      }
      assert naming(x.0) in Refs(w.fields[k]);
  }

  lemma {:induction false} ProtectFieldRefs(v: Json, k: string, path: Path, naming: Path -> string, all: set<Path>)
    requires GoodNames(naming, all) && v.Obj? && k in v.fields && Places(PlainField(v, k, path)) <= all
    ensures Refs(ProtectField(v, k, path, naming)) <= Refs(v.fields[k]) + NamesOf(PlainField(v, k, path), naming)
    decreases v, 0
  {
    if !Documentation(k) && Protected(k) && Plaintext(v.fields[k]) {
      assert (path + [Field(k)], v.fields[k].text) in PlainField(v, k, path);
      ReferenceRoundTrip(naming(path + [Field(k)]));
    } else if !Documentation(k) && !Protected(k) {
      ProtectRefs(v.fields[k], path + [Field(k)], naming, all);
    }
  }

  /** The credentials after the secrets of a document were written under fresh names. */
  ghost predicate Provisioned(before: map<string, string>, after: map<string, string>,
                              secrets: set<(Path, string)>, naming: Path -> string) {
    && after.Keys == before.Keys + NamesOf(secrets, naming)
    && (forall n :: n in before ==> after[n] == before[n])
    && (forall x :: x in secrets ==> naming(x.0) in after && after[naming(x.0)] == x.1)
  }

  /** Protection changes nothing the service reads: references resolve to the plaintext they replaced. */
  lemma {:induction false} ProtectKeepsMeaning(v: Json, path: Path, naming: Path -> string, all: set<Path>,
                                               before: map<string, string>, after: map<string, string>)
    requires GoodNames(naming, all) && Places(PlainSecrets(v, path)) <= all
    requires forall n :: n in before ==> n in after && after[n] == before[n]
    requires forall x :: x in PlainSecrets(v, path) ==> naming(x.0) in after && after[naming(x.0)] == x.1
    requires forall n :: n in Refs(v) && n in after ==> n in before
    ensures Reveal(Protect(v, path, naming), after) == Reveal(v, before)
  {
    hide ValidName, Managed, Documentation, Protected;
    match v
    case Arr(items) =>
      forall i | 0 <= i < |items|
        ensures Reveal(Protect(items[i], path + [Elem(i)], naming), after) == Reveal(items[i], before)
      {
        assert forall x :: x in PlainSecrets(items[i], path + [Elem(i)]) ==> x in PlainSecrets(v, path);
        assert forall n :: n in Refs(items[i]) ==> n in Refs(v);
        ProtectKeepsMeaning(items[i], path + [Elem(i)], naming, all, before, after);
      }
    case Obj(fields) =>
      var w := Protect(v, path, naming);
      forall k | k in fields
        ensures RevealField(w, k, after) == RevealField(v, k, before)
      {
        assert forall n :: n in Refs(fields[k]) ==> n in Refs(v);
        assert forall x :: x in PlainField(v, k, path) ==> x in PlainSecrets(v, path);
        assert w.fields[k] == ProtectField(v, k, path, naming);
        if Documentation(k) {
        } else if Protected(k) {
          if Plaintext(fields[k]) {
            assert (path + [Field(k)], fields[k].text) in PlainField(v, k, path);
            ReferenceRoundTrip(naming(path + [Field(k)]));
          } else if fields[k].Str? && ReferenceOf(fields[k].text).To? {
            assert ReferenceOf(fields[k].text).name in Refs(fields[k]);
          }
        } else {
          assert forall x :: x in PlainSecrets(fields[k], path + [Field(k)]) ==> x in PlainField(v, k, path);
          ProtectKeepsMeaning(fields[k], path + [Field(k)], naming, all, before, after);
        }
      }
    case _ =>
  }

  /** Nothing is left in plaintext, so protecting again changes nothing. */
  lemma {:induction false} ProtectIsComplete(v: Json, path: Path, naming: Path -> string, all: set<Path>)
    requires GoodNames(naming, all) && Places(PlainSecrets(v, path)) <= all
    ensures PlainSecrets(Protect(v, path, naming), path) == {}
  {
    match v
    case Arr(items) =>
      forall i | 0 <= i < |items|
        ensures PlainSecrets(Protect(items[i], path + [Elem(i)], naming), path + [Elem(i)]) == {}
      {
        assert PlainSecrets(items[i], path + [Elem(i)]) <= PlainSecrets(v, path);
        ProtectIsComplete(items[i], path + [Elem(i)], naming, all);
      }
    case Obj(fields) =>
      var w := Protect(v, path, naming);
      forall k | k in fields ensures PlainField(w, k, path) == {} {
        assert PlainField(v, k, path) <= PlainSecrets(v, path);
        assert w.fields[k] == ProtectField(v, k, path, naming);
        if !Documentation(k) && Protected(k) && Plaintext(fields[k]) {
          assert (path + [Field(k)], fields[k].text) in PlainField(v, k, path);
          ReferenceRoundTrip(naming(path + [Field(k)]));
        } else if !Documentation(k) && !Protected(k) {
          ProtectIsComplete(fields[k], path + [Field(k)], naming, all);
        }
      }
    case _ =>
  }

  /** Protection makes no reference malformed and mends none. */
  lemma {:induction false} ProtectKeepsWellFormed(v: Json, path: Path, naming: Path -> string, all: set<Path>)
    requires GoodNames(naming, all) && Places(PlainSecrets(v, path)) <= all
    ensures HasMalformed(Protect(v, path, naming)) <==> HasMalformed(v)
  {
    hide ValidName, Managed, Documentation, Protected;
    match v
    case Arr(items) =>
      forall i | 0 <= i < |items| ensures HasMalformed(Protect(items[i], path + [Elem(i)], naming)) <==> HasMalformed(items[i]) {
        assert forall x :: x in PlainSecrets(items[i], path + [Elem(i)]) ==> x in PlainSecrets(v, path);
        ProtectKeepsWellFormed(items[i], path + [Elem(i)], naming, all);
      }
      var w := Protect(v, path, naming);
      assert |w.items| == |items| && forall i :: 0 <= i < |items| ==> w.items[i] == Protect(items[i], path + [Elem(i)], naming);
    case Obj(fields) =>
      var w := Protect(v, path, naming);
      forall k | k in fields ensures MalformedField(w, k) <==> MalformedField(v, k) {
        assert w.fields[k] == ProtectField(v, k, path, naming);
        assert forall x :: x in PlainField(v, k, path) ==> x in PlainSecrets(v, path);
        if !Documentation(k) && Protected(k) && Plaintext(fields[k]) {
          assert (path + [Field(k)], fields[k].text) in PlainField(v, k, path);
          ReferenceRoundTrip(naming(path + [Field(k)]));
        } else if !Documentation(k) && !Protected(k) {
          ProtectKeepsWellFormed(fields[k], path + [Field(k)], naming, all);
        }
      }
      assert w.fields.Keys == fields.Keys;
    case _ =>
  }

  lemma {:induction false} NothingToProtect(v: Json, path: Path, naming: Path -> string)
    requires PlainSecrets(v, path) == {}
    ensures Protect(v, path, naming) == v
  {
    match v
    case Arr(items) =>
      forall i | 0 <= i < |items| ensures Protect(items[i], path + [Elem(i)], naming) == items[i] {
        assert PlainSecrets(items[i], path + [Elem(i)]) <= PlainSecrets(v, path);
        NothingToProtect(items[i], path + [Elem(i)], naming);
      }
    case Obj(fields) =>
      forall k | k in fields ensures ProtectField(v, k, path, naming) == fields[k] {
        var child := fields[k];
        assert !Documentation(k) && Protected(k) && Plaintext(child) ==>
            (path + [Field(k)], child.text) in PlainField(v, k, path);
        assert PlainField(v, k, path) <= PlainSecrets(v, path);
        if !Documentation(k) && !Protected(k) {
          assert PlainField(v, k, path) == PlainSecrets(fields[k], path + [Field(k)]);
          NothingToProtect(fields[k], path + [Field(k)], naming);
        }
      }
    case _ =>
  }

  /** What a document reveals depends only on the credentials it references. */
  lemma {:induction false} RevealNeedsOnlyRefs(v: Json, one: map<string, string>, two: map<string, string>)
    requires forall n :: n in Refs(v) ==> (n in one <==> n in two) && (n in one ==> one[n] == two[n])
    ensures Reveal(v, one) == Reveal(v, two)
  {
    match v
    case Arr(items) =>
      forall i | 0 <= i < |items| ensures Reveal(items[i], one) == Reveal(items[i], two) {
        assert Refs(items[i]) <= Refs(v);
        RevealNeedsOnlyRefs(items[i], one, two);
      }
    case Obj(fields) =>
      forall k | k in fields ensures RevealField(v, k, one) == RevealField(v, k, two) {
        assert Refs(fields[k]) <= Refs(v);
        RevealNeedsOnlyRefs(fields[k], one, two);
      }
    case _ =>
  }

  // ----- Place by place -----------------------------------------------------

  /** Names whose texts may not stand in plain, in whatever case, unless they begin with an underscore. */
  predicate IsSecretName(key: string) {
    Lower(key) in {"password", "passwd", "root_password", "admin_password", "node_root_password", "web_password",
                   "bmc_password", "community", "snmp_community", "trap_community", "secret", "token", "api_key",
                   "private_key", "webhook_url"}
  }

  predicate IsComment(key: string) {
    |key| > 0 && key[0] == '_'
  }

  /** The place of a secret: under a secret name, with no secret name and no comment on the way. */
  predicate SecretPlace(p: Path) {
    && p != [] && p[|p| - 1].Field? && IsSecretName(p[|p| - 1].name)
    && (forall i :: 0 <= i < |p| && p[i].Field? ==> !IsComment(p[i].name))
    && (forall i :: 0 <= i < |p| - 1 && p[i].Field? ==> !IsSecretName(p[i].name))
  }

  lemma SecretPlaceBelow(p: Path)
    requires |p| > 1
    ensures SecretPlace(p) <==> SecretPlace(p[1..]) && (p[0].Field? ==> !IsComment(p[0].name) && !IsSecretName(p[0].name))
  {
    hide IsSecretName, IsComment;
    var q := p[1..];
    assert forall i :: 1 <= i < |p| ==> p[i] == q[i - 1];
    assert forall i :: 0 <= i < |q| ==> q[i] == p[i + 1];
  }

  /**
    In a protected document no text at the place of a secret stands in plain: each is empty or a reference.
    Every other value is as it was.
   */
  lemma {:induction false} ProtectedPlaces(v: Json, path: Path, naming: Path -> string, p: Path)
    requires At(v, p).Some? && !At(v, p).value.Obj? && !At(v, p).value.Arr?
    ensures At(Protect(v, path, naming), p) ==
              if SecretPlace(p) && At(v, p).value.Str? && At(v, p).value.text != "" && !("secret://" <= At(v, p).value.text)
              then Some(Str("secret://" + naming(path + p))) else At(v, p)
  {
    hide IsSecretName, IsComment, SecretPlace;
    if p == [] {
      NoPlaceIsNoSecret();
      assert At(v, p).value == v;
    } else {
      var rest := p[1..];
      match p[0]
      case Field(k) =>
        assert Protect(v, path, naming).fields[k] == ProtectField(v, k, path, naming);
        NamesMean(k);
        if rest == [] {
          assert p == [Field(k)] && At(v, p) == Some(v.fields[k]);
          OnePlace(k);
          PlainMeans(v.fields[k]);
          LeafIsKept(v.fields[k], path + [Field(k)], naming);
        } else {
          SecretPlaceBelow(p);
          assert path + [Field(k)] + rest == path + p;
          if !Documentation(k) && !Protected(k) { ProtectedPlaces(v.fields[k], path + [Field(k)], naming, rest); }
          else { SameBelow(v, k, path, naming, rest); }
        }
      case Elem(i) =>
        assert Protect(v, path, naming).items[i] == Protect(v.items[i], path + [Elem(i)], naming);
        assert path + [Elem(i)] + rest == path + p;
        ProtectedPlaces(v.items[i], path + [Elem(i)], naming, rest);
        if rest == [] { NoPlaceIsNoSecret(); NoElement(i); assert p == [Elem(i)]; } else { SecretPlaceBelow(p); }
    }
  }

  /** Protection adds and removes no place. */
  lemma {:induction false} PlacesStay(v: Json, path: Path, naming: Path -> string, p: Path)
    ensures At(Protect(v, path, naming), p).Some? <==> At(v, p).Some?
    ensures At(v, p).Some? ==>
      var w, u := At(Protect(v, path, naming), p).value, At(v, p).value; (w.Obj? <==> u.Obj?) && (w.Arr? <==> u.Arr?)
    decreases |p|
  {
    hide Documentation, Protected, Plaintext;
    if p != [] {
      match p[0]
      case Field(k) =>
        if v.Obj? && k in v.fields {
          assert Protect(v, path, naming).fields[k] == ProtectField(v, k, path, naming);
          if !Documentation(k) && !Protected(k) { PlacesStay(v.fields[k], path + [Field(k)], naming, p[1..]); }
          else if !Documentation(k) && Plaintext(v.fields[k]) { LeavesHaveNoPlaces(v.fields[k], PREFIX + naming(path + [Field(k)]), p[1..]); }
        }
      case Elem(i) =>
        if v.Arr? && i < |v.items| {
          assert Protect(v, path, naming).items[i] == Protect(v.items[i], path + [Elem(i)], naming);
          PlacesStay(v.items[i], path + [Elem(i)], naming, p[1..]);
        }
    }
  }

  lemma LeavesHaveNoPlaces(v: Json, text: string, p: Path)
    requires Plaintext(v)
    ensures v.Str? && (At(v, p).Some? <==> p == [])
    ensures At(Str(text), p).Some? <==> p == []
  {
  }

  /** So every text at the place of a secret in a protected document is empty or a reference. */
  lemma NothingInPlain(v: Json, naming: Path -> string, p: Path)
    requires SecretPlace(p) && At(Protect(v, [], naming), p).Some? && At(Protect(v, [], naming), p).value.Str?
    ensures var text := At(Protect(v, [], naming), p).value.text; text == "" || "secret://" <= text
  {
    hide SecretPlace, Protect;
    PlacesStay(v, [], naming, p);
    ProtectedPlaces(v, [], naming, p);
  }

  lemma SameBelow(v: Json, k: string, path: Path, naming: Path -> string, rest: Path)
    requires v.Obj? && k in v.fields && (Documentation(k) || Protected(k)) && rest != [] && At(v.fields[k], rest).Some?
    ensures At(ProtectField(v, k, path, naming), rest) == At(v.fields[k], rest)
  {
  }

  lemma NoPlaceIsNoSecret()
    ensures !SecretPlace([])
  {
  }

  lemma NoElement(i: nat)
    ensures !SecretPlace([Elem(i)])
  {
  }

  lemma OnePlace(k: string)
    ensures SecretPlace([Field(k)]) <==> IsSecretName(k) && !IsComment(k)
  {
    hide IsSecretName, IsComment;
    assert [Field(k)][0] == Field(k);
  }

  lemma NamesMean(k: string)
    ensures Protected(k) <==> IsSecretName(k)
    ensures Documentation(k) <==> IsComment(k)
  {
  }

  lemma PlainMeans(v: Json)
    ensures Plaintext(v) <==> v.Str? && v.text != "" && !("secret://" <= v.text)
  {
  }

  lemma LeafIsKept(v: Json, path: Path, naming: Path -> string)
    requires !v.Obj? && !v.Arr?
    ensures Protect(v, path, naming) == v
  {
  }
}

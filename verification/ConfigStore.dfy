/**
  Read-modify-write of the configuration file, its backup and the managed credentials. Every
  file step may fail, and the process may stop between any two of them: `trace` records what
  a restart would find after each one.
 */
module ConfigStore {
  import opened Base
  import opened Json
  import opened Secrets

  datatype Disk = Disk(live: Json, bak: Option<Json>, creds: map<string, string>)

  /** What is on disk, and whether the backup is known to be one whose credentials were kept. */
  datatype Moment = Moment(disk: Disk, bakKept: bool)

  /** A file replacement: done, not done, or done with a failing directory sync. */
  datatype Replace = Done | NotDone | DoneButFailed

  datatype SecretPolicy = RequireReferences | AllowPlaintext | Invalid

  /**
    `synced`: the directory sync succeeded; `backedUp`: the previous document is in the backup;
    `cleaned`: every credential no longer needed was removed.
   */
  datatype Outcome = Refused | Committed(synced: bool, backedUp: bool, cleaned: bool)

  function PolicyOf(doc: Json): SecretPolicy {
    if !doc.Obj? || "secret_policy" !in doc.fields || !doc.fields["secret_policy"].Str?
       || doc.fields["secret_policy"].text == "" then RequireReferences
    else
      var text := doc.fields["secret_policy"].text;
      if text == "require-references" then RequireReferences
      else if text == "allow-plaintext" then AllowPlaintext else Invalid
  }

  /** Refused whatever the files do: a policy that does not exist, or a reference that is not well formed. */
  predicate Refusable(doc: Json) {
    PolicyOf(doc).Invalid? || (PolicyOf(doc).RequireReferences? && HasMalformed(doc))
  }

  /** The document that is written for a requested one. */
  function Final(doc: Json, naming: Path -> string): Json {
    if PolicyOf(doc).RequireReferences? then Protect(doc, [], naming) else doc
  }

  /**
    What the policy field says. Without one, or with an empty one, or one that is no text, references are
    required: then no text at the place of a secret is written in plain. Only "allow-plaintext" writes the
    document as it was asked for, and any other text is refused.
   */
  lemma PolicyDecides(doc: Json, naming: Path -> string)
    ensures var policy := At(doc, [Field("secret_policy")]);
      if policy == Some(Str("allow-plaintext")) then Final(doc, naming) == doc && !Refusable(doc)
      else if policy.None? || !policy.value.Str? || policy.value.text in {"", "require-references"} then
        (Refusable(doc) <==> HasMalformed(doc))
        && forall p :: SecretPlace(p) && At(Final(doc, naming), p).Some? && At(Final(doc, naming), p).value.Str? ==>
             var text := At(Final(doc, naming), p).value.text; text == "" || "secret://" <= text
      else Refusable(doc)
  {
    hide SecretPlace, Protect, HasMalformed;
    PolicyPlace(doc);
    if PolicyOf(doc).RequireReferences? {
      forall p | SecretPlace(p) && At(Final(doc, naming), p).Some? && At(Final(doc, naming), p).value.Str?
        ensures var text := At(Final(doc, naming), p).value.text; text == "" || "secret://" <= text
      {
        NothingInPlain(doc, naming, p);
      }
    }
  }

  lemma PolicyPlace(doc: Json)
    ensures At(doc, [Field("secret_policy")]) ==
              if doc.Obj? && "secret_policy" in doc.fields then Some(doc.fields["secret_policy"]) else None
  {
    assert [Field("secret_policy")][1..] == [];
  }

  predicate Resolves(doc: Json, creds: map<string, string>) {
    ManagedRefs(doc) <= creds.Keys
  }

  /** Every managed reference of the live document has its credential, and so has a kept backup's. */
  predicate Safe(m: Moment) {
    && Resolves(m.disk.live, m.disk.creds)
    && (m.bakKept ==> m.disk.bak.Some? && Resolves(m.disk.bak.value, m.disk.creds))
  }

  /** What has to be moved out of a document before it may be written. */
  function ToProtect(doc: Json): set<(Path, string)> {
    if PolicyOf(doc).RequireReferences? then PlainSecrets(doc, []) else {}
  }

  /** For each secret to be moved a well-formed name that nothing uses yet. */
  ghost predicate FreshNames(naming: Path -> string, d: Disk, doc: Json) {
    && GoodNames(naming, Places(ToProtect(doc)))
    && forall p :: p in Places(ToProtect(doc)) ==>
         naming(p) !in d.creds && naming(p) !in Refs(d.live) && naming(p) !in Refs(doc)
  }

  /** At every later moment these credentials exist. */
  ghost predicate Kept(names: set<string>, earlier: seq<Moment>, later: seq<Moment>) {
    && earlier <= later
    && forall i :: |earlier| <= i < |later| ==> names <= later[i].disk.creds.Keys
  }

  ghost predicate NotYet(naming: Path -> string, all: set<Path>, path: Path, creds: map<string, string>) {
    forall p :: p in all && path <= p ==> naming(p) !in creds
  }

  predicate Extends(more: map<string, string>, creds: map<string, string>) {
    forall n :: n in creds ==> n in more && more[n] == creds[n]
  }

  /** During provisioning the documents stay and credentials are only added, at every moment. */
  ghost predicate OnlyAdded(from: Moment, earlier: seq<Moment>, later: seq<Moment>) {
    && earlier <= later
    && forall i :: |earlier| <= i < |later| ==>
         later[i].disk.live == from.disk.live && later[i].disk.bak == from.disk.bak && later[i].bakKept == from.bakKept
         && Extends(later[i].disk.creds, from.disk.creds)
  }

  lemma AddedMore(from: Moment, mid: Moment, a: seq<Moment>, b: seq<Moment>, c: seq<Moment>)
    requires OnlyAdded(from, a, b) && OnlyAdded(mid, b, c)
    requires mid == Moment(Disk(from.disk.live, from.disk.bak, mid.disk.creds), from.bakKept)
    requires Extends(mid.disk.creds, from.disk.creds)
    ensures OnlyAdded(from, a, c)
  {
    assert c[|a|..] == b[|a|..] + c[|b|..];
  }

  /** Places under different steps get different names. */
  lemma SiblingsDiffer(naming: Path -> string, all: set<Path>, path: Path, a: Step, b: Step, p: Path, q: Path)
    requires GoodNames(naming, all) && p in all && q in all && a != b && path + [a] <= p && path + [b] <= q
    ensures naming(p) != naming(q)
  {
    assert p[|path|] == a && q[|path|] == b;
  }

  lemma ProvisionedMore(a: map<string, string>, b: map<string, string>, c: map<string, string>,
                        first: set<(Path, string)>, second: set<(Path, string)>, naming: Path -> string)
    requires Provisioned(a, b, first, naming) && Provisioned(b, c, second, naming)
    ensures Provisioned(a, c, first + second, naming)
  {
  }

  function ItemSecrets(v: Json, path: Path, n: nat): set<(Path, string)>
    requires v.Arr? && n <= |v.items|
  {
    set j, x | 0 <= j < n && x in PlainSecrets(v.items[j], path + [Elem(j)]) :: x
  }

  function FieldSecrets(v: Json, path: Path, keys: set<string>): set<(Path, string)>
    requires v.Obj? && keys <= v.fields.Keys
  {
    set k, x | k in keys && x in PlainField(v, k, path) :: x
  }

  function ItemsProtected(v: Json, path: Path, naming: Path -> string, n: nat): seq<Json>
    requires v.Arr? && n <= |v.items|
  {
    seq(n, i requires 0 <= i < n => Protect(v.items[i], path + [Elem(i)], naming))
  }

  predicate ItemsWellFormed(v: Json, n: nat)
    requires v.Arr? && n <= |v.items|
  {
    forall i :: 0 <= i < n ==> !HasMalformed(v.items[i])
  }

  lemma OneMoreItem(v: Json, path: Path, naming: Path -> string, n: nat)
    requires v.Arr? && n < |v.items| && ItemsWellFormed(v, n) && !HasMalformed(v.items[n])
    ensures ItemsProtected(v, path, naming, n) + [Protect(v.items[n], path + [Elem(n)], naming)] == ItemsProtected(v, path, naming, n + 1)
    ensures ItemsWellFormed(v, n + 1)
  {
  }

  lemma AllItemsDone(v: Json, path: Path, naming: Path -> string)
    requires v.Arr? && ItemsWellFormed(v, |v.items|)
    ensures Arr(ItemsProtected(v, path, naming, |v.items|)) == Protect(v, path, naming) && !HasMalformed(v)
    ensures ItemSecrets(v, path, |v.items|) == PlainSecrets(v, path)
  {
  }

  lemma ItemNamesStayFresh(v: Json, path: Path, n: nat, naming: Path -> string, all: set<Path>,
                           a: map<string, string>, b: map<string, string>)
    requires v.Arr? && n < |v.items| && GoodNames(naming, all) && Places(PlainSecrets(v, path)) <= all
    requires Provisioned(a, b, ItemSecrets(v, path, n), naming) && NotYet(naming, all, path, a)
    ensures NotYet(naming, all, path + [Elem(n)], b)
  {
    forall p | p in all && path + [Elem(n)] <= p ensures naming(p) !in b {
      assert path <= p;
      forall x | x in ItemSecrets(v, path, n) ensures naming(x.0) != naming(p) {
        var j :| 0 <= j < n && x in PlainSecrets(v.items[j], path + [Elem(j)]);
        SecretsAreBelow(v.items[j], path + [Elem(j)], x);
        assert x in PlainSecrets(v, path);
        SiblingsDiffer(naming, all, path, Elem(j), Elem(n), x.0, p);
      }
    }
  }

  lemma FieldSecretsGrow(v: Json, path: Path, keys: set<string>, k: string)
    requires v.Obj? && keys <= v.fields.Keys && k in v.fields
    ensures FieldSecrets(v, path, keys) + PlainField(v, k, path) == FieldSecrets(v, path, keys + {k})
    ensures FieldSecrets(v, path, keys + {k}) <= PlainSecrets(v, path)
  {
  }

  function FieldsProtected(v: Json, path: Path, naming: Path -> string, keys: set<string>): map<string, Json>
    requires v.Obj? && keys <= v.fields.Keys
  {
    map k | k in keys :: ProtectField(v, k, path, naming)
  }

  predicate FieldsWellFormed(v: Json, keys: set<string>)
    requires v.Obj? && keys <= v.fields.Keys
  {
    forall k :: k in keys ==> !MalformedField(v, k)
  }

  lemma OneMoreField(v: Json, path: Path, naming: Path -> string, keys: set<string>, k: string)
    requires v.Obj? && keys <= v.fields.Keys && k in v.fields && !MalformedField(v, k) && FieldsWellFormed(v, keys)
    ensures FieldsProtected(v, path, naming, keys)[k := ProtectField(v, k, path, naming)] == FieldsProtected(v, path, naming, keys + {k})
    ensures FieldsWellFormed(v, keys + {k})
  {
  }

  lemma OneMalformed(v: Json, k: string)
    requires v.Obj? && k in v.fields
    ensures MalformedField(v, k) ==> HasMalformed(v)
  {
  }

  lemma AllFieldsDone(v: Json, path: Path, naming: Path -> string)
    requires v.Obj? && FieldsWellFormed(v, v.fields.Keys)
    ensures Obj(FieldsProtected(v, path, naming, v.fields.Keys)) == Protect(v, path, naming) && !HasMalformed(v)
    ensures FieldSecrets(v, path, v.fields.Keys) == PlainSecrets(v, path)
  {
    assert FieldsProtected(v, path, naming, v.fields.Keys) == map k | k in v.fields :: ProtectField(v, k, path, naming);
  }

  lemma FieldNamesStayFresh(v: Json, path: Path, keys: set<string>, k: string, naming: Path -> string, all: set<Path>,
                            a: map<string, string>, b: map<string, string>)
    requires v.Obj? && keys <= v.fields.Keys && k !in keys && GoodNames(naming, all) && Places(PlainSecrets(v, path)) <= all
    requires Provisioned(a, b, FieldSecrets(v, path, keys), naming) && NotYet(naming, all, path, a)
    ensures NotYet(naming, all, path + [Field(k)], b)
  {
    forall p | p in all && path + [Field(k)] <= p ensures naming(p) !in b {
      assert path <= p;
      forall x | x in FieldSecrets(v, path, keys) ensures naming(x.0) != naming(p) {
        var l :| l in keys && x in PlainField(v, l, path);
        FieldSecretsAreBelow(v, l, path, x);
        assert x in PlainSecrets(v, path);
        SiblingsDiffer(naming, all, path, Field(l), Field(k), x.0, p);
      }
    }
  }

  /** While credentials are removed the documents stay, and only the given names can go. */
  ghost predicate OnlyRemoved(from: Moment, names: set<string>, earlier: seq<Moment>, later: seq<Moment>) {
    && earlier <= later
    && forall i :: |earlier| <= i < |later| ==> RemovedFrom(from, names, later[i])
  }

  ghost predicate RemovedFrom(from: Moment, names: set<string>, m: Moment) {
    && m.disk.live == from.disk.live && m.disk.bak == from.disk.bak && m.bakKept == from.bakKept
    && Extends(from.disk.creds, m.disk.creds) && forall n :: n in from.disk.creds ==> n in m.disk.creds || n in names
  }

  /** No name of the set is needed by the live document or a kept backup. */
  predicate Unneeded(names: set<string>, m: Moment) {
    && names !! Refs(m.disk.live)
    && (m.bakKept && m.disk.bak.Some? ==> names !! Refs(m.disk.bak.value))
  }

  lemma RemovalIsSafe(from: Moment, names: set<string>, m: Moment)
    requires Safe(from) && Unneeded(names, from) && RemovedFrom(from, names, m)
    ensures Safe(m)
  {
    forall n | n in ManagedRefs(from.disk.live) ensures n in m.disk.creds {
      assert n in from.disk.creds && n !in names;
    }
    if from.bakKept {
      forall n | n in ManagedRefs(from.disk.bak.value) ensures n in m.disk.creds {
        assert n in from.disk.creds && n !in names;
      }
    }
  }

  lemma AddingIsSafe(from: Moment, m: Moment)
    requires Safe(from) && Extends(m.disk.creds, from.disk.creds)
    requires m == Moment(Disk(from.disk.live, from.disk.bak, m.disk.creds), from.bakKept)
    ensures Safe(m)
  {
  }

  /** The written document resolves, and reads as the requested one did with the earlier credentials. */
  lemma FinalIsFaithful(doc: Json, naming: Path -> string, before: map<string, string>, after: map<string, string>)
    requires GoodNames(naming, Places(ToProtect(doc))) && Resolves(doc, before)
    requires forall p :: p in Places(ToProtect(doc)) ==> naming(p) !in Refs(doc)
    requires Provisioned(before, after, ToProtect(doc), naming)
    ensures Resolves(Final(doc, naming), after)
    ensures Reveal(Final(doc, naming), after) == Reveal(doc, before)
    ensures PolicyOf(doc).RequireReferences? ==> PlainSecrets(Final(doc, naming), []) == {}
    ensures Refs(doc) <= Refs(Final(doc, naming))
  {
    if PolicyOf(doc).RequireReferences? {
      var all := Places(PlainSecrets(doc, []));
      ProtectKeepsRefs(doc, [], naming);
      ProtectRefs(doc, [], naming, all);
      assert forall n :: n in Refs(doc) && n in after ==> n in before;
      ProtectKeepsMeaning(doc, [], naming, all, before, after);
      ProtectIsComplete(doc, [], naming, all);
    } else {
      assert after == before;
    }
  }

  lemma NothingDone(v: Json, path: Path, naming: Path -> string, from: Moment, trace: seq<Moment>)
    requires v.Obj?
    ensures OnlyAdded(from, trace, trace) && Provisioned(from.disk.creds, from.disk.creds, FieldSecrets(v, path, {}), naming)
    ensures FieldsProtected(v, path, naming, {}) == map[] && FieldsWellFormed(v, {})
  {
    assert FieldSecrets(v, path, {}) == {};
  }

  lemma ProvisionedMeans(a: map<string, string>, b: map<string, string>, secrets: set<(Path, string)>, naming: Path -> string)
    requires Provisioned(a, b, secrets, naming)
    ensures Extends(b, a) && b.Keys <= a.Keys + NamesOf(secrets, naming)
  {
  }

  class Store {
    var live: Json
    var bak: Option<Json>
    var creds: map<string, string>
    ghost var bakKept: bool
    ghost var trace: seq<Moment>
    ghost var failures: nat // file steps that have failed so far

    function Now(): Disk
      reads this
    {
      Disk(live, bak, creds)
    }

    ghost function Here(): Moment
      reads this
    {
      Moment(Now(), bakKept)
    }

    ghost predicate Valid()
      reads this
    {
      && Safe(Here())
      && forall i :: 0 <= i < |trace| ==> Safe(trace[i])
    }

    /** A process starting on what an earlier one left. */
    constructor (found: Disk, ghost kept: bool)
      requires Safe(Moment(found, kept))
      ensures Valid() && Now() == found && bakKept == kept && trace == [] && failures == 0
    {
      live, bak, creds := found.live, found.bak, found.creds;
      bakKept, trace, failures := kept, [], 0;
    }

    /** Creates one credential file, or fails leaving none. */
    method WriteCredential(name: string, value: string) returns (ok: bool)
      requires name !in creds
      modifies `creds, `trace, `failures
      ensures creds == if ok then old(creds)[name := value] else old(creds)
      ensures trace == old(trace) + [Here()]
      ensures failures == old(failures) + if ok then 0 else 1
    {
      ok := *;
      if ok {
        creds := creds[name := value];
      } else {
        failures := failures + 1;
      }
      trace := trace + [Here()];
    }

    /** Removes one credential file, or fails leaving it. */
    method RemoveCredential(name: string) returns (ok: bool)
      requires Managed(name)
      modifies `creds, `trace, `failures
      ensures creds == if ok then old(creds) - {name} else old(creds)
      ensures trace == old(trace) + [Here()]
      ensures failures == old(failures) + if ok then 0 else 1
    {
      ok := *;
      if ok {
        creds := creds - {name};
      } else {
        failures := failures + 1;
      }
      trace := trace + [Here()];
    }

    /** Replaces the plaintext secrets of v; each is written under its fresh name before it leaves the document. */
    method ProtectValue(v: Json, path: Path, naming: Path -> string, ghost all: set<Path>) returns (out: Json, ok: bool)
      requires GoodNames(naming, all) && Places(PlainSecrets(v, path)) <= all && NotYet(naming, all, path, creds)
      modifies `creds, `trace, `failures
      ensures OnlyAdded(old(Here()), old(trace), trace) && Extends(creds, old(creds))
      ensures creds.Keys <= old(creds).Keys + NamesOf(PlainSecrets(v, path), naming)
      ensures ok ==> out == Protect(v, path, naming) && !HasMalformed(v)
      ensures ok ==> Provisioned(old(creds), creds, PlainSecrets(v, path), naming)
      ensures failures >= old(failures) && (!ok ==> HasMalformed(v) || failures > old(failures))
      decreases v, 2
    {
      match v {
        case Arr(items) => out, ok := ProtectItems(v, path, naming, all);
        case Obj(fields) => out, ok := ProtectFields(v, path, naming, all);
        case _ => out, ok := v, true;
      }
    }

    method ProtectItems(v: Json, path: Path, naming: Path -> string, ghost all: set<Path>) returns (out: Json, ok: bool)
      requires v.Arr? && GoodNames(naming, all) && Places(PlainSecrets(v, path)) <= all && NotYet(naming, all, path, creds)
      modifies `creds, `trace, `failures
      ensures OnlyAdded(old(Here()), old(trace), trace) && Extends(creds, old(creds))
      ensures creds.Keys <= old(creds).Keys + NamesOf(PlainSecrets(v, path), naming)
      ensures ok ==> out == Protect(v, path, naming) && !HasMalformed(v)
      ensures ok ==> Provisioned(old(creds), creds, PlainSecrets(v, path), naming)
      ensures failures >= old(failures) && (!ok ==> HasMalformed(v) || failures > old(failures))
      decreases v, 1
    {
      var done: seq<Json> := [];
      assert ItemSecrets(v, path, 0) == {};
      for i := 0 to |v.items|
        invariant OnlyAdded(old(Here()), old(trace), trace) && failures >= old(failures)
        invariant Provisioned(old(creds), creds, ItemSecrets(v, path, i), naming)
        invariant done == ItemsProtected(v, path, naming, i) && ItemsWellFormed(v, i)
      {
        var item, fine := ProtectItem(v, i, path, naming, all, old(Here()), old(trace));
        if !fine {
          return v, false;
        }
        OneMoreItem(v, path, naming, i);
        done := done + [item];
      }
      AllItemsDone(v, path, naming);
      out, ok := Arr(done), true;
    }

    /** One more item, seen from where the loop over the items started. */
    method ProtectItem(v: Json, i: nat, path: Path, naming: Path -> string, ghost all: set<Path>,
                       ghost from: Moment, ghost earlier: seq<Moment>)
      returns (out: Json, ok: bool)
      requires v.Arr? && i < |v.items|
      requires GoodNames(naming, all) && Places(PlainSecrets(v, path)) <= all && NotYet(naming, all, path, from.disk.creds)
      requires from.disk == Disk(live, bak, from.disk.creds) && from.bakKept == bakKept
      requires OnlyAdded(from, earlier, trace)
      requires Provisioned(from.disk.creds, creds, ItemSecrets(v, path, i), naming)
      modifies `creds, `trace, `failures
      ensures OnlyAdded(from, earlier, trace) && Extends(creds, from.disk.creds)
      ensures creds.Keys <= from.disk.creds.Keys + NamesOf(PlainSecrets(v, path), naming)
      ensures ok ==> out == Protect(v.items[i], path + [Elem(i)], naming) && !HasMalformed(v.items[i])
      ensures ok ==> Provisioned(from.disk.creds, creds, ItemSecrets(v, path, i + 1), naming)
      ensures failures >= old(failures) && (!ok ==> HasMalformed(v.items[i]) || failures > old(failures))
      decreases v, 1, 0
    {
      ghost var was, before := Here(), trace;
      ghost var mine := PlainSecrets(v.items[i], path + [Elem(i)]);
      ItemNamesStayFresh(v, path, i, naming, all, from.disk.creds, creds);
      assert mine <= PlainSecrets(v, path) && ItemSecrets(v, path, i) <= PlainSecrets(v, path);
      out, ok := ProtectValue(v.items[i], path + [Elem(i)], naming, all);
      AddedMore(from, was, earlier, before, trace);
      if ok {
        ProvisionedMore(from.disk.creds, was.disk.creds, creds, ItemSecrets(v, path, i), mine, naming);
        assert ItemSecrets(v, path, i) + mine == ItemSecrets(v, path, i + 1);
      }
    }

    method ProtectFields(v: Json, path: Path, naming: Path -> string, ghost all: set<Path>) returns (out: Json, ok: bool)
      requires v.Obj? && GoodNames(naming, all) && Places(PlainSecrets(v, path)) <= all && NotYet(naming, all, path, creds)
      modifies `creds, `trace, `failures
      ensures OnlyAdded(old(Here()), old(trace), trace) && Extends(creds, old(creds))
      ensures creds.Keys <= old(creds).Keys + NamesOf(PlainSecrets(v, path), naming)
      ensures ok ==> out == Protect(v, path, naming) && !HasMalformed(v)
      ensures ok ==> Provisioned(old(creds), creds, PlainSecrets(v, path), naming)
      ensures failures >= old(failures) && (!ok ==> HasMalformed(v) || failures > old(failures))
      decreases v, 1
    {
      hide OnlyAdded, Provisioned, Extends, FieldSecrets, FieldsProtected, FieldsWellFormed, NamesOf, NotYet, GoodNames;
      hide Protect, ProtectField, PlainSecrets, PlainField, HasMalformed, MalformedField;
      ghost var from, earlier := Here(), trace;
      var rest := v.fields.Keys;
      var done: map<string, Json> := map[];
      ghost var keys: set<string> := {};
      NothingDone(v, path, naming, from, earlier);
      while rest != {}
        invariant rest <= v.fields.Keys && keys == v.fields.Keys - rest
        invariant OnlyAdded(from, earlier, trace) && failures >= old(failures)
        invariant Provisioned(from.disk.creds, creds, FieldSecrets(v, path, keys), naming)
        invariant done == FieldsProtected(v, path, naming, keys) && FieldsWellFormed(v, keys)
        decreases |rest|
      {
        var k :| k in rest;
        var field, fine := ProtectNext(v, k, path, naming, all, from, earlier, keys);
        if !fine {
          OneMalformed(v, k);
          return v, false;
        }
        OneMoreField(v, path, naming, keys, k);
        done, rest := done[k := field], rest - {k};
        keys := keys + {k};
      }
      assert keys == v.fields.Keys;
      AllFieldsDone(v, path, naming);
      ProvisionedMeans(from.disk.creds, creds, FieldSecrets(v, path, keys), naming);
      out, ok := Obj(done), true;
    }

    /** One more field, seen from where the loop over the fields started. */
    method ProtectNext(v: Json, k: string, path: Path, naming: Path -> string, ghost all: set<Path>,
                       ghost from: Moment, ghost earlier: seq<Moment>, ghost keys: set<string>)
      returns (out: Json, ok: bool)
      requires v.Obj? && keys <= v.fields.Keys && k in v.fields.Keys - keys
      requires GoodNames(naming, all) && Places(PlainSecrets(v, path)) <= all && NotYet(naming, all, path, from.disk.creds)
      requires from.disk == Disk(live, bak, from.disk.creds) && from.bakKept == bakKept
      requires OnlyAdded(from, earlier, trace)
      requires Provisioned(from.disk.creds, creds, FieldSecrets(v, path, keys), naming)
      modifies `creds, `trace, `failures
      ensures OnlyAdded(from, earlier, trace) && Extends(creds, from.disk.creds)
      ensures creds.Keys <= from.disk.creds.Keys + NamesOf(PlainSecrets(v, path), naming)
      ensures ok ==> out == ProtectField(v, k, path, naming) && !MalformedField(v, k)
      ensures ok ==> Provisioned(from.disk.creds, creds, FieldSecrets(v, path, keys + {k}), naming)
      ensures failures >= old(failures) && (!ok ==> MalformedField(v, k) || failures > old(failures))
      decreases v, 1, 0
    {
      ghost var was, before := Here(), trace;
      FieldNamesStayFresh(v, path, keys, k, naming, all, from.disk.creds, creds);
      FieldSecretsGrow(v, path, keys, k);
      assert PlainField(v, k, path) <= PlainSecrets(v, path);
      out, ok := ProtectOne(v, k, path, naming, all);
      AddedMore(from, was, earlier, before, trace);
      if ok {
        ProvisionedMore(from.disk.creds, was.disk.creds, creds, FieldSecrets(v, path, keys), PlainField(v, k, path), naming);
      }
    }

    method ProtectOne(v: Json, k: string, path: Path, naming: Path -> string, ghost all: set<Path>) returns (out: Json, ok: bool)
      requires v.Obj? && k in v.fields && GoodNames(naming, all) && Places(PlainField(v, k, path)) <= all
      requires NotYet(naming, all, path + [Field(k)], creds)
      modifies `creds, `trace, `failures
      ensures OnlyAdded(old(Here()), old(trace), trace) && Extends(creds, old(creds))
      ensures creds.Keys <= old(creds).Keys + NamesOf(PlainField(v, k, path), naming)
      ensures ok ==> out == ProtectField(v, k, path, naming) && !MalformedField(v, k)
      ensures ok ==> Provisioned(old(creds), creds, PlainField(v, k, path), naming)
      ensures failures >= old(failures) && (!ok ==> MalformedField(v, k) || failures > old(failures))
      decreases v, 0
    {
      var child, here := v.fields[k], path + [Field(k)];
      if Documentation(k) {
        return child, true;
      }
      if Protected(k) {
        if !child.Str? || child.text == "" {
          return child, true;
        }
        match ReferenceOf(child.text) {
          case Malformed => return child, false;
          case To(_) => return child, true;
          case Plain =>
            assert PlainField(v, k, path) == {(here, child.text)};
            ok := WriteCredential(naming(here), child.text);
            return Str(PREFIX + naming(here)), ok;
        }
      }
      out, ok := ProtectValue(child, here, naming, all);
    }

    /** Removes what this update provisioned; a failure to remove one is passed over. */
    method RemoveNames(names: set<string>)
      requires forall n :: n in names ==> Managed(n)
      modifies `creds, `trace, `failures
      ensures OnlyRemoved(old(Here()), names, old(trace), trace) && RemovedFrom(old(Here()), names, Here())
      ensures failures >= old(failures)
    {
      var rest := names;
      while rest != {}
        invariant rest <= names && failures >= old(failures)
        invariant OnlyRemoved(old(Here()), names, old(trace), trace) && RemovedFrom(old(Here()), names, Here())
        decreases |rest|
      {
        var n :| n in rest;
        var _ := RemoveCredential(n);
        rest := rest - {n};
      }
    }

    /** Removes every generated credential that is not to be kept; stops at the first failure. */
    method Cleanup(keep: set<string>) returns (ok: bool)
      modifies `creds, `trace, `failures
      ensures OnlyRemoved(old(Here()), old(Disposable(keep)), old(trace), trace)
      ensures RemovedFrom(old(Here()), old(Disposable(keep)), Here())
      ensures ok ==> forall n :: n in creds && Managed(n) ==> n in keep
      ensures failures >= old(failures) && (!ok ==> failures > old(failures))
    {
      ok := *;
      if !ok {
        failures := failures + 1;
        return;
      }
      var rest := creds.Keys;
      ghost var goners := Disposable(keep);
      while rest != {}
        invariant failures >= old(failures)
        invariant rest <= old(creds).Keys && forall n :: n in creds && Managed(n) ==> n in keep || n in rest
        invariant OnlyRemoved(old(Here()), goners, old(trace), trace) && RemovedFrom(old(Here()), goners, Here())
        decreases |rest|
      {
        var n :| n in rest;
        rest := rest - {n};
        if Managed(n) && n !in keep {
          var removed := RemoveCredential(n);
          if !removed {
            return false;
          }
        }
      }
    }

    ghost function Disposable(keep: set<string>): set<string>
      reads this
    {
      set n | n in creds && Managed(n) && n !in keep
    }

    method WriteBackup(doc: Json) returns (done: Replace)
      modifies `bak, `bakKept, `trace, `failures
      ensures bak == (if done.NotDone? then old(bak) else Some(doc))
      ensures bakKept == (if done.NotDone? then old(bakKept) else true)
      ensures trace == old(trace) + [Here()]
      ensures failures == old(failures) + if done.Done? then 0 else 1
    {
      done := *;
      if !done.Done? {
        failures := failures + 1;
      }
      if !done.NotDone? {
        bak, bakKept := Some(doc), true;
      }
      trace := trace + [Here()];
    }

    method WriteLive(doc: Json) returns (done: Replace)
      modifies `live, `trace, `failures
      ensures live == (if done.NotDone? then old(live) else doc)
      ensures trace == old(trace) + [Here()]
      ensures failures == old(failures) + if done.Done? then 0 else 1
    {
      done := *;
      if !done.Done? {
        failures := failures + 1;
      }
      if !done.NotDone? {
        live := doc;
      }
      trace := trace + [Here()];
    }

    /** Turns the requested document into the one to write, provisioning its plaintext secrets. */
    method Prepare(doc: Json, naming: Path -> string) returns (out: Json, ok: bool)
      requires Valid() && FreshNames(naming, Now(), doc) && Resolves(doc, creds) && !PolicyOf(doc).Invalid?
      modifies `creds, `trace, `failures
      ensures Valid() && Kept(old(creds).Keys, old(trace), trace) && Extends(creds, old(creds))
      ensures creds.Keys - old(creds).Keys <= NamesOf(ToProtect(doc), naming)
      ensures ok ==> out == Final(doc, naming) && Resolves(out, creds) && Reveal(out, creds) == Reveal(doc, old(creds))
      ensures ok ==> creds.Keys == old(creds).Keys + NamesOf(ToProtect(doc), naming) && Refs(doc) <= Refs(out)
      ensures ok && PolicyOf(doc).RequireReferences? ==> PlainSecrets(out, []) == {} && !HasMalformed(doc)
      ensures failures >= old(failures)
      ensures !ok ==> (PolicyOf(doc).RequireReferences? && HasMalformed(doc)) || failures > old(failures)
    {
      ghost var from := Here();
      out, ok := doc, true;
      if PolicyOf(doc).RequireReferences? {
        out, ok := ProtectValue(doc, [], naming, Places(PlainSecrets(doc, [])));
        forall i | |old(trace)| <= i < |trace| ensures Safe(trace[i]) {
          AddingIsSafe(from, trace[i]);
        }
        AddingIsSafe(from, Here());
      }
      if ok {
        FinalIsFaithful(doc, naming, old(creds), creds);
      }
    }

    /** Backup, replacement and cleanup; `added` are the credentials provisioned for the new document. */
    method Install(out: Json, added: set<string>) returns (outcome: Outcome)
      requires Valid() && Resolves(out, creds) && Unneeded(added, Here()) && forall n :: n in added ==> Managed(n)
      modifies this
      ensures Valid() && Kept(old(creds).Keys * (Refs(out) + Refs(old(live))) - added, old(trace), trace)
      ensures Extends(old(creds), creds) && forall n :: n in old(creds) && !Managed(n) ==> n in creds
      ensures outcome.Refused? ==> live == old(live) && forall n :: n in old(creds) ==> n in creds || n in added
      ensures outcome.Refused? ==> bak == old(bak) || bak == Some(old(live))
      ensures outcome.Committed? ==> live == out && (Refs(out) + Refs(old(live))) * old(creds).Keys <= creds.Keys
      ensures outcome.Committed? && outcome.backedUp ==> bak == Some(old(live)) && bakKept
      ensures outcome.Committed? && !outcome.backedUp ==> bak == old(bak)
      ensures outcome.Committed? && !outcome.synced ==> creds == old(creds) && !outcome.cleaned
      ensures outcome.Committed? && outcome.cleaned ==>
                forall n :: n in creds && Managed(n) ==> n in Refs(live) + Refs(old(live))
      ensures failures >= old(failures) && (outcome.Refused? ==> failures > old(failures))
      ensures failures == old(failures) ==> outcome == Committed(true, true, true)
    {
      var encoded: bool := *;
      if !encoded {
        failures := failures + 1;
        Withdraw(added);
        return Refused;
      }
      var previous := live;
      var backedUp, replaced := Swap(out);
      if replaced.NotDone? {
        Withdraw(added);
        return Refused;
      }
      if replaced.DoneButFailed? {
        return Committed(false, backedUp, false);
      }
      if !backedUp {
        bakKept := false;
      }
      var cleaned := Prune(Refs(out) + Refs(previous));
      outcome := Committed(true, backedUp, cleaned);
    }

    /** Backs the live document up, as far as that works, and replaces it. */
    method Swap(out: Json) returns (backedUp: bool, replaced: Replace)
      requires Valid() && Resolves(out, creds)
      modifies `live, `bak, `bakKept, `trace, `failures
      ensures Valid() && Kept(creds.Keys, old(trace), trace)
      ensures live == if replaced.NotDone? then old(live) else out
      ensures if backedUp then bak == Some(old(live)) && bakKept else bak == old(bak) && bakKept == old(bakKept)
      ensures failures >= old(failures) && ((!backedUp || !replaced.Done?) ==> failures > old(failures))
    {
      var saved := WriteBackup(live);
      backedUp := !saved.NotDone?;
      replaced := WriteLive(out);
    }

    /** Cleanup when everything that has to stay resolvable is to be kept. */
    method Prune(keep: set<string>) returns (ok: bool)
      requires Valid() && Refs(live) <= keep && (bakKept ==> Refs(bak.value) <= keep)
      modifies `creds, `trace, `failures
      ensures Valid() && Kept(old(creds).Keys * keep, old(trace), trace)
      ensures Extends(old(creds), creds) && forall n :: n in old(creds) ==> n in creds || (Managed(n) && n !in keep)
      ensures ok ==> forall n :: n in creds && Managed(n) ==> n in keep
      ensures failures >= old(failures) && (!ok ==> failures > old(failures))
    {
      ghost var from := Here();
      ghost var goners := Disposable(keep);
      ok := Cleanup(keep);
      RemovalKeepsTrace(from, goners, old(trace));
    }

    /** Every moment of a removal is safe if what it may remove is not needed. */
    lemma RemovalKeepsTrace(from: Moment, names: set<string>, earlier: seq<Moment>)
      requires Safe(from) && Unneeded(names, from) && OnlyRemoved(from, names, earlier, trace) && RemovedFrom(from, names, Here())
      requires forall i :: 0 <= i < |earlier| ==> Safe(earlier[i])
      ensures Valid() && Kept(from.disk.creds.Keys - names, earlier, trace)
    {
      RemovalIsSafe(from, names, Here());
      forall i | |earlier| <= i < |trace| ensures Safe(trace[i]) {
        RemovalIsSafe(from, names, trace[i]);
      }
    }

    method Withdraw(names: set<string>)
      requires Valid() && Unneeded(names, Here()) && forall n :: n in names ==> Managed(n)
      modifies `creds, `trace, `failures
      ensures Valid() && Kept(old(creds).Keys - names, old(trace), trace)
      ensures Extends(old(creds), creds) && forall n :: n in old(creds) ==> n in creds || n in names
      ensures failures >= old(failures)
    {
      ghost var from := Here();
      RemoveNames(names);
      RemovalKeepsTrace(from, names, old(trace));
    }

    /** One update under the store's lock: read, change, protect, back up, replace, clean up. */
    method Rmw(mutate: Json -> Option<Json>, naming: Path -> string) returns (outcome: Outcome)
      requires Valid()
      requires mutate(live).Some? ==> FreshNames(naming, Now(), mutate(live).value) && Resolves(mutate(live).value, creds)
      modifies this
      ensures Valid() && old(trace) <= trace
      ensures mutate(old(live)).Some? ==>
                Kept(old(creds).Keys * (Refs(old(live)) + Refs(mutate(old(live)).value)), old(trace), trace)
      ensures forall n :: !Managed(n) ==> (n in creds <==> n in old(creds))
      ensures forall n :: n in creds && n in old(creds) ==> creds[n] == old(creds)[n]
      ensures outcome.Refused? ==> live == old(live) && Extends(creds, old(creds)) && (bak == old(bak) || bak == Some(live))
      ensures outcome.Committed? ==> mutate(old(live)).Some? && live == Final(mutate(old(live)).value, naming)
      ensures outcome.Committed? ==> Reveal(live, creds) == Reveal(mutate(old(live)).value, old(creds))
      ensures outcome.Committed? ==> forall n :: n in old(creds) && n in Refs(live) + Refs(old(live)) ==> n in creds
      ensures forall n :: n in creds && n !in old(creds) ==>
                mutate(old(live)).Some? && n in NamesOf(ToProtect(mutate(old(live)).value), naming)
      ensures outcome.Committed? && PolicyOf(mutate(old(live)).value).RequireReferences? ==> PlainSecrets(live, []) == {}
      ensures outcome.Committed? && !outcome.synced ==>
                !outcome.cleaned && creds.Keys == old(creds).Keys + NamesOf(ToProtect(mutate(old(live)).value), naming)
      ensures outcome.Committed? && outcome.backedUp ==> bak == Some(old(live)) && bakKept
      ensures outcome.Committed? && !outcome.backedUp ==> bak == old(bak)
      ensures outcome.Committed? && outcome.cleaned ==>
                forall n :: n in creds && Managed(n) ==> n in Refs(live) + Refs(old(live))
      ensures failures >= old(failures)
      ensures mutate(old(live)).None? || Refusable(mutate(old(live)).value) ==> outcome.Refused?
      ensures failures == old(failures) && mutate(old(live)).Some? && !Refusable(mutate(old(live)).value) ==>
                outcome == Committed(true, true, true)
    {
      var readable: bool := *;
      if !readable {
        failures := failures + 1;
        return Refused;
      }
      if mutate(live).None? {
        return Refused;
      }
      var doc, before := mutate(live).value, creds;
      if PolicyOf(doc).Invalid? {
        return Refused;
      }
      var out, ok := Prepare(doc, naming);
      var added := creds.Keys - before.Keys;
      if !ok {
        Withdraw(added);
        return Refused;
      }
      ghost var full := creds;
      outcome := Install(out, added);
      if outcome.Committed? {
        assert forall n :: n in Refs(out) ==> (n in creds <==> n in full) && (n in full ==> creds[n] == full[n]);
        RevealNeedsOnlyRefs(out, creds, full);
      }
    }

    /** Replaces the document if it is still the expected one. */
    method CompareAndReplace(expected: Json, doc: Json, naming: Path -> string) returns (outcome: Outcome)
      requires Valid()
      requires live == expected ==> FreshNames(naming, Now(), doc) && Resolves(doc, creds)
      modifies this
      ensures Valid() && old(trace) <= trace
      ensures forall n :: !Managed(n) ==> (n in creds <==> n in old(creds))
      ensures forall n :: n in creds && n in old(creds) ==> creds[n] == old(creds)[n]
      ensures outcome.Refused? ==> live == old(live) && Extends(creds, old(creds)) && (bak == old(bak) || bak == Some(live))
      ensures old(live) == expected ==> Kept(old(creds).Keys * (Refs(old(live)) + Refs(doc)), old(trace), trace)
      ensures outcome.Committed? ==> old(live) == expected && live == Final(doc, naming)
      ensures outcome.Committed? ==> Reveal(live, creds) == Reveal(doc, old(creds))
      ensures outcome.Committed? ==> forall n :: n in old(creds) && n in Refs(live) + Refs(old(live)) ==> n in creds
      ensures forall n :: n in creds && n !in old(creds) ==>
                old(live) == expected && n in NamesOf(ToProtect(doc), naming)
      ensures outcome.Committed? && PolicyOf(doc).RequireReferences? ==> PlainSecrets(live, []) == {}
      ensures outcome.Committed? && !outcome.synced ==>
                !outcome.cleaned && creds.Keys == old(creds).Keys + NamesOf(ToProtect(doc), naming)
      ensures outcome.Committed? && outcome.backedUp ==> bak == Some(old(live)) && bakKept
      ensures outcome.Committed? && !outcome.backedUp ==> bak == old(bak)
      ensures outcome.Committed? && outcome.cleaned ==>
                forall n :: n in creds && Managed(n) ==> n in Refs(live) + Refs(old(live))
      ensures failures >= old(failures)
      ensures old(live) != expected || Refusable(doc) ==> outcome.Refused?
      ensures failures == old(failures) && old(live) == expected && !Refusable(doc) ==> outcome == Committed(true, true, true)
    {
      outcome := Rmw(cur => if cur == expected then Some(doc) else None, naming);
    }
  }
}

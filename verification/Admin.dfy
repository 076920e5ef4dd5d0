/** Saving the notification section, and taking it back when the running notifier rejects it. */
module Admin {
  import opened Base
  import opened Json
  import opened Secrets
  import opened ConfigStore

  const SECTION: string := "notifications"

  function SectionOf(doc: Json): Option<Json>
    requires doc.Obj?
  {
    if SECTION in doc.fields then Some(doc.fields[SECTION]) else None
  }

  /** The document with its notification section set, or deleted. */
  function WithSection(doc: Json, section: Option<Json>): Json
    requires doc.Obj?
  {
    match section
    case Some(value) => Obj(doc.fields[SECTION := value])
    case None => Obj(doc.fields - {SECTION})
  }

  /** The saved document with the earlier section put back. */
  function Restored(before: Json, saved: Json): Json
    requires before.Obj? && saved.Obj?
  {
    WithSection(saved, SectionOf(before))
  }

  /** Names for taking a change back: unused before it and by it. */
  ghost predicate SpareNames(spare: Path -> string, naming: Path -> string, before: Json, after: Json, creds: map<string, string>) {
    && GoodNames(spare, Places(ToProtect(before)))
    && forall p :: p in Places(ToProtect(before)) ==>
         spare(p) !in creds.Keys + NamesOf(ToProtect(after), naming) + Refs(before) + Refs(after)
  }

  lemma PolicyIsNotSecret()
    ensures !Protected("secret_policy")
  {
    assert Lower("secret_policy") == "secret_policy";
    assert "secret_policy"[0] != "root_password"[0];
  }

  lemma PolicyStays(doc: Json, naming: Path -> string)
    requires doc.Obj?
    ensures PolicyOf(Final(doc, naming)) == PolicyOf(doc) && Final(doc, naming).Obj?
    ensures Final(doc, naming).fields.Keys == doc.fields.Keys
  {
    PolicyIsNotSecret();
    if PolicyOf(doc).RequireReferences? && "secret_policy" in doc.fields {
      var child := doc.fields["secret_policy"];
      assert Final(doc, naming).fields["secret_policy"] == ProtectField(doc, "secret_policy", [], naming);
      assert ProtectField(doc, "secret_policy", [], naming) == Protect(child, [] + [Field("secret_policy")], naming);
    }
  }

  /** Taking a saved change back gives a document with the old policy, the old references and no new secret. */
  lemma RestoredIs(before: Json, section: Json, naming: Path -> string)
    requires before.Obj?
    ensures var after := WithSection(before, Some(section)); var saved := Final(after, naming);
            && saved.Obj? && PolicyOf(after) == PolicyOf(before) && PolicyOf(Restored(before, saved)) == PolicyOf(before)
            && Refs(before) <= Refs(Restored(before, saved)) <= Refs(before) + Refs(saved)
  {
    var after := WithSection(before, Some(section));
    var saved := Final(after, naming);
    PolicyStays(after, naming);
    var restored := Restored(before, saved);
    forall k, n | k in before.fields && n in Refs(before.fields[k]) ensures n in Refs(restored) {
      if k != SECTION && PolicyOf(after).RequireReferences? {
        ProtectKeepsRefs(before.fields[k], [] + [Field(k)], naming);
        assert saved.fields[k] == ProtectField(after, k, [], naming);
      }
      assert n in Refs(restored.fields[k]);
    }
    forall k, n | k in restored.fields && n in Refs(restored.fields[k]) ensures n in Refs(before) + Refs(saved) {
      assert if k == SECTION then n in Refs(before) else n in Refs(saved);
    }
  }

  /** What is left to protect was there before; with nothing to protect the old document comes back. */
  lemma RestoredSecrets(before: Json, section: Json, naming: Path -> string)
    requires before.Obj? && GoodNames(naming, Places(ToProtect(WithSection(before, Some(section)))))
    ensures var saved := Final(WithSection(before, Some(section)), naming);
            && saved.Obj? && ToProtect(Restored(before, saved)) <= ToProtect(before)
            && (ToProtect(before) == {} ==> Restored(before, saved) == before)
  {
    var after := WithSection(before, Some(section));
    var saved := Final(after, naming);
    RestoredIs(before, section, naming);
    var restored := Restored(before, saved);
    if PolicyOf(before).RequireReferences? {
      ProtectIsComplete(after, [], naming, Places(ToProtect(after)));
      forall k | k in restored.fields ensures PlainField(restored, k, []) <= PlainSecrets(before, []) {
        if k == SECTION {
          assert PlainField(restored, k, []) == PlainField(before, k, []);
          assert PlainField(before, k, []) <= PlainSecrets(before, []);
        } else {
          assert PlainField(restored, k, []) == PlainField(saved, k, []);
          assert PlainField(saved, k, []) <= PlainSecrets(saved, []);
        }
      }
    }
    if ToProtect(before) == {} {
      forall k | k in before.fields && k != SECTION ensures saved.fields[k] == before.fields[k] {
        if PolicyOf(before).RequireReferences? {
          FieldUntouched(before, after, k, naming);
        }
      }
      assert restored.fields.Keys == before.fields.Keys;
      assert restored.fields == before.fields;
    }
  }

  lemma FieldUntouched(before: Json, after: Json, k: string, naming: Path -> string)
    requires before.Obj? && after.Obj? && k in before.fields && k in after.fields && after.fields[k] == before.fields[k]
    requires PlainSecrets(before, []) == {}
    ensures ProtectField(after, k, [], naming) == before.fields[k]
  {
    var child := before.fields[k];
    assert !Documentation(k) && Protected(k) && Plaintext(child) ==>
        ([] + [Field(k)], child.text) in PlainField(before, k, []);
    assert PlainField(before, k, []) <= PlainSecrets(before, []);
    if !Documentation(k) && !Protected(k) {
      assert PlainField(before, k, []) == PlainSecrets(child, [] + [Field(k)]);
      NothingToProtect(child, [] + [Field(k)], naming);
    }
  }

  /** With the credentials the save left, the restored document reads as the old one did before it. */
  lemma RestoredReads(before: Json, section: Json, naming: Path -> string, creds: map<string, string>, later: map<string, string>)
    requires before.Obj?
    requires var after := WithSection(before, Some(section));
             Reveal(Final(after, naming), later) == Reveal(after, creds)
    requires forall n :: n in Refs(before) ==> (n in creds <==> n in later) && (n in creds ==> creds[n] == later[n])
    ensures var saved := Final(WithSection(before, Some(section)), naming);
            saved.Obj? && Reveal(Restored(before, saved), later) == Reveal(before, creds)
  {
    hide Refs, Reveal, RevealField, Final;
    var after := WithSection(before, Some(section));
    var saved := Final(after, naming);
    PolicyStays(after, naming);
    var restored := Restored(before, saved);
    RevealNeedsOnlyRefs(before, creds, later);
    assert restored.fields.Keys == before.fields.Keys;
    forall k | k in before.fields ensures RevealField(restored, k, later) == RevealField(before, k, creds) {
      if k == SECTION {
        SameFieldReads(restored, before, k, later);
        FieldOfRevealed(before, k, creds);
        FieldOfRevealed(before, k, later);
      } else {
        SameFieldReads(restored, saved, k, later);
        FieldOfRevealed(saved, k, later);
        FieldOfRevealed(after, k, creds);
        SameFieldReads(after, before, k, creds);
      }
    }
    RevealedFields(restored, later, before, creds);
  }

  lemma FieldOfRevealed(v: Json, k: string, creds: map<string, string>)
    requires v.Obj? && k in v.fields
    ensures Reveal(v, creds).Obj? && k in Reveal(v, creds).fields && Reveal(v, creds).fields[k] == RevealField(v, k, creds)
  {
  }

  lemma SameFieldReads(v: Json, w: Json, k: string, creds: map<string, string>)
    requires v.Obj? && w.Obj? && k in v.fields && k in w.fields && v.fields[k] == w.fields[k]
    ensures RevealField(v, k, creds) == RevealField(w, k, creds)
  {
  }

  lemma RevealedFields(v: Json, one: map<string, string>, w: Json, two: map<string, string>)
    requires v.Obj? && w.Obj? && v.fields.Keys == w.fields.Keys
    requires forall k :: k in w.fields ==> RevealField(v, k, one) == RevealField(w, k, two)
    ensures Reveal(v, one) == Reveal(w, two)
  {
    assert Reveal(v, one).fields == Reveal(w, two).fields;
  }

  /** Names spare for the change are fresh for taking it back, whose references all resolve. */
  lemma RestoreCanStart(before: Json, section: Json, naming: Path -> string, spare: Path -> string, creds: map<string, string>, now: Disk)
    requires before.Obj?
    requires var after := WithSection(before, Some(section));
             && GoodNames(naming, Places(ToProtect(after))) && SpareNames(spare, naming, before, after, creds)
             && now.live == Final(after, naming) && now.creds.Keys <= creds.Keys + NamesOf(ToProtect(after), naming)
    requires Resolves(now.live, now.creds) && (forall n :: n in ManagedRefs(before) ==> n in now.creds)
    ensures now.live.Obj? && FreshNames(spare, now, Restored(before, now.live)) && Resolves(Restored(before, now.live), now.creds)
  {
    var after := WithSection(before, Some(section));
    RestoredIs(before, section, naming);
    RestoredSecrets(before, section, naming);
    var restored := Restored(before, now.live);
    if PolicyOf(after).RequireReferences? {
      ProtectRefs(after, [], naming, Places(ToProtect(after)));
    }
    forall p | p in Places(ToProtect(restored)) ensures p in Places(ToProtect(before)) {
    }
  }

  /** `checkpoint` is Refused as well when there was none. */
  datatype Result = Unsaved | Accepted | RolledBack(restore: Outcome, checkpoint: Outcome)

  /** Every managed credential belongs to the live document, and the other way round. */
  ghost predicate Exact(live: Json, creds: map<string, string>) {
    forall n :: Managed(n) ==> (n in creds <==> n in Refs(live))
  }

  lemma NothingNewIsFresh(doc: Json, naming: Path -> string, now: Disk)
    requires ToProtect(doc) == {}
    ensures FreshNames(naming, now, doc) && Final(doc, naming) == doc
  {
    if PolicyOf(doc).RequireReferences? {
      NothingToProtect(doc, [], naming);
    }
  }

  /** Writes the document as it is once more, so that backup and credentials follow it alone. */
  method Checkpoint(store: Store, naming: Path -> string) returns (outcome: Outcome)
    requires store.Valid() && ToProtect(store.live) == {}
    modifies store
    ensures store.Valid() && store.live == old(store.live)
    ensures Kept(old(store.creds).Keys * Refs(store.live), old(store.trace), store.trace)
    ensures outcome.Committed? ==> Reveal(store.live, store.creds) == Reveal(store.live, old(store.creds))
    ensures outcome.Committed? && outcome.cleaned ==> Exact(store.live, store.creds)
    ensures outcome.Committed? && !outcome.synced ==> store.creds.Keys == old(store.creds).Keys
    ensures outcome.Committed? ==> if outcome.backedUp then store.bak == Some(store.live) && store.bakKept else store.bak == old(store.bak)
    ensures store.failures >= old(store.failures) && (Refusable(store.live) ==> outcome.Refused?)
    ensures store.failures == old(store.failures) && !Refusable(store.live) ==> outcome == Committed(true, true, true)
  {
    NothingNewIsFresh(store.live, naming, store.Now());
    outcome := store.CompareAndReplace(store.live, store.live, naming);
  }

  /** Puts the restored document in place and checkpoints it. */
  method Restore(store: Store, restored: Json, naming: Path -> string) returns (restore: Outcome, checkpoint: Outcome)
    requires store.Valid() && restored.Obj? && FreshNames(naming, store.Now(), restored) && Resolves(restored, store.creds)
    modifies store
    ensures store.Valid() && Kept(old(store.creds).Keys * Refs(restored), old(store.trace), store.trace)
    ensures restore.Committed? ==> store.live == Final(restored, naming)
    ensures restore.Committed? && checkpoint.Committed? ==>
              Reveal(store.live, store.creds) == Reveal(restored, old(store.creds)) && ToProtect(store.live) == {}
    ensures checkpoint.Committed? && checkpoint.cleaned ==> Exact(store.live, store.creds)
    ensures restore.Committed? && checkpoint.Committed? && !checkpoint.synced ==>
              old(store.creds).Keys * Refs(old(store.live)) <= store.creds.Keys
    ensures restore.Committed? && checkpoint.Committed? ==>
              if checkpoint.backedUp then store.bak == Some(store.live) && store.bakKept
              else store.bak == if restore.backedUp then Some(old(store.live)) else old(store.bak)
    ensures store.failures >= old(store.failures) && (Refusable(restored) ==> restore.Refused? && checkpoint.Refused?)
    ensures store.failures == old(store.failures) && !Refusable(restored) ==>
              restore == Committed(true, true, true) == checkpoint
  {
    checkpoint := Refused;
    restore := store.CompareAndReplace(store.live, restored, naming);
    if restore.Committed? {
      RestoredIsProtected(restored, naming);
      FinalIsAsRefusable(restored, naming);
      checkpoint := Checkpoint(store, naming);
    }
  }

  lemma RestoredIsProtected(doc: Json, naming: Path -> string)
    requires GoodNames(naming, Places(ToProtect(doc))) && doc.Obj?
    ensures ToProtect(Final(doc, naming)) == {} && Refs(doc) <= Refs(Final(doc, naming))
  {
    PolicyStays(doc, naming);
    if PolicyOf(doc).RequireReferences? {
      ProtectIsComplete(doc, [], naming, Places(ToProtect(doc)));
      ProtectKeepsRefs(doc, [], naming);
    }
  }

  lemma FinalIsAsRefusable(doc: Json, naming: Path -> string)
    requires GoodNames(naming, Places(ToProtect(doc))) && doc.Obj?
    ensures Refusable(Final(doc, naming)) <==> Refusable(doc)
  {
    PolicyStays(doc, naming);
    if PolicyOf(doc).RequireReferences? {
      ProtectKeepsWellFormed(doc, [], naming, Places(ToProtect(doc)));
    }
  }

  /** If neither the old document nor the changed one is refused, neither is the one that takes the change back. */
  lemma RestoredIsAccepted(before: Json, section: Json, naming: Path -> string)
    requires before.Obj? && GoodNames(naming, Places(ToProtect(WithSection(before, Some(section)))))
    requires !Refusable(before) && !Refusable(WithSection(before, Some(section)))
    ensures var saved := Final(WithSection(before, Some(section)), naming);
      saved.Obj? && !Refusable(Restored(before, saved))
  {
    var after := WithSection(before, Some(section));
    var saved := Final(after, naming);
    RestoredIs(before, section, naming);
    FinalIsAsRefusable(after, naming);
    var restored := Restored(before, saved);
    forall k | k in restored.fields && PolicyOf(before).RequireReferences? ensures !MalformedField(restored, k) {
      OneMalformed(saved, k);
      if k == SECTION {
        OneMalformed(before, k);
      }
    }
  }

  /** Everything taking back a saved change needs, and what it leads to. */
  lemma TakingBack(before: Json, section: Json, naming: Path -> string, spare: Path -> string, creds: map<string, string>, now: Disk)
    requires before.Obj?
    requires var after := WithSection(before, Some(section));
             && GoodNames(naming, Places(ToProtect(after))) && SpareNames(spare, naming, before, after, creds)
             && now.live == Final(after, naming) && now.creds.Keys <= creds.Keys + NamesOf(ToProtect(after), naming)
             && (forall p :: p in Places(ToProtect(after)) ==> naming(p) !in Refs(before))
             && Reveal(now.live, now.creds) == Reveal(after, creds)
    requires Resolves(now.live, now.creds) && (forall n :: n in ManagedRefs(before) ==> n in now.creds)
    requires forall n :: n in Refs(before) && n in creds ==> n in now.creds && now.creds[n] == creds[n]
    ensures now.live.Obj? && Restored(before, now.live).Obj?
    ensures FreshNames(spare, now, Restored(before, now.live)) && Resolves(Restored(before, now.live), now.creds)
    ensures Reveal(Restored(before, now.live), now.creds) == Reveal(before, creds)
    ensures ToProtect(before) == {} ==> Final(Restored(before, now.live), spare) == before
    ensures Refs(before) <= Refs(Restored(before, now.live))
    ensures NamesOf(ToProtect(WithSection(before, Some(section))), naming) <= Refs(now.live)
  {
    var after := WithSection(before, Some(section));
    RestoredIs(before, section, naming);
    RestoreCanStart(before, section, naming, spare, creds, now);
    forall n | n in Refs(before) && n in now.creds ensures n in creds {
      assert n !in NamesOf(ToProtect(after), naming);
    }
    RestoredReads(before, section, naming, creds, now.creds);
    RestoredSecrets(before, section, naming);
    if ToProtect(before) == {} {
      NothingNewIsFresh(before, spare, now);
    }
    forall x | x in ToProtect(after) ensures naming(x.0) in Refs(now.live) {
      assert x.0 in Places(ToProtect(after));
      NamesAreReferenced(after, [], naming, x);
    }
  }

  /**
    Saves a new section; if the running notifier rejects it, puts the old one back and writes the
    restored document once more so that the backup and the credentials forget the rejected one.
   */
  method PutNotifications(store: Store, section: Json, accepted: bool, naming: Path -> string, spare: Path -> string)
    returns (result: Result)
    requires store.Valid() && store.live.Obj?
    requires FreshNames(naming, store.Now(), WithSection(store.live, Some(section)))
    requires Resolves(WithSection(store.live, Some(section)), store.creds)
    requires SpareNames(spare, naming, store.live, WithSection(store.live, Some(section)), store.creds)
    modifies store
    ensures store.Valid() && store.failures >= old(store.failures)
    ensures Refusable(WithSection(old(store.live), Some(section))) ==> result.Unsaved?
    ensures store.failures == old(store.failures) && !Refusable(WithSection(old(store.live), Some(section))) ==>
              if accepted then result.Accepted?
              else result.RolledBack?
                   && (!Refusable(old(store.live)) ==>
                         result == RolledBack(Committed(true, true, true), Committed(true, true, true)))
    ensures Kept(old(store.creds).Keys * Refs(old(store.live)), old(store.trace), store.trace)
    ensures result.Unsaved? ==> store.live == old(store.live)
    ensures result.Accepted? ==> Reveal(store.live, store.creds) == Reveal(WithSection(old(store.live), Some(section)), old(store.creds))
    ensures result.RolledBack? && result.restore.Committed? && result.checkpoint.Committed? ==>
              && Reveal(store.live, store.creds) == Reveal(old(store.live), old(store.creds))
              && (store.live == old(store.live) <==> ToProtect(old(store.live)) == {})
              && (result.checkpoint.cleaned ==>
                    forall n :: Managed(n) ==> (n in store.creds <==> n in Refs(store.live)))
              && (!result.checkpoint.synced ==>
                    NamesOf(ToProtect(WithSection(old(store.live), Some(section))), naming) <= store.creds.Keys)
    ensures result.RolledBack? && result.restore.Committed? && result.checkpoint.Committed? ==>
              && (result.checkpoint.backedUp ==> store.bak == Some(store.live) && store.bakKept)
              && (!result.checkpoint.backedUp && result.restore.backedUp ==>
                    store.bak == Some(Final(WithSection(old(store.live), Some(section)), naming)))
  {
    var before := store.live;
    ghost var creds0 := store.creds;
    var after := WithSection(before, Some(section));
    var saved := store.CompareAndReplace(before, after, naming);
    if saved.Refused? {
      return Unsaved;
    }
    if accepted {
      return Accepted;
    }
    TakingBack(before, section, naming, spare, creds0, store.Now());
    if !Refusable(before) {
      RestoredIsAccepted(before, section, naming);
    }
    var restore, checkpoint := Restore(store, Restored(before, store.live), spare);
    result := RolledBack(restore, checkpoint);
  }
}

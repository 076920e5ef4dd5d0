/**
  When the identity of an array element really is its key with its endpoints. Identities are texts put
  together, so an address can also be the end of a key; here is exactly when that matters.
 */
module BackupIdentity {
  import opened Base
  import opened Json
  import opened Backup

  /** The same key at the same addresses. */
  predicate SameThing(a: Json, b: Json) {
    a.Obj? && b.Obj? && Labelled(a, "key") == Labelled(b, "key") && Endpoints(a) == Endpoints(b)
  }

  // ----- The parts of an identity ---------------------------------------------

  /** What the first part of an identity is. */
  function First(v: Json): string
    requires v.Obj?
  {
    if TextAt(v, "key").Some? then "key"
    else if TextAt(v, "mgmt_ip").Some? then "mgmt_ip"
    else if TextAt(v, "ip").Some? then "ip"
    else if TextAt(v, "bmc_ip").Some? then "bmc_ip"
    else "name"
  }

  /** What may come behind it. */
  function Later(first: string): seq<string> {
    if first == "key" then ["mgmt_ip", "ip", "bmc_ip"]
    else if first == "mgmt_ip" then ["ip", "bmc_ip"]
    else if first == "ip" then ["bmc_ip"]
    else []
  }

  function Part(name: string, text: string): string {
    name + ":" + text
  }

  /** At i a later address could begin, with something before and behind it. */
  predicate CutAt(text: string, first: string, name: string, i: nat) {
    && name in Later(first) && |first| + 1 < i && i + |name| + 2 < |text|
    && text[i..i + |name| + 2] == "|" + name + ":"
  }

  /** The identity can be read in two ways. */
  ghost predicate Ambiguous(v: Json)
    requires v.Obj? && Identity(v).Some?
  {
    exists name, i: nat :: CutAt(Identity(v).value, First(v), name, i)
  }

  lemma FirstPart(v: Json) returns (text: string)
    requires v.Obj? && Segments(v) != []
    ensures text != "" && Segments(v)[0] == Part(First(v), text) && TextAt(v, First(v)) == Some(text)
    ensures First(v) in {"key", "mgmt_ip", "ip", "bmc_ip", "name"}
  {
    text := TextAt(v, First(v)).value;
  }

  lemma SecondPart(v: Json) returns (name: string, text: string)
    requires v.Obj? && |Segments(v)| > 1
    ensures name in Later(First(v)) && text != "" && Segments(v)[1] == Part(name, text)
  {
    var m, i, b := Labelled(v, "mgmt_ip"), Labelled(v, "ip"), Labelled(v, "bmc_ip");
    var seconds := if TextAt(v, "key").Some? then m + i + b else if m != [] then i + b else b;
    name := if TextAt(v, "key").Some? && m != [] then "mgmt_ip"
            else if i != [] && (TextAt(v, "key").Some? || m != []) then "ip" else "bmc_ip";
    assert Segments(v)[1] == seconds[0];
    text := TextAt(v, name).value;
  }

  /** The first letter of a first part tells what it is. */
  lemma SameFirst(a: Json, b: Json)
    requires a.Obj? && b.Obj? && Segments(a) != [] && Segments(b) != [] && Segments(a)[0][..1] == Segments(b)[0][..1]
    ensures First(a) == First(b)
  {
    var x := FirstPart(a);
    var y := FirstPart(b);
    assert Part(First(a), x)[0] == First(a)[0] && Part(First(b), y)[0] == First(b)[0];
  }

  predicate NoBars(parts: seq<string>) {
    forall i :: 0 <= i < |parts| ==> '|' !in parts[i]
  }

  lemma JoinedStarts(parts: seq<string>)
    requires parts != []
    ensures |parts[0]| <= |Joined(parts)| && Joined(parts)[..|parts[0]|] == parts[0]
    ensures if |parts| == 1 then |Joined(parts)| == |parts[0]|
            else |Joined(parts)| > |parts[0]| && Joined(parts)[|parts[0]|] == '|'
                 && Joined(parts)[|parts[0]| + 1..] == Joined(parts[1..])
  {
  }

  /** A first part that ends at a bar or at the end is not shorter than another one without bars. */
  lemma NoShorter(s: string, x: string, y: string)
    requires |x| <= |s| && (|x| < |s| ==> s[|x|] == '|')
    requires |y| <= |s| && s[..|y|] == y && '|' !in y
    ensures |x| >= |y|
  {
    assert forall i :: 0 <= i < |y| ==> s[i] == y[i] && y[i] in y;
  }

  /** Parts without bars can be told apart again. */
  lemma {:induction false} JoinedIsUnique(a: seq<string>, b: seq<string>)
    requires a != [] && b != [] && NoBars(a) && NoBars(b) && Joined(a) == Joined(b)
    ensures a == b
  {
    hide Joined;
    JoinedStarts(a);
    JoinedStarts(b);
    NoShorter(Joined(a), a[0], b[0]);
    NoShorter(Joined(a), b[0], a[0]);
    assert a[0] == b[0];
    if |a| > 1 {
      assert forall i :: 0 <= i < |a[1..]| ==> a[1..][i] == a[i + 1];
      assert forall i :: 0 <= i < |b[1..]| ==> b[1..][i] == b[i + 1];
      JoinedIsUnique(a[1..], b[1..]);
      assert a == [a[0]] + a[1..] && b == [b[0]] + b[1..];
    } else {
      assert a == [a[0]] && b == [b[0]];
    }
  }

  // ----- One way to read an identity --------------------------------------------------

  /** Elements with equal parts are the same thing. */
  lemma SamePartsSameThing(a: Json, b: Json)
    requires a.Obj? && b.Obj? && Segments(a) != [] && Segments(a) == Segments(b)
    ensures SameThing(a, b)
  {
    SameFirst(a, b);
    hide TextAt;
    assert First(a) == "key" ==> Segments(a)[1..] == Endpoints(a) && Segments(b)[1..] == Endpoints(b);
  }

  /** Of two parts, the second is where the identity could be cut. */
  lemma SecondPartCuts(v: Json)
    requires v.Obj? && |Segments(v)| > 1
    ensures Identity(v).Some? && Ambiguous(v)
  {
    var x := FirstPart(v);
    var name, y := SecondPart(v);
    hide Segments, First, Joined, Later, CutAt;
    JoinedCuts(Segments(v), First(v), x, name, y);
  }

  lemma JoinedCuts(s: seq<string>, first: string, x: string, name: string, y: string)
    requires |s| > 1 && s[0] == Part(first, x) && s[1] == Part(name, y) && x != "" && y != "" && name in Later(first)
    ensures CutAt(Joined(s), first, name, |s[0]|)
  {
    hide Joined, Later;
    JoinedStarts(s);
    JoinedStarts(s[1..]);
    PartsCut(Joined(s), s[0], name, y);
  }

  lemma PartsCut(text: string, first: string, name: string, y: string)
    requires |text| > |first| && text[|first|] == '|' && y != ""
    requires |Part(name, y)| <= |text| - |first| - 1 && text[|first| + 1..][..|Part(name, y)|] == Part(name, y)
    ensures |first| + |name| + 2 < |text| && text[|first|..|first| + |name| + 2] == "|" + name + ":"
  {
    assert Part(name, y)[..|name| + 1] == name + ":";
    assert text[|first| + 1..|first| + |name| + 2] == name + ":";
  }

  lemma SameTextSameFirst(a: Json, b: Json)
    requires a.Obj? && b.Obj? && Identity(a).Some? && Identity(a) == Identity(b)
    ensures First(a) == First(b)
  {
    var x := FirstPart(a);
    var y := FirstPart(b);
    JoinedStarts(Segments(a));
    JoinedStarts(Segments(b));
    SameFirst(a, b);
  }

  /** If an identity can be read in one way only, whoever has it is the same thing. */
  lemma UnambiguousIsFaithful(a: Json, b: Json)
    requires a.Obj? && b.Obj? && Identity(a).Some? && Identity(a) == Identity(b) && !Ambiguous(a)
    ensures SameThing(a, b)
  {
    SameTextSameFirst(a, b);
    if |Segments(a)| > 1 { SecondPartCuts(a); }
    if |Segments(b)| > 1 { SecondPartCuts(b); }
    assert Segments(a) == [Identity(a).value] == Segments(b);
    SamePartsSameThing(a, b);
  }

  /** Without bars in the parts of either, the same. */
  lemma BarFreeIsFaithful(a: Json, b: Json)
    requires a.Obj? && b.Obj? && Identity(a).Some? && Identity(a) == Identity(b) && NoBars(Segments(a)) && NoBars(Segments(b))
    ensures SameThing(a, b)
  {
    JoinedIsUnique(Segments(a), Segments(b));
    SamePartsSameThing(a, b);
  }

  // ----- Two ways to read one ------------------------------------------------------------

  lemma OnePart(first: string, text: string)
    requires first in {"key", "mgmt_ip", "ip", "bmc_ip"} && text != ""
    ensures Segments(Obj(map[first := Str(text)])) == [Part(first, text)]
    ensures First(Obj(map[first := Str(text)])) == first
  {
    var v := Obj(map[first := Str(text)]);
    assert forall name :: TextAt(v, name) == if name == first then Some(text) else None;
  }

  lemma TwoParts(first: string, x: string, name: string, y: string)
    requires name in Later(first) && x != "" && y != ""
    ensures Segments(Obj(map[first := Str(x), name := Str(y)])) == [Part(first, x), Part(name, y)]
    ensures First(Obj(map[first := Str(x), name := Str(y)])) == first
  {
    var v := Obj(map[first := Str(x), name := Str(y)]);
    assert first != name;
    assert forall n :: TextAt(v, n) == if n == first then Some(x) else if n == name then Some(y) else None;
  }

  /** The other reading of an ambiguous identity: an element with it that is another thing. */
  lemma OtherReading(a: Json) returns (b: Json)
    requires a.Obj? && Identity(a).Some? && Ambiguous(a)
    ensures b.Obj? && Identity(b) == Identity(a) && Endpoints(a) != Endpoints(b)
    ensures b.fields.Keys <= {"key", "mgmt_ip", "ip", "bmc_ip"}
  {
    var text, first := Identity(a).value, First(a);
    var name, i: nat :| CutAt(text, first, name, i);
    var x := FirstPart(a);
    JoinedStarts(Segments(a));
    assert text[..|first| + 1] == first + ":";
    var one, two := Readings(text, first, name, i);
    b := if |Segments(a)| == 1 then two else one;
    OtherParts(a, b);
  }

  /** An ambiguous text, as the identity of a thing with one part and of a thing with two. */
  lemma Readings(text: string, first: string, name: string, i: nat) returns (one: Json, two: Json)
    requires CutAt(text, first, name, i) && text[..|first| + 1] == first + ":" && first in {"key", "mgmt_ip", "ip", "bmc_ip"}
    ensures one.Obj? && |Segments(one)| == 1 && Identity(one) == Some(text) && First(one) == first
    ensures two.Obj? && |Segments(two)| == 2 && Identity(two) == Some(text) && First(two) == first
    ensures one.fields.Keys <= {"key", "mgmt_ip", "ip", "bmc_ip"} && two.fields.Keys <= {"key", "mgmt_ip", "ip", "bmc_ip"}
  {
    var front, back := text[|first| + 1..i], text[i + |name| + 2..];
    one := Obj(map[first := Str(text[|first| + 1..])]);
    two := Obj(map[first := Str(front), name := Str(back)]);
    OnePart(first, text[|first| + 1..]);
    TwoParts(first, front, name, back);
    hide Segments, First, CutAt, Part;
    Reassembled(text, first, name, i);
    JoinedPair(Part(first, front), Part(name, back));
  }

  lemma JoinedPair(x: string, y: string)
    ensures Joined([x, y]) == x + "|" + y && Joined([x]) == x
  {
    assert [x, y][1..] == [y];
  }

  lemma Reassembled(text: string, first: string, name: string, i: nat)
    requires CutAt(text, first, name, i) && text[..|first| + 1] == first + ":"
    ensures Part(first, text[|first| + 1..]) == text
    ensures Part(first, text[|first| + 1..i]) + "|" + Part(name, text[i + |name| + 2..]) == text
  {
    hide Later;
    var middle := "|" + name + ":";
    assert text == text[..|first| + 1] + text[|first| + 1..i] + text[i..i + |name| + 2] + text[i + |name| + 2..];
    assert "|" + Part(name, text[i + |name| + 2..]) == middle + text[i + |name| + 2..];
  }

  lemma OtherParts(a: Json, b: Json)
    requires a.Obj? && b.Obj? && Segments(a) != [] && Segments(b) != [] && |Segments(a)| != |Segments(b)|
    requires First(a) == First(b) != "name"
    ensures Endpoints(a) != Endpoints(b)
  {
    hide TextAt;
  }

  /** Some other thing goes by the identity of an element if and only if that can be read in two ways. */
  lemma CollisionsAre(a: Json)
    requires a.Obj? && Identity(a).Some?
    ensures Ambiguous(a) <==> exists b: Json :: b.Obj? && Identity(b) == Identity(a) && !SameThing(a, b)
  {
    if Ambiguous(a) {
      var b := OtherReading(a);
    } else {
      forall b: Json | b.Obj? && Identity(b) == Identity(a) ensures SameThing(a, b) {
        UnambiguousIsFaithful(a, b);
      }
    }
  }

  /** The part of a key from i on looks like an address. */
  predicate AddressAt(key: string, name: string, i: nat) {
    && name in ["mgmt_ip", "ip", "bmc_ip"] && 0 < i && i + |name| + 2 < |key|
    && key[i..i + |name| + 2] == "|" + name + ":"
  }

  lemma Shifted(key: string, name: string, i: nat)
    ensures AddressAt(key, name, i) <==> CutAt(Part("key", key), "key", name, i + 4)
  {
    var text := Part("key", key);
    assert |"key"| == 3 && text[4..] == key;
    if i + |name| + 2 <= |key| {
      assert text[i + 4..i + 4 + |name| + 2] == key[i..i + |name| + 2];
    }
  }

  /** For an element with a key and no address: exactly if the key contains what looks like one. */
  lemma KeyOnlyIsAmbiguous(a: Json)
    requires a.Obj? && TextAt(a, "key").Some? && Endpoints(a) == []
    ensures Identity(a).Some?
    ensures Ambiguous(a) <==> exists name, i: nat :: AddressAt(TextAt(a, "key").value, name, i)
  {
    var key := TextAt(a, "key").value;
    assert Segments(a) == [Part("key", key)] && First(a) == "key";
    hide CutAt, AddressAt, Segments, First, TextAt;
    if exists name, i: nat :: AddressAt(key, name, i) {
      var name, i: nat :| AddressAt(key, name, i);
      Shifted(key, name, i);
    }
    if exists name, i: nat :: CutAt(Part("key", key), "key", name, i) {
      var name, i: nat :| CutAt(Part("key", key), "key", name, i);
      CutsBehind(Part("key", key), name, i);
      Shifted(key, name, i - 4);
    }
  }

  lemma CutsBehind(text: string, name: string, i: nat)
    requires CutAt(text, "key", name, i)
    ensures i > 4
  {
    assert |"key"| == 3;
  }

  // ----- What an import does about it ----------------------------------------------------

  /** Importing the element a beside the present element b fills a's blank password with b's. */
  predicate Takes(a: Json, b: Json, text: string)
    requires a.Obj? && "password" in a.fields
  {
    b.Obj? && "password" in b.fields && b.fields["password"] == Str(text)
    && At(Merge(Arr([a]), Some(Arr([b]))), [Elem(0), Field("password")]) == Some(Str(text))
  }

  lemma TakesIf(a: Json, b: Json, text: string)
    requires a.Obj? && a.fields.Keys >= {"password"} && a.fields["password"] == Str("") && text != ""
    requires b.Obj? && "password" in b.fields && b.fields["password"] == Str(text)
    ensures Takes(a, b, text) <==> Identity(a).Some? && Identity(a) == Identity(b)
  {
    PasswordIsSecret();
    var n, o := Arr([a]), Some(Arr([b]));
    assert IdsOf([a]) == [Identity(a)] && IdsOf(ItemsOf(o)) == [Identity(b)];
    OnePartner(Identity(a), Identity(b));
    assert Merge(n, o).items[0] == MergeItem(n, 0, o);
    var p := [Elem(0), Field("password")];
    assert p[1..] == [Field("password")] && p[1..][1..] == [];
    assert At(Merge(n, o), p) == At(MergeItem(n, 0, o), p[1..]);
    assert Merge(a, Some(b)).fields["password"] == MergeField(a, "password", Some(b)) == Str(text);
    assert At(Merge(a, Some(b)), p[1..]) == At(Str(text), p[1..][1..]) == Some(Str(text));
    assert At(a, p[1..]) == At(Str(""), p[1..][1..]) == Some(Str(""));
  }

  lemma OnePartner(x: Option<string>, y: Option<string>)
    ensures Partner([x], 0, [y]) == if x.Some? && x == y then Some(0) else None
  {
    if x.Some? {
      assert Count([y], x.value, 1) == Count([y], x.value, 0) + if y == x then 1 else 0;
      assert Count([x], x.value, 1) == Count([x], x.value, 0) + 1;
    }
  }

  lemma PasswordIsSecret()
    ensures SecretKey("password")
  {
    assert Lower("password") == "password";
    assert "password" <= "password";
  }

  lemma TakenFromTwin(a: Json, b: Json, text: string)
    requires a.Obj? && "password" in a.fields && a.fields["password"] == Str("") && text != "" && Takes(a, b, text)
    ensures b.Obj? && Identity(a).Some? && Identity(a) == Identity(b)
  {
    TakesIf(a, b, text);
  }

  /** An import can fill an element's blank password from another thing, at another address, exactly if its identity is ambiguous. */
  lemma SecretsMoveIff(a: Json, text: string)
    requires a.Obj? && "password" in a.fields && a.fields["password"] == Str("") && Identity(a).Some? && text != ""
    ensures Ambiguous(a) <==> exists b: Json :: !SameThing(a, b) && Takes(a, b, text)
    ensures Ambiguous(a) <==> exists b: Json :: b.Obj? && Endpoints(a) != Endpoints(b) && Takes(a, b, text)
  {
    hide Ambiguous, Endpoints, Labelled, Takes, Joined, Segments;
    if Ambiguous(a) {
      var other := OtherReading(a);
      var b := Obj(other.fields["password" := Str(text)]);
      SameParts(other, b);
      TakesIf(a, b, text);
      assert Takes(a, b, text) && !SameThing(a, b);
    } else {
      forall b: Json | Takes(a, b, text) ensures SameThing(a, b) {
        TakenFromTwin(a, b, text);
        UnambiguousIsFaithful(a, b);
      }
    }
  }

  lemma SameParts(a: Json, b: Json)
    requires a.Obj? && b.Obj? && b.fields.Keys == a.fields.Keys + {"password"} && "password" !in a.fields
    requires forall k :: k in a.fields ==> b.fields[k] == a.fields[k]
    ensures Segments(a) == Segments(b) && Endpoints(a) == Endpoints(b) && (forall c :: SameThing(c, a) <==> SameThing(c, b))
  {
    assert forall name :: name != "password" ==> TextAt(b, name) == TextAt(a, name);
  }

  // ----- Whole paths ---------------------------------------------------------------------

  /** The pairs of elements passed on the way are the same things. */
  predicate SameThings(n: Json, p: Path, o: Json, q: Path)
    requires SamePlace(n, p, o, q)
  {
    p == []
    || match p[0]
       case Field(k) => SameThings(n.fields[k], p[1..], o.fields[k], q[1..])
       case Elem(i) => SameThing(n.items[i], o.items[q[0].index]) && SameThings(n.items[i], p[1..], o.items[q[0].index], q[1..])
  }

  /** Each pair passed on the way has an identity that is unambiguous, or parts without bars. */
  ghost predicate Clear(n: Json, p: Path, o: Json, q: Path)
    requires SamePlace(n, p, o, q)
  {
    p == []
    || match p[0]
       case Field(k) => Clear(n.fields[k], p[1..], o.fields[k], q[1..])
       case Elem(i) => ClearPair(n.items[i], o.items[q[0].index]) && Clear(n.items[i], p[1..], o.items[q[0].index], q[1..])
  }

  ghost predicate ClearPair(a: Json, b: Json) {
    a.Obj? && b.Obj? && Identity(a).Some? && (!Ambiguous(a) || (NoBars(Segments(a)) && NoBars(Segments(b))))
  }

  /** A filled secret comes from the same fields of the same things, by key and endpoints. */
  lemma FilledFromSameThings(n: Json, o: Option<Json>, p: Path, text: string) returns (q: Path)
    requires At(Merge(n, o), p) == Some(Str(text)) && At(n, p) != Some(Str(text))
    ensures o.Some? && SamePlace(n, p, o.value, q) && At(o.value, q) == Some(Str(text))
    ensures Clear(n, p, o.value, q) ==> SameThings(n, p, o.value, q)
  {
    q := FilledFromSamePlace(n, o, p, text);
    if Clear(n, p, o.value, q) { ClearIsFaithful(n, p, o.value, q); }
  }

  lemma {:induction false} ClearIsFaithful(n: Json, p: Path, o: Json, q: Path)
    requires SamePlace(n, p, o, q) && Clear(n, p, o, q)
    ensures SameThings(n, p, o, q)
  {
    if p != [] {
      match p[0]
      case Field(k) => ClearIsFaithful(n.fields[k], p[1..], o.fields[k], q[1..]);
      case Elem(i) =>
        var a, b := n.items[i], o.items[q[0].index];
        assert IdsOf(n.items)[i] == IdsOf(o.items)[q[0].index];
        if !Ambiguous(a) { UnambiguousIsFaithful(a, b); } else { BarFreeIsFaithful(a, b); }
        ClearIsFaithful(a, p[1..], b, q[1..]);
    }
  }
}

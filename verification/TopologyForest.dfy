/** Forests given by parent positions, and the sizes of the families in them. */
module TopologyForest {
  import opened Base

  /** A node's level and the position of its parent. */
  datatype Place = Place(level: nat, up: Option<nat>)

  type Forest = seq<Place>

  predicate IsForest(f: Forest) {
    forall j :: 0 <= j < |f| && f[j].up.Some? ==> f[j].up.value < |f| && f[f[j].up.value].level < f[j].level
  }

  /** j lies below i. */
  predicate Under(f: Forest, i: nat, j: nat)
    requires IsForest(f) && i < |f| && j < |f|
    decreases f[j].level
  {
    f[j].up.Some? && (f[j].up.value == i || Under(f, i, f[j].up.value))
  }

  predicate InFamily(f: Forest, i: nat, j: nat)
    requires IsForest(f) && i < |f| && j < |f|
  {
    j == i || Under(f, i, j)
  }

  function UnderOf(f: Forest, i: nat): (s: set<nat>)
    requires IsForest(f) && i < |f|
    ensures forall j :: j in s <==> 0 <= j < |f| && Under(f, i, j)
  {
    set j: nat | 0 <= j < |f| && Under(f, i, j)
  }

  /** The places among the first n right below `up`; below nothing, they are the roots. */
  function Offspring(f: Forest, up: Option<nat>, n: nat): (ks: seq<nat>)
    requires n <= |f|
    ensures forall a :: 0 <= a < |ks| ==> ks[a] < n && f[ks[a]].up == up
    ensures forall k: nat :: k < n && f[k].up == up ==> k in ks
    ensures forall a, b :: 0 <= a < b < |ks| ==> ks[a] < ks[b]
  {
    if n == 0 then []
    else if f[n - 1].up == up then Offspring(f, up, n - 1) + [n - 1]
    else Offspring(f, up, n - 1)
  }

  lemma {:induction false} UnderIsDeeper(f: Forest, i: nat, j: nat)
    requires IsForest(f) && i < |f| && j < |f| && Under(f, i, j)
    ensures f[j].level > f[i].level
    decreases f[j].level
  {
    if f[j].up.value != i { UnderIsDeeper(f, i, f[j].up.value); }
  }

  /** Two places with the same parent have no descendant in common. */
  lemma {:induction false} FamiliesAreApart(f: Forest, a: nat, b: nat, j: nat)
    requires IsForest(f) && a < |f| && b < |f| && j < |f| && a != b && f[a].up == f[b].up
    ensures !(InFamily(f, a, j) && InFamily(f, b, j))
    decreases f[j].level
  {
    if InFamily(f, a, j) && InFamily(f, b, j) {
      if j == a || j == b {
        var top := if j == a then b else a;
        var p := f[j].up.value;
        if p != top {
          UnderIsDeeper(f, top, p);
        }
        assert false;
      } else {
        FamiliesAreApart(f, a, b, f[j].up.value);
      }
    }
  }

  predicate Within(ks: seq<nat>, n: nat) {
    forall a :: 0 <= a < |ks| ==> ks[a] < n
  }

  function Families(f: Forest, ks: seq<nat>, n: nat): (s: set<nat>)
    requires IsForest(f) && n <= |ks| && Within(ks, |f|)
    ensures forall j :: j in s ==> j < |f|
  {
    if n == 0 then {} else Families(f, ks, n - 1) + {ks[n - 1]} + UnderOf(f, ks[n - 1])
  }

  lemma {:induction false} FamilyOf(f: Forest, ks: seq<nat>, n: nat, j: nat) returns (m: nat)
    requires IsForest(f) && n <= |ks| && Within(ks, |f|) && j in Families(f, ks, n)
    ensures m < n && InFamily(f, ks[m], j)
  {
    if j == ks[n - 1] || j in UnderOf(f, ks[n - 1]) {
      m := n - 1;
    } else {
      m := FamilyOf(f, ks, n - 1, j);
    }
  }

  lemma {:induction false} FamilyIsIn(f: Forest, ks: seq<nat>, n: nat, m: nat, j: nat)
    requires IsForest(f) && m < n <= |ks| && Within(ks, |f|) && j < |f| && InFamily(f, ks[m], j)
    ensures j in Families(f, ks, n)
  {
    if m < n - 1 { FamilyIsIn(f, ks, n - 1, m, j); }
  }

  /** The sizes of the first n families, added up. */
  function FamilySizes(f: Forest, ks: seq<nat>, n: nat): nat
    requires IsForest(f) && n <= |ks| && Within(ks, |f|)
  {
    if n == 0 then 0 else FamilySizes(f, ks, n - 1) + 1 + |UnderOf(f, ks[n - 1])|
  }

  /** Different places with the same parent. */
  predicate Siblings(f: Forest, ks: seq<nat>) {
    && Within(ks, |f|)
    && forall a, b :: 0 <= a < b < |ks| ==> ks[a] != ks[b] && f[ks[a]].up == f[ks[b]].up
  }

  lemma NextFamilyIsApart(f: Forest, ks: seq<nat>, n: nat)
    requires IsForest(f) && n < |ks| && Siblings(f, ks)
    ensures Families(f, ks, n) !! {ks[n]} + UnderOf(f, ks[n])
  {
    forall j | j in Families(f, ks, n) ensures j != ks[n] && j !in UnderOf(f, ks[n]) {
      var m := FamilyOf(f, ks, n, j);
      FamiliesAreApart(f, ks[m], ks[n], j);
    }
  }

  lemma DisjointSizes(a: set<nat>, k: nat, under: set<nat>)
    requires k !in under && a !! {k} + under
    ensures |a + {k} + under| == |a| + 1 + |under|
  {
    assert |a + {k}| == |a| + 1;
    assert a + {k} !! under;
  }

  /** The families of all children of a place have as many members as their sizes say. */
  lemma {:induction false} SizesAddUp(f: Forest, ks: seq<nat>, n: nat)
    requires IsForest(f) && n <= |ks| && Siblings(f, ks)
    ensures FamilySizes(f, ks, n) == |Families(f, ks, n)|
  {
    if n > 0 {
      SizesAddUp(f, ks, n - 1);
      NextFamilyIsApart(f, ks, n - 1);
      var k := ks[n - 1];
      if Under(f, k, k) { UnderIsDeeper(f, k, k); }
      DisjointSizes(Families(f, ks, n - 1), k, UnderOf(f, k));
    }
  }

  /** Everything below a place belongs to the family of one of its children. */
  lemma {:induction false} ChildAbove(f: Forest, i: nat, j: nat) returns (k: nat)
    requires IsForest(f) && i < |f| && j < |f| && Under(f, i, j)
    ensures k < |f| && f[k].up == Some(i) && InFamily(f, k, j)
    decreases f[j].level
  {
    if f[j].up == Some(i) {
      k := j;
    } else {
      k := ChildAbove(f, i, f[j].up.value);
    }
  }

  lemma {:induction false} ChildrenAreUnder(f: Forest, i: nat, k: nat, j: nat)
    requires IsForest(f) && i < |f| && k < |f| && j < |f| && f[k].up == Some(i) && InFamily(f, k, j)
    ensures Under(f, i, j)
    decreases f[j].level
  {
    if j != k { ChildrenAreUnder(f, i, k, f[j].up.value); }
  }

  /** The families of a place's children make up what is below it. */
  lemma DescendantsAddUp(f: Forest, i: nat)
    requires IsForest(f) && i < |f|
    ensures var ks := Offspring(f, Some(i), |f|); FamilySizes(f, ks, |ks|) == |UnderOf(f, i)|
  {
    var ks := Offspring(f, Some(i), |f|);
    SizesAddUp(f, ks, |ks|);
    forall j | j in UnderOf(f, i) ensures j in Families(f, ks, |ks|) {
      var k := ChildAbove(f, i, j);
      assert k in ks;
      var m :| 0 <= m < |ks| && ks[m] == k;
      FamilyIsIn(f, ks, |ks|, m, j);
    }
    forall j | j in Families(f, ks, |ks|) ensures j in UnderOf(f, i) {
      var m := FamilyOf(f, ks, |ks|, j);
      ChildrenAreUnder(f, i, ks[m], j);
    }
    assert Families(f, ks, |ks|) == UnderOf(f, i);
  }

  lemma {:induction false} RootAbove(f: Forest, j: nat) returns (r: nat)
    requires IsForest(f) && j < |f|
    ensures r < |f| && f[r].up == None && InFamily(f, r, j)
    decreases f[j].level
  {
    if f[j].up == None {
      r := j;
    } else {
      r := RootAbove(f, f[j].up.value);
    }
  }

  /** The families of the roots are everything, each place once. */
  lemma RootsAddUp(f: Forest)
    requires IsForest(f)
    ensures var rs := Offspring(f, None, |f|); FamilySizes(f, rs, |rs|) == |f|
  {
    var rs := Offspring(f, None, |f|);
    SizesAddUp(f, rs, |rs|);
    forall j: nat | j < |f| ensures j in Families(f, rs, |rs|) {
      var r := RootAbove(f, j);
      assert r in rs;
      var m :| 0 <= m < |rs| && rs[m] == r;
      FamilyIsIn(f, rs, |rs|, m, j);
    }
    assert Families(f, rs, |rs|) == FirstNats(|f|);
  }

  function FirstNats(n: nat): (s: set<nat>)
    ensures |s| == n && forall j: nat :: j in s <==> j < n
  {
    if n == 0 then {} else FirstNats(n - 1) + {n - 1}
  }
}

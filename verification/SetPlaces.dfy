/** Identities inside sets: when renaming them can be seen in the canonical form. */
module SetPlaces {
  import opened Grammars
  import opened Lists
  import opened CanonicalForms

  /** A set of strings, as it enters the canonicaliser: a list in the order of the encodings. */
  function Texts(xs: seq<Name>): Value {
    Items(seq(|xs|, i requires 0 <= i < |xs| => Text(xs[i])))
  }

  ghost predicate Ascending(before: (Name, Name) -> bool, xs: seq<Name>) {
    forall i, j :: 0 <= i < j < |xs| ==> before(xs[i], xs[j])
  }

  /** `xs` and `ys` list two sets of strings, the second being the first with its identities renamed. */
  ghost predicate RenamedSet(before: (Name, Name) -> bool, pi: map<Name, Name>, ids: set<Name>, xs: seq<Name>,
        newIds: set<Name>, ys: seq<Name>) {
    && TotalOrder(before) && Ascending(before, xs) && Ascending(before, ys)
    && Bijection(pi, ids, newIds) && PlainNames(ids) && PlainNames(newIds) && Apart(Elements(xs), ids, newIds)
    && multiset(ys) == multiset(Mapped(Along(pi), xs))
  }

  /** The identities stand at the same places in both lists. */
  ghost predicate SamePlaces(ids: set<Name>, xs: seq<Name>, newIds: set<Name>, ys: seq<Name>) {
    |xs| == |ys| && forall i :: 0 <= i < |xs| ==> (xs[i] in ids <==> ys[i] in newIds)
  }

  lemma RenamedElement(pi: map<Name, Name>, xs: seq<Name>, ys: seq<Name>, y: Name)
    requires multiset(ys) == multiset(Mapped(Along(pi), xs))
    ensures |xs| == |ys| && (y in ys <==> exists i :: 0 <= i < |xs| && Along(pi)(xs[i]) == y)
  {
    hide Along;
    assert |multiset(ys)| == |multiset(Mapped(Along(pi), xs))|;
    assert y in ys <==> y in multiset(Mapped(Along(pi), xs));
    assert forall i :: 0 <= i < |xs| ==> Mapped(Along(pi), xs)[i] == Along(pi)(xs[i]);
  }

  lemma AscendingIsDistinct(before: (Name, Name) -> bool, xs: seq<Name>, i: nat, j: nat)
    requires TotalOrder(before) && Ascending(before, xs) && i < |xs| && j < |xs| && xs[i] == xs[j]
    ensures i == j
  {
    assert !before(xs[i], xs[i]);
  }

  lemma Earlier(before: (Name, Name) -> bool, xs: seq<Name>, x: Name, i: nat) returns (j: nat)
    requires TotalOrder(before) && Ascending(before, xs) && x in xs && i < |xs| && before(x, xs[i])
    ensures j < i && xs[j] == x
  {
    j :| 0 <= j < |xs| && xs[j] == x;
    assert !before(xs[i], xs[i]);
  }

  lemma SetParts(before: (Name, Name) -> bool, pi: map<Name, Name>, ids: set<Name>, xs: seq<Name>,
                 newIds: set<Name>, ys: seq<Name>)
    requires RenamedSet(before, pi, ids, xs, newIds, ys)
    ensures |xs| == |ys| && forall n :: n in xs && n !in ids ==> n !in newIds && n in ys
    ensures forall n :: n in ys && n !in newIds ==> n !in ids && n in xs
    ensures forall n :: n in ids ==> (n in xs <==> pi[n] in ys)
    ensures forall n :: n in xs ==> n.Plain?
    ensures forall n :: n in ys ==> n.Plain?
  {
    RenamedElement(pi, xs, ys, Alpha(0));
    assert forall n :: n in xs <==> n in Elements(xs);
    hide TotalOrder, Ascending, Elements, Mapped, Onto;
    forall n ensures n in ys <==> exists i :: 0 <= i < |xs| && Along(pi)(xs[i]) == n {
      RenamedElement(pi, xs, ys, n);
    }
  }

  /** Lists with identities at the same places have the same other strings at the other places. */
  lemma {:induction false} OthersStay(before: (Name, Name) -> bool, pi: map<Name, Name>, ids: set<Name>, xs: seq<Name>,
                                      newIds: set<Name>, ys: seq<Name>, i: nat)
    requires RenamedSet(before, pi, ids, xs, newIds, ys) && SamePlaces(ids, xs, newIds, ys)
    requires i < |xs| && xs[i] !in ids
    ensures xs[i] == ys[i]
    decreases i
  {
    SetParts(before, pi, ids, xs, newIds, ys);
    assert before(xs[i], ys[i]) || before(ys[i], xs[i]) || xs[i] == ys[i];
    hide Ascending, TotalOrder, Apart, Mapped, Along, Bijection, PlainNames;
    if before(xs[i], ys[i]) {
      var j := Earlier(before, ys, xs[i], i);
      OthersStay(before, pi, ids, xs, newIds, ys, j);
      AscendingIsDistinct(before, xs, i, j);
    } else if before(ys[i], xs[i]) {
      var j := Earlier(before, xs, ys[i], i);
      OthersStay(before, pi, ids, xs, newIds, ys, j);
      AscendingIsDistinct(before, ys, i, j);
    }
  }

  /** The renaming that sends each identity of the first list to its place in the second. */
  ghost function PlaceByPlace(pi: map<Name, Name>, ids: set<Name>, xs: seq<Name>, ys: seq<Name>): map<Name, Name>
    requires pi.Keys == ids && |xs| == |ys|
  {
    map n | n in ids :: if n in xs then var i :| 0 <= i < |xs| && xs[i] == n; ys[i] else pi[n]
  }

  lemma PlaceOf(before: (Name, Name) -> bool, pi: map<Name, Name>, ids: set<Name>, xs: seq<Name>, newIds: set<Name>,
                ys: seq<Name>, i: nat)
    requires RenamedSet(before, pi, ids, xs, newIds, ys) && SamePlaces(ids, xs, newIds, ys) && i < |xs|
    ensures Along(PlaceByPlace(pi, ids, xs, ys))(xs[i]) == ys[i]
  {
    hide TotalOrder, Apart, PlainNames, Into, Onto, Mapped;
    if xs[i] in ids {
      forall j | 0 <= j < |xs| && xs[j] == xs[i] ensures j == i {
        AscendingIsDistinct(before, xs, i, j);
      }
    } else {
      OthersStay(before, pi, ids, xs, newIds, ys, i);
    }
  }

  /** Where an identity goes: to its place if it is in the first list, and along `pi` if it is not. */
  lemma PlaceFor(before: (Name, Name) -> bool, pi: map<Name, Name>, ids: set<Name>, xs: seq<Name>, newIds: set<Name>,
                 ys: seq<Name>, n: Name)
    requires RenamedSet(before, pi, ids, xs, newIds, ys) && SamePlaces(ids, xs, newIds, ys) && n in ids
    ensures var y := PlaceByPlace(pi, ids, xs, ys)[n];
            && y in newIds && (n in xs ==> exists i :: 0 <= i < |xs| && xs[i] == n && ys[i] == y)
            && (n !in xs ==> y !in ys && y == pi[n])
  {
    SetParts(before, pi, ids, xs, newIds, ys);
    hide TotalOrder, Apart, PlainNames, Mapped, Ascending;
    if n in xs {
      var i :| 0 <= i < |xs| && xs[i] == n;
      PlaceOf(before, pi, ids, xs, newIds, ys, i);
    }
  }

  lemma PlacesDiffer(before: (Name, Name) -> bool, pi: map<Name, Name>, ids: set<Name>, xs: seq<Name>,
                     newIds: set<Name>, ys: seq<Name>, n: Name, k: Name)
    requires RenamedSet(before, pi, ids, xs, newIds, ys) && SamePlaces(ids, xs, newIds, ys) && n in ids && k in ids
    requires PlaceByPlace(pi, ids, xs, ys)[n] == PlaceByPlace(pi, ids, xs, ys)[k]
    ensures n == k
  {
    PlaceFor(before, pi, ids, xs, newIds, ys, n);
    PlaceFor(before, pi, ids, xs, newIds, ys, k);
    hide TotalOrder, Apart, PlainNames, Mapped, Ascending, PlaceByPlace, Into, Onto;
    if n in xs && k in xs {
      var i :| 0 <= i < |xs| && xs[i] == n && ys[i] == PlaceByPlace(pi, ids, xs, ys)[n];
      var j :| 0 <= j < |xs| && xs[j] == k && ys[j] == PlaceByPlace(pi, ids, xs, ys)[n];
      AscendingIsDistinct(before, ys, i, j);
    }
  }

  lemma PlacesReach(before: (Name, Name) -> bool, pi: map<Name, Name>, ids: set<Name>, xs: seq<Name>,
                    newIds: set<Name>, ys: seq<Name>, y: Name)
    requires RenamedSet(before, pi, ids, xs, newIds, ys) && SamePlaces(ids, xs, newIds, ys) && y in newIds
    ensures Hit(PlaceByPlace(pi, ids, xs, ys), y)
  {
    hide TotalOrder, Apart, PlainNames, Mapped, Ascending, Injective, Into, PlaceByPlace;
    var sigma := PlaceByPlace(pi, ids, xs, ys);
    PlacesKeys(pi, ids, xs, ys);
    if y in ys {
      var i :| 0 <= i < |ys| && ys[i] == y;
      PlaceOf(before, pi, ids, xs, newIds, ys, i);
      HitBy(sigma, xs[i], y);
    } else {
      assert Hit(pi, y);
      var n :| n in pi && pi[n] == y;
      SetParts(before, pi, ids, xs, newIds, ys);
      PlaceFor(before, pi, ids, xs, newIds, ys, n);
      HitBy(sigma, n, y);
    }
  }

  lemma PlacesKeys(pi: map<Name, Name>, ids: set<Name>, xs: seq<Name>, ys: seq<Name>)
    requires pi.Keys == ids && |xs| == |ys|
    ensures PlaceByPlace(pi, ids, xs, ys).Keys == ids
  {}

  lemma SetShape(before: (Name, Name) -> bool, pi: map<Name, Name>, ids: set<Name>, xs: seq<Name>,
                 newIds: set<Name>, ys: seq<Name>)
    requires RenamedSet(before, pi, ids, xs, newIds, ys)
    ensures pi.Keys == ids && |xs| == |ys|
  {
    SetParts(before, pi, ids, xs, newIds, ys);
  }

  lemma PlacesInjective(before: (Name, Name) -> bool, pi: map<Name, Name>, ids: set<Name>, xs: seq<Name>,
                        newIds: set<Name>, ys: seq<Name>)
    requires RenamedSet(before, pi, ids, xs, newIds, ys) && SamePlaces(ids, xs, newIds, ys)
    ensures pi.Keys == ids && Injective(PlaceByPlace(pi, ids, xs, ys))
  {
    SetShape(before, pi, ids, xs, newIds, ys);
    PlacesKeys(pi, ids, xs, ys);
    var sigma := PlaceByPlace(pi, ids, xs, ys);
    hide RenamedSet, SamePlaces, PlaceByPlace;
    forall n, k | n in sigma && k in sigma && sigma[n] == sigma[k] ensures n == k {
      PlacesDiffer(before, pi, ids, xs, newIds, ys, n, k);
    }
  }

  lemma PlacesInto(before: (Name, Name) -> bool, pi: map<Name, Name>, ids: set<Name>, xs: seq<Name>,
                   newIds: set<Name>, ys: seq<Name>)
    requires RenamedSet(before, pi, ids, xs, newIds, ys) && SamePlaces(ids, xs, newIds, ys)
    ensures pi.Keys == ids && Into(PlaceByPlace(pi, ids, xs, ys), newIds)
  {
    SetShape(before, pi, ids, xs, newIds, ys);
    PlacesKeys(pi, ids, xs, ys);
    var sigma := PlaceByPlace(pi, ids, xs, ys);
    hide RenamedSet, SamePlaces, PlaceByPlace;
    forall n | n in sigma ensures sigma[n] in newIds {
      PlaceFor(before, pi, ids, xs, newIds, ys, n);
    }
  }

  lemma PlacesBijection(before: (Name, Name) -> bool, pi: map<Name, Name>, ids: set<Name>, xs: seq<Name>,
                        newIds: set<Name>, ys: seq<Name>)
    requires RenamedSet(before, pi, ids, xs, newIds, ys) && SamePlaces(ids, xs, newIds, ys)
    ensures pi.Keys == ids && Bijection(PlaceByPlace(pi, ids, xs, ys), ids, newIds)
  {
    SetShape(before, pi, ids, xs, newIds, ys);
    PlacesKeys(pi, ids, xs, ys);
    hide RenamedSet, SamePlaces, PlaceByPlace, Hit, Injective, Into;
    PlacesInjective(before, pi, ids, xs, newIds, ys);
    PlacesInto(before, pi, ids, xs, newIds, ys);
    forall y | y in newIds ensures Hit(PlaceByPlace(pi, ids, xs, ys), y) {
      PlacesReach(before, pi, ids, xs, newIds, ys, y);
    }
  }

  lemma TextsRenamed(f: Name -> Name, xs: seq<Name>)
    ensures RenameBy(f, Texts(xs)) == Texts(Mapped(f, xs)) && Names(Texts(xs)) == Elements(xs)
  {
    var v := Texts(xs);
    forall i | 0 <= i < |xs| ensures RenameBy(f, v.items[i]) == Text(f(xs[i])) && Names(v.items[i]) == {xs[i]} {}
    assert RenameBy(f, v).items == Texts(Mapped(f, xs)).items;
  }

  /** The form of a bare list shows the numbers of all its names. */
  lemma TextsForm(p: Policy, ids: set<Name>, xs: seq<Name>, f: Form, i: nat)
    requires SoundPolicy(p) && Canonical(p, ids, Bare(Texts(xs)), f) && i < |xs| && xs[i].Plain?
    ensures f.plain.Items? && |f.plain.items| == |xs| && f.plain.items[i].Text?
    ensures f.plain.items[i].name.Alpha? <==> xs[i] in ids
  {
    hide GraphCandidate, Bare, RenameBy, TotalOrder, Factorial, Names;
    var m: map<Name, Name> :| Tried(p, ids, m) && FormFor(p, m, Bare(Texts(xs)), f);
    assert Assignment(ids, m);
    TextsRenamed(Along(m), xs);
    assert Bare(Texts(xs)).plain == Texts(xs) by { BarePlain(Texts(xs)); }
  }

  lemma BarePlain(v: Value)
    ensures Bare(v).plain == v && Bare(v).graph.nodes == []
  {}

  lemma FormsShowPlaces(p: Policy, before: (Name, Name) -> bool, pi: map<Name, Name>, ids: set<Name>, xs: seq<Name>,
                        newIds: set<Name>, ys: seq<Name>, f: Form)
    requires SoundPolicy(p) && RenamedSet(before, pi, ids, xs, newIds, ys)
    requires Canonical(p, ids, Bare(Texts(xs)), f) && Canonical(p, newIds, Bare(Texts(ys)), f)
    ensures SamePlaces(ids, xs, newIds, ys)
  {
    SetParts(before, pi, ids, xs, newIds, ys);
    hide SoundPolicy, RenamedSet, Canonical, Texts, Bare;
    forall i | 0 <= i < |xs| ensures xs[i] in ids <==> ys[i] in newIds {
      assert xs[i] in xs && ys[i] in ys;
      TextsForm(p, ids, xs, f, i);
      TextsForm(p, newIds, ys, f, i);
    }
  }

  lemma PlacesMakeVariant(before: (Name, Name) -> bool, pi: map<Name, Name>, ids: set<Name>, xs: seq<Name>,
                          newIds: set<Name>, ys: seq<Name>) returns (sigma: map<Name, Name>)
    requires RenamedSet(before, pi, ids, xs, newIds, ys) && SamePlaces(ids, xs, newIds, ys)
    ensures Variant(sigma, map[], ids, Bare(Texts(xs)), newIds, Bare(Texts(ys)))
  {
    SetShape(before, pi, ids, xs, newIds, ys);
    sigma := PlaceByPlace(pi, ids, xs, ys);
    PlacesBijection(before, pi, ids, xs, newIds, ys);
    forall i | 0 <= i < |xs| ensures Along(sigma)(xs[i]) == ys[i] {
      PlaceOf(before, pi, ids, xs, newIds, ys, i);
    }
    assert Mapped(Along(sigma), xs) == ys;
    TextsRenamed(Along(sigma), xs);
    hide Bijection, Along, Mapped, Texts, Bare, PlaceByPlace, Variant;
    BareIsVariant(sigma, ids, newIds, Texts(xs));
  }

  /** Sets are put in order before anything is renamed, so where an identity stands in a set can show: two sets
      that differ in the names of identities have one form exactly when their identities take the same places
      in the order of the strings. */
  lemma IdentitiesInSetsShow(p: Policy, before: (Name, Name) -> bool, pi: map<Name, Name>, ids: set<Name>,
                             xs: seq<Name>, newIds: set<Name>, ys: seq<Name>, f: Form)
    requires SoundPolicy(p) && RenamedSet(before, pi, ids, xs, newIds, ys)
    requires Factorial(|ids|) <= p.maximum && p.small(multiset{}) && Canonical(p, ids, Bare(Texts(xs)), f)
    ensures Canonical(p, newIds, Bare(Texts(ys)), f) <==> SamePlaces(ids, xs, newIds, ys)
  {
    hide *;
    if Canonical(p, newIds, Bare(Texts(ys)), f) {
      FormsShowPlaces(p, before, pi, ids, xs, newIds, ys, f);
    }
    if SamePlaces(ids, xs, newIds, ys) {
      var sigma := PlacesMakeVariant(before, pi, ids, xs, newIds, ys);
      NoClasses(Texts(xs));
      VariantsAgree(p, sigma, map[], ids, Bare(Texts(xs)), newIds, Bare(Texts(ys)), f);
    }
  }

  lemma NoClasses(v: Value)
    ensures ClassLabels(Bare(v).graph.nodes) == multiset{}
  {}

  lemma RenamedPair(before: (Name, Name) -> bool, x: Name, k: Name, z: Name)
    requires TotalOrder(before) && x.Plain? && k.Plain? && z.Plain? && before(x, k) && before(k, z)
    ensures RenamedSet(before, map[x := z], {x}, [x, k], {z}, [k, z]) && !SamePlaces({x}, [x, k], {z}, [k, z])
  {
    assert x != k && k != z;
    hide TotalOrder;
    var pi := map[x := z];
    assert pi[x] == z && Hit(pi, z) by { HitBy(pi, x, z); }
    assert Elements([x, k]) == {x, k};
    assert Mapped(Along(pi), [x, k]) == [z, k];
    assert [x, k][0] in {x} && [k, z][0] !in {z};
  }

  /** An instance: `x` sorts before the other string, and `z`, to which it is renamed, after it. */
  lemma ARenamedIdentityShows(p: Policy, before: (Name, Name) -> bool, x: Name, k: Name, z: Name, f: Form)
    requires SoundPolicy(p) && TotalOrder(before) && before(x, k) && before(k, z)
    requires x.Plain? && k.Plain? && z.Plain?
    ensures RenamedSet(before, map[x := z], {x}, [x, k], {z}, [k, z])
    ensures !(Canonical(p, {x}, Bare(Texts([x, k])), f) && Canonical(p, {z}, Bare(Texts([k, z])), f))
  {
    hide *;
    RenamedPair(before, x, k, z);
    if Canonical(p, {x}, Bare(Texts([x, k])), f) && Canonical(p, {z}, Bare(Texts([k, z])), f) {
      FormsShowPlaces(p, before, map[x := z], {x}, [x, k], {z}, [k, z], f);
    }
  }
}

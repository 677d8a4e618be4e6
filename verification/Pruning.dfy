/** What the online replay counts, said of the places in the forest. */
module Pruning {
  import opened Calibration

  // ---------- places ----------

  /** A way down: the number of a tree, and then of a child at each step. */
  predicate Valid(forest: seq<Branch>, a: seq<nat>)
    decreases |a|
  {
    a != [] && a[0] < |forest| && (|a| > 1 ==> Valid(forest[a[0]].children, a[1..]))
  }

  function BranchAt(forest: seq<Branch>, a: seq<nat>): Branch
    requires Valid(forest, a)
    decreases |a|
  {
    if |a| == 1 then forest[a[0]] else BranchAt(forest[a[0]].children, a[1..])
  }

  /** A branch on the way, the last one included, is pruned. */
  predicate Pruned(forest: seq<Branch>, a: seq<nat>)
    requires Valid(forest, a)
    decreases |a|
  {
    forest[a[0]].prune || (|a| > 1 && Pruned(forest[a[0]].children, a[1..]))
  }

  // ---------- the places in the order of the marked branches ----------

  function Under(n: nat, s: seq<seq<nat>>): seq<seq<nat>> {
    seq(|s|, i requires 0 <= i < |s| => [n] + s[i])
  }

  function Places(forest: seq<Branch>): seq<seq<nat>> {
    if forest == [] then []
    else
      var n := |forest| - 1;
      Places(forest[..n]) + [[n]] + Under(n, Places(forest[n].children))
  }

  /** The marked branch is the one at this place, marked exactly if it or one above it is pruned. */
  predicate Fits(forest: seq<Branch>, above: bool, a: seq<nat>, m: (Branch, bool)) {
    Valid(forest, a) && m.0 == BranchAt(forest, a) && (m.1 <==> above || Pruned(forest, a))
  }

  lemma FitsMore(forest: seq<Branch>, above: bool, a: seq<nat>, m: (Branch, bool))
    requires forest != [] && Fits(forest[..|forest| - 1], above, a, m)
    ensures Fits(forest, above, a, m) && a[0] < |forest| - 1
  {
    assert forest[..|forest| - 1][a[0]] == forest[a[0]];
  }

  lemma FitsBelow(forest: seq<Branch>, above: bool, n: nat, a: seq<nat>, m: (Branch, bool))
    requires n < |forest| && Fits(forest[n].children, above || forest[n].prune, a, m)
    ensures Fits(forest, above, [n] + a, m)
  {
    assert ([n] + a)[1..] == a && ([n] + a)[0] == n;
  }

  lemma {:induction false} PlacesFit(forest: seq<Branch>, above: bool)
    ensures |Places(forest)| == |Marked(forest, above)|
    ensures forall k :: 0 <= k < |Places(forest)| ==> Fits(forest, above, Places(forest)[k], Marked(forest, above)[k])
    decreases forest
  {
    if forest != [] {
      var n := |forest| - 1;
      var b, rest := forest[n], forest[..n];
      PlacesFit(rest, above);
      PlacesFit(b.children, above || b.prune);
      var (some, more) := (Places(rest), Places(b.children));
      var (marks, below) := (Marked(rest, above), Marked(b.children, above || b.prune));
      hide Places, Marked, Fits;
      UnfoldPlaces(forest, above);
      assert Fits(forest, above, [n], (b, above || b.prune)) by { FitsHere(forest, above); }
      forall k | 0 <= k < |some| ensures Fits(forest, above, some[k], marks[k]) {
        FitsMore(forest, above, some[k], marks[k]);
      }
      forall k | 0 <= k < |more| ensures Fits(forest, above, [n] + more[k], below[k]) {
        FitsBelow(forest, above, n, more[k], below[k]);
      }
    }
  }

  lemma UnfoldPlaces(forest: seq<Branch>, above: bool)
    requires forest != []
    ensures var n, b := |forest| - 1, forest[|forest| - 1];
            && Places(forest) == Places(forest[..n]) + [[n]] + Under(n, Places(b.children))
            && Marked(forest, above) ==
                 Marked(forest[..n], above) + [(b, above || b.prune)] + Marked(b.children, above || b.prune)
  {
  }

  lemma FitsHere(forest: seq<Branch>, above: bool)
    requires forest != []
    ensures var n := |forest| - 1; Fits(forest, above, [n], (forest[n], above || forest[n].prune))
  {
  }

  // ---------- every place once ----------

  predicate Distinct(s: seq<seq<nat>>) {
    forall i, j :: 0 <= i < j < |s| ==> s[i] != s[j]
  }

  lemma UnderDistinct(n: nat, s: seq<seq<nat>>)
    requires Distinct(s)
    ensures Distinct(Under(n, s)) && forall k :: 0 <= k < |s| ==> Under(n, s)[k] == [n] + s[k]
  {
    forall i, j | 0 <= i < j < |s| ensures [n] + s[i] != [n] + s[j] {
      assert ([n] + s[i])[1..] == s[i] && ([n] + s[j])[1..] == s[j];
    }
  }

  lemma AppendDistinct(a: seq<seq<nat>>, n: nat, b: seq<seq<nat>>)
    requires Distinct(a) && Distinct(b) && (forall x <- a :: x != [] && x[0] < n)
    requires forall x <- b :: |x| > 1 && x[0] == n
    ensures Distinct(a + [[n]] + b)
  {
    var s := a + [[n]] + b;
    forall i, j | 0 <= i < j < |s| ensures s[i] != s[j] {
      assert i < |a| ==> s[i] in a;
      assert j < |a| ==> s[j] in a;
      assert j > |a| ==> s[j] in b;
      assert i > |a| ==> s[i] in b;
    }
  }

  lemma {:induction false} PlacesDistinct(forest: seq<Branch>)
    ensures Distinct(Places(forest))
    decreases forest
  {
    if forest != [] {
      var n := |forest| - 1;
      PlacesDistinct(forest[..n]);
      PlacesDistinct(forest[n].children);
      PlacesFit(forest[..n], false);
      PlacesFit(forest[n].children, false);
      var (some, more) := (Places(forest[..n]), Places(forest[n].children));
      UnderDistinct(n, more);
      forall x | x in some ensures x != [] && x[0] < n {
        var k :| 0 <= k < |some| && some[k] == x;
        assert Fits(forest[..n], false, some[k], Marked(forest[..n], false)[k]);
      }
      forall x | x in Under(n, more) ensures |x| > 1 && x[0] == n {
        var k :| 0 <= k < |more| && Under(n, more)[k] == x;
        assert Fits(forest[n].children, false, more[k], Marked(forest[n].children, false)[k]);
      }
      AppendDistinct(some, n, Under(n, more));
    }
  }

  lemma {:induction false} EveryPlace(forest: seq<Branch>, a: seq<nat>)
    requires Valid(forest, a)
    ensures a in Places(forest)
    decreases |a|, |forest|
  {
    var n := |forest| - 1;
    var rest := forest[..n];
    if a[0] < n {
      assert rest[a[0]] == forest[a[0]];
      EveryPlace(rest, a);
    } else if |a| == 1 {
      assert a == [n];
    } else {
      var more := Places(forest[n].children);
      EveryPlace(forest[n].children, a[1..]);
      var k :| 0 <= k < |more| && more[k] == a[1..];
      assert a == [n] + a[1..] == Under(n, more)[k];
    }
  }

  lemma ListedIsValid(forest: seq<Branch>, a: seq<nat>)
    requires a in Places(forest)
    ensures Valid(forest, a)
  {
    PlacesFit(forest, false);
    var k :| 0 <= k < |Places(forest)| && Places(forest)[k] == a;
    hide Places, Marked;
    assert Fits(forest, false, Places(forest)[k], Marked(forest, false)[k]);
  }

  // ---------- counting ----------

  /** The first of two lists at the places where the second satisfies `which`. */
  function Chosen(s: seq<seq<nat>>, marks: seq<(Branch, bool)>, which: ((Branch, bool)) -> bool): set<seq<nat>>
    requires |s| == |marks|
  {
    set k | 0 <= k < |s| && which(marks[k]) :: s[k]
  }

  function HowMany(marks: seq<(Branch, bool)>, which: ((Branch, bool)) -> bool): nat {
    if marks == [] then 0
    else HowMany(marks[..|marks| - 1], which) + if which(marks[|marks| - 1]) then 1 else 0
  }

  predicate InChosen(s: seq<seq<nat>>, marks: seq<(Branch, bool)>, which: ((Branch, bool)) -> bool, x: seq<nat>)
    requires |s| == |marks|
  {
    exists k :: 0 <= k < |s| && which(marks[k]) && s[k] == x
  }

  lemma ChosenIs(s: seq<seq<nat>>, marks: seq<(Branch, bool)>, which: ((Branch, bool)) -> bool, x: seq<nat>)
    requires |s| == |marks|
    ensures x in Chosen(s, marks, which) <==> InChosen(s, marks, which, x)
  {
  }

  lemma InChosenLast(s: seq<seq<nat>>, marks: seq<(Branch, bool)>, which: ((Branch, bool)) -> bool, x: seq<nat>)
    requires |s| == |marks| && s != [] && Distinct(s)
    ensures var n := |s| - 1;
            && (InChosen(s, marks, which, x) <==>
                  InChosen(s[..n], marks[..n], which, x) || (x == s[n] && which(marks[n])))
            && !InChosen(s[..n], marks[..n], which, s[n])
  {
    var n := |s| - 1;
    if InChosen(s[..n], marks[..n], which, x) {
      var k :| 0 <= k < n && which(marks[..n][k]) && s[..n][k] == x;
      assert s[k] == x && which(marks[k]);
    }
    if k :| 0 <= k < n && which(marks[k]) && s[k] == x {
      assert s[..n][k] == x && marks[..n][k] == marks[k];
    }
  }

  lemma ChosenLast(s: seq<seq<nat>>, marks: seq<(Branch, bool)>, which: ((Branch, bool)) -> bool)
    requires |s| == |marks| && s != [] && Distinct(s)
    ensures var n := |s| - 1;
            |Chosen(s, marks, which)| == |Chosen(s[..n], marks[..n], which)| + if which(marks[n]) then 1 else 0
  {
    var n := |s| - 1;
    var (before, after) := (Chosen(s[..n], marks[..n], which), Chosen(s, marks, which));
    hide Chosen, InChosen, Distinct;
    forall x ensures x in after <==> x in before || (x == s[n] && which(marks[n])) {
      ChosenIs(s, marks, which, x);
      ChosenIs(s[..n], marks[..n], which, x);
      InChosenLast(s, marks, which, x);
    }
    ChosenIs(s[..n], marks[..n], which, s[n]);
    InChosenLast(s, marks, which, s[n]);
    if which(marks[n]) {
      assert after == before + {s[n]};
    } else {
      assert after == before;
    }
  }

  lemma {:induction false} ChosenCounted(s: seq<seq<nat>>, marks: seq<(Branch, bool)>, which: ((Branch, bool)) -> bool)
    requires |s| == |marks| && Distinct(s)
    ensures |Chosen(s, marks, which)| == HowMany(marks, which)
    decreases |s|
  {
    if s == [] {
      assert Chosen(s, marks, which) == {};
    } else {
      hide Chosen;
      ChosenLast(s, marks, which);
      ChosenCounted(s[..|s| - 1], marks[..|s| - 1], which);
    }
  }

  function IsRemoved(): ((Branch, bool)) -> bool {
    (m: (Branch, bool)) => m.1
  }

  function IsKilled(): ((Branch, bool)) -> bool {
    (m: (Branch, bool)) => m.1 && m.0.target && m.0.children == []
  }

  lemma {:induction false} CountsAre(marks: seq<(Branch, bool)>)
    ensures Removed(marks) == HowMany(marks, IsRemoved()) && Killed(marks) == HowMany(marks, IsKilled())
  {
    if marks != [] {
      CountsAre(marks[..|marks| - 1]);
    }
  }

  /** The places that are pruned, or lie below a pruned one. */
  ghost function Doomed(forest: seq<Branch>): set<seq<nat>> {
    set a | a in Places(forest) && Valid(forest, a) && Pruned(forest, a)
  }

  /** The childless useful ones among them. */
  ghost function Lost(forest: seq<Branch>): set<seq<nat>> {
    set a | a in Doomed(forest) && Valid(forest, a) && BranchAt(forest, a).target && BranchAt(forest, a).children == []
  }

  lemma ChosenAre(forest: seq<Branch>)
    requires |Places(forest)| == |Marked(forest, false)|
    ensures Chosen(Places(forest), Marked(forest, false), IsRemoved()) == Doomed(forest)
    ensures Chosen(Places(forest), Marked(forest, false), IsKilled()) == Lost(forest)
  {
    PlacesFit(forest, false);
    var (s, marks) := (Places(forest), Marked(forest, false));
    hide Places, Marked;
    forall k | 0 <= k < |s|
      ensures s[k] in Places(forest) && Valid(forest, s[k]) && (marks[k].1 <==> Pruned(forest, s[k]))
      ensures marks[k].0 == BranchAt(forest, s[k])
    {
      assert Fits(forest, false, s[k], marks[k]);
    }
    hide Valid, Pruned, BranchAt;
    assert forall x :: x in Chosen(s, marks, IsRemoved()) <==> x in Doomed(forest);
    assert forall x :: x in Chosen(s, marks, IsKilled()) <==> x in Lost(forest);
  }

  /** The replay removes exactly the branches that are pruned or lie below a pruned one, each once, and kills
      exactly the useful terminals without children among them. */
  lemma RemovesExactly(forest: seq<Branch>)
    ensures Effect(forest).nodes == |Doomed(forest)| && Effect(forest).killed == |Lost(forest)|
    ensures forall a :: a in Doomed(forest) <==> Valid(forest, a) && Pruned(forest, a)
  {
    PlacesFit(forest, false);
    PlacesDistinct(forest);
    CountsAre(Marked(forest, false));
    ChosenAre(forest);
    ChosenCounted(Places(forest), Marked(forest, false), IsRemoved());
    ChosenCounted(Places(forest), Marked(forest, false), IsKilled());
    forall a | Valid(forest, a) ensures a in Places(forest) {
      EveryPlace(forest, a);
    }
    hide Places, Marked, Removed, Killed, HowMany, Chosen, Lost, Valid, Pruned;
  }
}

/** How many numberings of identities there are, and so which the canonicaliser tries. */
module Attempting {
  import opened Grammars
  import opened CanonicalForms

  /** The number of ways to take `k` of `n` things in order. */
  function Arrangements(n: nat, k: nat): nat
    requires k <= n
  {
    if k == 0 then 1 else Arrangements(n, k - 1) * (n - k + 1)
  }

  lemma {:induction false} ArrangementsOfAll(n: nat, k: nat)
    requires k <= n
    ensures Arrangements(n, k) * Factorial(n - k) == Factorial(n)
    decreases k
  {
    if k > 0 {
      ArrangementsOfAll(n, k - 1);
      assert Factorial(n - k + 1) == (n - k + 1) * Factorial(n - k);
      Associates(Arrangements(n, k - 1), n - k + 1, Factorial(n - k));
    }
  }

  lemma Associates(a: nat, b: nat, c: nat)
    ensures (a * b) * c == a * (b * c)
  {}

  function With(m: map<Name, Name>, last: Name, t: Name): map<Name, Name> {
    m[last := t]
  }

  /** One numbering with one more identity, in all ways. */
  function Extended(m: map<Name, Name>, last: Name, free: set<Name>): set<map<Name, Name>> {
    set t | t in free :: With(m, last, t)
  }

  lemma {:induction false} ExtendedSize(m: map<Name, Name>, last: Name, free: set<Name>)
    ensures |Extended(m, last, free)| == |free|
    decreases |free|
  {
    if free != {} {
      var t :| t in free;
      ExtendedSize(m, last, free - {t});
      forall u ensures With(m, last, u)[last] == u {}
      hide With;
      assert With(m, last, t) !in Extended(m, last, free - {t});
      assert Extended(m, last, free) == Extended(m, last, free - {t}) + {With(m, last, t)};
    }
  }

  function AllExtended(ms: set<map<Name, Name>>, last: Name, free: set<Name>): set<map<Name, Name>> {
    set m, t | m in ms && t in free && t !in m.Values :: With(m, last, t)
  }

  lemma ExtendedApart(m: map<Name, Name>, k: map<Name, Name>, last: Name, t: Name, u: Name)
    requires last !in m && last !in k && m != k
    ensures With(m, last, t) != With(k, last, u)
  {
    assert With(m, last, t) - {last} == m && With(k, last, u) - {last} == k;
  }

  function Product(n: nat, each: nat): nat {
    n * each
  }

  lemma OneMore(n: nat, each: nat)
    ensures Product(n + 1, each) == Product(n, each) + each && Product(0, each) == 0
  {}

  /** There are this many ways to number one identity more. */
  ghost predicate Leaves(m: map<Name, Name>, last: Name, free: set<Name>, each: nat) {
    last !in m && |free - m.Values| == each
  }

  lemma NoneExtended(last: Name, free: set<Name>)
    ensures AllExtended({}, last, free) == {}
  {}

  ghost predicate AllLeave(ms: set<map<Name, Name>>, last: Name, free: set<Name>, each: nat) {
    forall m <- ms :: Leaves(m, last, free, each)
  }

  lemma {:induction false} AllExtendedSize(ms: set<map<Name, Name>>, last: Name, free: set<Name>, each: nat)
    requires AllLeave(ms, last, free, each)
    ensures |AllExtended(ms, last, free)| == Product(|ms|, each)
    decreases |ms|
  {
    hide *;
    OneMore(0, each);
    if ms == {} {
      NoneExtended(last, free);
    } else {
      var m :| m in ms;
      TakeOne(ms, m, last, free, each);
      AllExtendedSize(ms - {m}, last, free, each);
      OneMore(|ms - {m}|, each);
    }
  }

  lemma TakeOne(ms: set<map<Name, Name>>, m: map<Name, Name>, last: Name, free: set<Name>, each: nat)
    requires AllLeave(ms, last, free, each) && m in ms
    ensures AllLeave(ms - {m}, last, free, each) && |ms| == |ms - {m}| + 1
    ensures |AllExtended(ms, last, free)| == |AllExtended(ms - {m}, last, free)| + each
  {
    assert Leaves(m, last, free, each);
    ExtendedSplits(ms, m, last, free);
    ExtendedSize(m, last, free - m.Values);
    hide AllExtended, Extended, Leaves;
    SizeOfBoth(AllExtended(ms - {m}, last, free), Extended(m, last, free - m.Values));
  }

  lemma SizeOfBoth<T>(a: set<T>, b: set<T>)
    requires a !! b
    ensures |a + b| == |a| + |b|
  {}

  lemma ExtendedSplits(ms: set<map<Name, Name>>, m: map<Name, Name>, last: Name, free: set<Name>)
    requires m in ms && forall k <- ms :: last !in k
    ensures AllExtended(ms, last, free) == AllExtended(ms - {m}, last, free) + Extended(m, last, free - m.Values)
    ensures AllExtended(ms - {m}, last, free) !! Extended(m, last, free - m.Values)
  {
    hide With;
    forall k, t, u | k in ms - {m} ensures With(m, last, t) != With(k, last, u) {
      ExtendedApart(m, k, last, t, u);
    }
    forall k | k in ms ensures k == m || k in ms - {m} {}
  }

  /** An injective map takes as many values as it has keys. */
  lemma {:induction false} ValuesSize(m: map<Name, Name>)
    requires Injective(m)
    ensures |m.Values| == |m.Keys|
    decreases |m|
  {
    if m.Keys != {} {
      var x :| x in m;
      var k := m - {x};
      assert k.Keys == m.Keys - {x};
      ValuesSize(k);
      forall y | y in m.Values ensures y in k.Values || y == m[x] {
        var z :| z in m && m[z] == y;
        assert z != x ==> z in k && k[z] == y;
      }
      assert m[x] !in k.Values;
      assert m.Values == k.Values + {m[x]};
    } else {
      assert m.Values == {};
    }
  }

  lemma NumberingLeaves(ids: seq<Name>, free: set<Name>, m: map<Name, Name>)
    requires ids != [] && Distinct(ids) && |ids| <= |free| && Numbering(ids[..|ids| - 1], free, m)
    ensures Leaves(m, ids[|ids| - 1], free, |free| - (|ids| - 1))
  {
    ElementsSize(ids[..|ids| - 1]);
    ValuesSize(m);
    assert m.Values <= free;
    assert free == m.Values + (free - m.Values);
  }

  lemma NumberingsExtend(ids: seq<Name>, free: set<Name>)
    requires ids != []
    ensures Numberings(ids, free) == AllExtended(Numberings(ids[..|ids| - 1], free), ids[|ids| - 1], free)
  {
    var n := |ids| - 1;
    forall m, t ensures With(m, ids[n], t) == m[ids[n] := t] {}
  }

  lemma {:induction false} NumberingsSize(ids: seq<Name>, free: set<Name>)
    requires Distinct(ids) && |ids| <= |free|
    ensures |Numberings(ids, free)| == Arrangements(|free|, |ids|)
    decreases |ids|
  {
    if ids != [] {
      hide Numberings;
      var init := ids[..|ids| - 1];
      NumberingsSize(init, free);
      NumberingsGrow(ids, free);
    }
  }

  lemma NumberingsGrow(ids: seq<Name>, free: set<Name>)
    requires ids != [] && Distinct(ids) && |ids| <= |free|
    ensures var n := |ids| - 1;
            |Numberings(ids, free)| == Product(|Numberings(ids[..n], free)|, |free| - n)
  {
    hide Numberings, AllExtended, Leaves, Product, Numbering;
    var n, last := |ids| - 1, ids[|ids| - 1];
    var ms := Numberings(ids[..n], free);
    assert AllLeave(ms, last, free, |free| - n) by {
      forall m | m in ms ensures Leaves(m, last, free, |free| - n) {
        NumberingsAre(ids[..n], free, m);
        NumberingLeaves(ids, free, m);
      }
    }
    AllExtendedSize(ms, last, free, |free| - n);
    NumberingsExtend(ids, free);
  }

  lemma {:induction false} AlphaNamesSize(n: nat)
    ensures |AlphaNames(n)| == n
  {
    if n > 0 {
      AlphaNamesSize(n - 1);
      assert AlphaNames(n) == AlphaNames(n - 1) + {Alpha(n - 1)};
    }
  }

  /** The bound is one on numberings: if there are no more than `maximum` of them, exactly all are tried,
      and otherwise exactly one is. */
  lemma TriesAllOrOne(p: Policy, ids: seq<Name>)
    requires SoundPolicy(p) && Distinct(ids)
    ensures |Numberings(ids, AlphaNames(|ids|))| == Factorial(|ids|)
    ensures forall m :: m in Numberings(ids, AlphaNames(|ids|)) <==> Assignment(Elements(ids), m)
    ensures |Numberings(ids, AlphaNames(|ids|))| <= p.maximum ==>
              forall m :: Tried(p, Elements(ids), m) <==> m in Numberings(ids, AlphaNames(|ids|))
    ensures |Numberings(ids, AlphaNames(|ids|))| > p.maximum ==>
              exists one :: one in Numberings(ids, AlphaNames(|ids|))
                && forall m :: Tried(p, Elements(ids), m) <==> m == one
  {
    AlphaNamesSize(|ids|);
    NumberingsSize(ids, AlphaNames(|ids|));
    ArrangementsOfAll(|ids|, |ids|);
    ElementsSize(ids);
    forall m ensures m in Numberings(ids, AlphaNames(|ids|)) <==> Assignment(Elements(ids), m) {
      NumberingIsAssignment(ids, m);
    }
    assert Assignment(Elements(ids), p.first(Elements(ids)));
    hide Numberings, Assignment, Elements, AlphaNames, Arrangements, Factorial, TotalOrder;
  }
}

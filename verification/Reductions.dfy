/** Reduction schedules: lanes of a block in any order, any assignment of lanes to accumulator banks,
    and a scalar tail. */
module Reductions {
  import opened Lists
  import Unrolling

  datatype Schedule = Schedule(factor: int, accumulatorBanks: int, laneOffsets: seq<int>, laneBanks: seq<int>)

  /** Sorting the offsets gives 0, 1, ..., factor - 1. */
  predicate VisitsEveryLane(offsets: seq<int>, factor: nat) {
    |offsets| == factor && (forall l :: 0 <= l < factor ==> 0 <= offsets[l] < factor)
    && forall l, m :: 0 <= l < m < factor ==> offsets[l] != offsets[m]
  }

  datatype Check = Valid | Invalid(message: string)

  function CheckSchedule(s: Schedule): Check {
    if s.factor < 1 || s.accumulatorBanks < 1 then Invalid("factor and accumulator bank count must be positive")
    else if !VisitsEveryLane(s.laneOffsets, s.factor) then Invalid("schedule must visit every lane exactly once")
    else if |s.laneBanks| != s.factor then Invalid("schedule must assign every lane to an accumulator bank")
    else if exists l :: 0 <= l < |s.laneBanks| && (s.laneBanks[l] < 0 || s.laneBanks[l] >= s.accumulatorBanks) then
      Invalid("schedule references an unavailable accumulator bank")
    else Valid
  }

  function Sum(s: seq<int>): int {
    if s == [] then 0 else Sum(s[..|s| - 1]) + s[|s| - 1]
  }

  predicate InBounds(places: seq<nat>, n: nat) {
    forall k :: 0 <= k < |places| ==> places[k] < n
  }

  /** The sum of the values at the given places. */
  function SumAt(values: seq<int>, places: seq<nat>): int
    requires InBounds(places, |values|)
  {
    if places == [] then 0 else SumAt(values, places[..|places| - 1]) + values[places[|places| - 1]]
  }

  function Upto(n: nat): seq<nat> {
    seq(n, k => k)
  }

  lemma {:induction false} SumUpdate(s: seq<int>, k: nat, v: int)
    requires k < |s|
    ensures Sum(s[k := s[k] + v]) == Sum(s) + v
    decreases |s|
  {
    var t := s[k := s[k] + v];
    if k == |s| - 1 {
      assert t[..|t| - 1] == s[..|s| - 1];
    } else {
      SumUpdate(s[..|s| - 1], k, v);
      assert t[..|t| - 1] == s[..|s| - 1][k := s[k] + v];
    }
  }

  lemma {:induction false} SumWithout(values: seq<int>, q: seq<nat>, j: nat)
    requires InBounds(q, |values|) && j < |q|
    ensures InBounds(Without(q, j), |values|) && SumAt(values, q) == SumAt(values, Without(q, j)) + values[q[j]]
    decreases |q|
  {
    var t := Without(q, j);
    var init := q[..|q| - 1];
    if j == |q| - 1 {
      assert t == init;
    } else {
      SumWithout(values, init, j);
      assert t[..|t| - 1] == init[..j] + init[j + 1..];
    }
  }

  lemma FindLast(p: seq<nat>, q: seq<nat>) returns (j: nat)
    requires multiset(p) == multiset(q) && p != []
    ensures j < |q| && q[j] == p[|p| - 1]
  {
    assert p[|p| - 1] in multiset(p);
    assert p[|p| - 1] in multiset(q);
    j :| 0 <= j < |q| && q[j] == p[|p| - 1];
  }

  /** A sum does not depend on the order: the same places with the same repetitions give the same. */
  lemma {:induction false} SumOfPlaces(values: seq<int>, p: seq<nat>, q: seq<nat>)
    requires multiset(p) == multiset(q) && InBounds(p, |values|) && InBounds(q, |values|)
    ensures SumAt(values, p) == SumAt(values, q)
    decreases |p|
  {
    if p == [] {
      assert |multiset(q)| == 0;
    } else {
      var j := FindLast(p, q);
      RemoveOne(q, j);
      RemoveOne(p, |p| - 1);
      assert Without(p, |p| - 1) == p[..|p| - 1];
      SumWithout(values, q, j);
      hide Without;
      SumOfPlaces(values, p[..|p| - 1], Without(q, j));
    }
  }

  lemma {:induction false} SumOfAll(values: seq<int>, n: nat)
    requires n <= |values|
    ensures SumAt(values, Upto(n)) == Sum(values[..n])
  {
    if n > 0 {
      SumOfAll(values, n - 1);
      assert Upto(n)[..n - 1] == Upto(n - 1);
      assert values[..n][..n - 1] == values[..n - 1];
    }
  }

  lemma VisitedInBounds(visited: seq<nat>, n: nat)
    requires multiset(visited) == multiset(Upto(n))
    ensures InBounds(visited, n) && |visited| == n
  {
    assert |multiset(visited)| == |visited| && |multiset(Upto(n))| == n;
    forall k | 0 <= k < |visited| ensures visited[k] < n {
      assert visited[k] in multiset(Upto(n));
    }
  }

  /** The lanes of one block are its indices in some order. */
  lemma {:induction false} LanesOfBlock(offsets: seq<int>, factor: nat, places: seq<nat>, base: nat)
    requires VisitsEveryLane(offsets, factor) && |places| == factor
    requires forall l :: 0 <= l < factor ==> places[l] == base + offsets[l]
    ensures multiset(places) == multiset(seq(factor, l => base + l))
  {
    var block := seq(factor, l => base + l);
    DistinctCover(offsets, factor);
    forall x: nat ensures multiset(places)[x] == multiset(block)[x] {
      CountOne(places, x);
      CountOne(block, x);
      if x in block {
        var l :| 0 <= l < factor && block[l] == x;
        assert l in offsets;
        var m :| 0 <= m < factor && offsets[m] == l;
        assert places[m] == x;
      }
      if x in places {
        var m :| 0 <= m < factor && places[m] == x;
        assert block[offsets[m]] == x;
      }
    }
  }

  lemma {:induction false} CountOne(s: seq<nat>, x: nat)
    requires forall l, m :: 0 <= l < m < |s| ==> s[l] != s[m]
    ensures multiset(s)[x] == if x in s then 1 else 0
    decreases |s|
  {
    if s != [] {
      var init := s[..|s| - 1];
      CountOne(init, x);
      assert s == init + [s[|s| - 1]];
    }
  }

  /** As many distinct offsets below `factor` as there are numbers below it leave none out. */
  lemma {:induction false} DistinctCover(offsets: seq<int>, factor: nat)
    requires VisitsEveryLane(offsets, factor)
    ensures forall l :: 0 <= l < factor ==> l in offsets
  {
    var all := Range(factor);
    var seen := set l | 0 <= l < |offsets| :: offsets[l];
    SizeOfImage(offsets);
    assert seen <= all;
    if seen != all {
      SubsetSize(seen, all);
    }
    forall l | 0 <= l < factor ensures l in offsets {
      assert l in all;
    }
  }

  lemma {:induction false} SubsetSize(s: set<int>, t: set<int>)
    requires s < t
    ensures |s| < |t|
  {
    var d := t - s;
    assert t == s + d && s !! d && d != {};
  }

  function Range(n: nat): (r: set<int>)
    ensures |r| == n && forall l :: l in r <==> 0 <= l < n
  {
    if n == 0 then {} else Range(n - 1) + {n - 1}
  }

  lemma {:induction false} SizeOfImage(s: seq<int>)
    requires forall l, m :: 0 <= l < m < |s| ==> s[l] != s[m]
    ensures |set l | 0 <= l < |s| :: s[l]| == |s|
    decreases |s|
  {
    if s != [] {
      var init := s[..|s| - 1];
      SizeOfImage(init);
      assert (set l | 0 <= l < |s| :: s[l]) == (set l | 0 <= l < |init| :: init[l]) + {s[|s| - 1]};
    }
  }

  /** The reduction a schedule stands for, on any length: blocks of lanes into their banks, then the
      tail into bank 0. Every index is visited exactly once and the banks add up to the plain sum. */
  method Reduce(s: Schedule, values: seq<int>) returns (visited: seq<nat>, banks: seq<int>)
    requires CheckSchedule(s).Valid?
    ensures multiset(visited) == multiset(Upto(|values|))
    ensures |banks| == s.accumulatorBanks && Sum(banks) == Sum(values)
  {
    visited := [];
    var size := |values|;
    var full := size / s.factor * s.factor;
    WholeBlocks(size, s.factor);
    var base := 0;
    ghost var blocks := 0;
    assert Upto(0) == [];
    hide CheckSchedule;
    while base < full
      invariant base == blocks * s.factor <= full && multiset(visited) == multiset(Upto(base))
      decreases full - base
    {
      NextBlock(size / s.factor, blocks, s.factor);
      visited := VisitBlock(s, base, visited);
      blocks := blocks + 1;
      base := base + s.factor;
    }
    while base < size
      invariant full <= base <= size && multiset(visited) == multiset(Upto(base))
    {
      visited := visited + [base];
      assert Upto(base + 1) == Upto(base) + [base];
      base := base + 1;
    }
    VisitedInBounds(visited, size);
    banks := Accumulate(s, values, visited, full);
    SumOfPlaces(values, visited, Upto(size));
    SumOfAll(values, size);
    assert values[..size] == values;
  }

  lemma WholeBlocks(n: nat, f: nat)
    requires f >= 1
    ensures 0 <= n / f * f <= n
  {
    assert n == n / f * f + n % f;
  }

  /** A block that starts before the end of the whole blocks ends before it. */
  lemma NextBlock(q: nat, k: nat, f: nat)
    requires k * f < q * f
    ensures k * f + f == (k + 1) * f <= q * f
  {
    if k >= q {
      Unrolling.Monotone(q, k, f);
    } else {
      Unrolling.Monotone(k + 1, q, f);
    }
  }

  method VisitBlock(s: Schedule, base: nat, before: seq<nat>) returns (visited: seq<nat>)
    requires CheckSchedule(s).Valid? && multiset(before) == multiset(Upto(base))
    ensures multiset(visited) == multiset(Upto(base + s.factor))
  {
    visited := before;
    var places: seq<nat> := [];
    for lane := 0 to s.factor
      invariant visited == before + places && |places| == lane
      invariant forall l :: 0 <= l < lane ==> places[l] == base + s.laneOffsets[l]
    {
      places := places + [base + s.laneOffsets[lane]];
      visited := visited + [base + s.laneOffsets[lane]];
    }
    LanesOfBlock(s.laneOffsets, s.factor, places, base);
    assert Upto(base + s.factor) == Upto(base) + seq(s.factor, l => base + l);
  }

  method Accumulate(s: Schedule, values: seq<int>, visited: seq<nat>, full: nat) returns (banks: seq<int>)
    requires CheckSchedule(s).Valid? && InBounds(visited, |values|)
    ensures |banks| == s.accumulatorBanks && Sum(banks) == SumAt(values, visited)
  {
    banks := Zeros(s.accumulatorBanks);
    for ordinal := 0 to |visited|
      invariant |banks| == s.accumulatorBanks && Sum(banks) == SumAt(values, visited[..ordinal])
    {
      var bank := if ordinal < full then s.laneBanks[ordinal % s.factor] else 0;
      SumUpdate(banks, bank, values[visited[ordinal]]);
      banks := banks[bank := banks[bank] + values[visited[ordinal]]];
      assert visited[..ordinal + 1][..ordinal] == visited[..ordinal];
    }
    assert visited[..|visited|] == visited;
  }

  function Zeros(n: nat): (z: seq<int>)
    ensures |z| == n && Sum(z) == 0
  {
    if n == 0 then []
    else
      var z := Zeros(n - 1);
      assert (z + [0])[..n - 1] == z;
      z + [0]
  }
}

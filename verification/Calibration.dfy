/** Choosing a pruning threshold from labelled rows, and counting what pruning removes from a forest. */
module Calibration {
  import opened Lists

  datatype Row = Row(score: real, positive: bool)

  // ---------- the threshold ----------

  function MissedBy(threshold: real): Row -> bool {
    (r: Row) => r.positive && r.score <= threshold
  }

  /** How many positives score at or below a threshold. */
  function Misses(rows: seq<Row>, threshold: real): nat {
    multiset(Mapped(MissedBy(threshold), rows))[true]
  }

  lemma MissesOfPermutation(rows: seq<Row>, others: seq<Row>, threshold: real)
    requires multiset(rows) == multiset(others)
    ensures Misses(rows, threshold) == Misses(others, threshold)
  {
    MappedMultiset(MissedBy(threshold), rows, others);
  }

  lemma MissesAppend(rows: seq<Row>, r: Row, threshold: real)
    ensures Misses(rows + [r], threshold) ==
        Misses(rows, threshold) + (if r.positive && r.score <= threshold then 1 else 0)
  {
    MappedLast(MissedBy(threshold), rows + [r]);
    assert (rows + [r])[..|rows|] == rows;
  }

  /** The places of the positives that score at or below a threshold. */
  function MissedPlaces(rows: seq<Row>, threshold: real): set<nat> {
    set k: nat | 0 <= k < |rows| && rows[k].positive && rows[k].score <= threshold
  }

  lemma {:induction false} MissesCountPlaces(rows: seq<Row>, threshold: real)
    ensures Misses(rows, threshold) == |MissedPlaces(rows, threshold)|
    decreases |rows|
  {
    if rows == [] {
      assert MissedPlaces(rows, threshold) == {};
    } else {
      var n: nat := |rows| - 1;
      MissesCountPlaces(rows[..n], threshold);
      assert rows == rows[..n] + [rows[n]];
      MissesAppend(rows[..n], rows[n], threshold);
      var before := MissedPlaces(rows[..n], threshold);
      assert n !in before;
      if rows[n].positive && rows[n].score <= threshold {
        assert MissedPlaces(rows, threshold) == before + {n};
      } else {
        assert MissedPlaces(rows, threshold) == before;
      }
    }
  }

  lemma {:induction false} MissesGrow(rows: seq<Row>, low: real, high: real)
    requires low <= high
    ensures Misses(rows, low) <= Misses(rows, high)
    decreases |rows|
  {
    if rows != [] {
      var init := rows[..|rows| - 1];
      MissesGrow(init, low, high);
      assert rows == init + [rows[|rows| - 1]];
      MissesAppend(init, rows[|rows| - 1], low);
      MissesAppend(init, rows[|rows| - 1], high);
    }
  }

  predicate Sorted(rows: seq<Row>) {
    forall i, j :: 0 <= i < j < |rows| ==> rows[i].score <= rows[j].score
  }

  lemma InsertSorted(sorted: seq<Row>, at: nat, r: Row)
    requires Sorted(sorted) && at <= |sorted| && (at > 0 ==> sorted[at - 1].score <= r.score)
    requires forall k :: at <= k < |sorted| ==> r.score < sorted[k].score
    ensures Sorted(sorted[..at] + [r] + sorted[at..])
  {
    var after := sorted[..at] + [r] + sorted[at..];
    forall i, j | 0 <= i < j < |after| ensures after[i].score <= after[j].score {
      assert after[i] == if i < at then sorted[i] else if i == at then r else sorted[i - 1];
      assert after[j] == if j < at then sorted[j] else if j == at then r else sorted[j - 1];
    }
  }

  lemma InsertMultiset(sorted: seq<Row>, at: nat, r: Row)
    requires at <= |sorted|
    ensures multiset(sorted[..at] + [r] + sorted[at..]) == multiset(sorted) + multiset{r}
  {
    assert sorted == sorted[..at] + sorted[at..];
  }

  lemma NextRow(rows: seq<Row>, i: nat)
    requires i < |rows|
    ensures multiset(rows[..i + 1]) == multiset(rows[..i]) + multiset{rows[i]}
  {
    assert rows[..i + 1] == rows[..i] + [rows[i]];
  }

  method Insert(sorted: seq<Row>, r: Row) returns (after: seq<Row>)
    requires Sorted(sorted)
    ensures Sorted(after) && multiset(after) == multiset(sorted) + multiset{r}
  {
    var at := |sorted|;
    while at > 0 && sorted[at - 1].score > r.score
      invariant 0 <= at <= |sorted| && forall k :: at <= k < |sorted| ==> r.score < sorted[k].score
    {
      at := at - 1;
    }
    InsertSorted(sorted, at, r);
    InsertMultiset(sorted, at, r);
    after := sorted[..at] + [r] + sorted[at..];
  }

  method Sort(rows: seq<Row>) returns (sorted: seq<Row>)
    ensures Sorted(sorted) && multiset(sorted) == multiset(rows)
  {
    hide Sorted;
    assert Sorted([]) by { NoneSorted(); }
    sorted := [];
    for i := 0 to |rows|
      invariant Sorted(sorted) && multiset(sorted) == multiset(rows[..i])
    {
      NextRow(rows, i);
      sorted := Insert(sorted, rows[i]);
    }
    assert rows[..|rows|] == rows;
  }

  lemma NoneSorted()
    ensures Sorted([])
  {}

  /** The rows before `n` are whole groups of equal scores. */
  predicate Boundary(rows: seq<Row>, n: nat) {
    n <= |rows| && forall i, j :: 0 <= i < n <= j < |rows| ==> rows[i].score < rows[j].score
  }

  lemma {:induction false} NoneBelow(rows: seq<Row>, threshold: real)
    requires forall i :: 0 <= i < |rows| ==> rows[i].score > threshold
    ensures Misses(rows, threshold) == 0
    decreases |rows|
  {
    if rows != [] {
      var init := rows[..|rows| - 1];
      NoneBelow(init, threshold);
      assert rows == init + [rows[|rows| - 1]];
      MissesAppend(init, rows[|rows| - 1], threshold);
    }
  }

  /** At a boundary, the last score in front counts exactly the rows in front. */
  lemma {:induction false} BoundaryMisses(rows: seq<Row>, n: nat, m: nat, threshold: real)
    requires n <= m <= |rows| && forall j :: n <= j < |rows| ==> rows[j].score > threshold
    ensures Misses(rows[..m], threshold) == Misses(rows[..n], threshold)
    decreases m
  {
    if n < m {
      BoundaryMisses(rows, n, m - 1, threshold);
      assert rows[..m] == rows[..m - 1] + [rows[m - 1]];
      MissesAppend(rows[..m - 1], rows[m - 1], threshold);
    }
  }

  function Positives(rows: seq<Row>): nat {
    if rows == [] then 0 else Positives(rows[..|rows| - 1]) + (if rows[|rows| - 1].positive then 1 else 0)
  }

  lemma {:induction false} AllMissed(rows: seq<Row>, threshold: real)
    requires forall i :: 0 <= i < |rows| ==> rows[i].score <= threshold
    ensures Misses(rows, threshold) == Positives(rows)
    decreases |rows|
  {
    if rows != [] {
      var init := rows[..|rows| - 1];
      AllMissed(init, threshold);
      assert rows == init + [rows[|rows| - 1]];
      MissesAppend(init, rows[|rows| - 1], threshold);
    }
  }

  lemma PositivesUpTo(rows: seq<Row>, n: nat)
    requires Sorted(rows) && Boundary(rows, n) && n > 0
    ensures Misses(rows, rows[n - 1].score) == Positives(rows[..n])
  {
    BoundaryMisses(rows, n, |rows|, rows[n - 1].score);
    assert rows[..|rows|] == rows;
    AllMissed(rows[..n], rows[n - 1].score);
  }

  /** The end of the group of equal scores that starts at `n`, and its positives. */
  method GroupAt(rows: seq<Row>, n: nat) returns (m: nat, groupMisses: nat)
    requires Sorted(rows) && n < |rows| && Boundary(rows, n)
    ensures n < m <= |rows| && Boundary(rows, m) && rows[m - 1].score == rows[n].score
    ensures Positives(rows[..m]) == Positives(rows[..n]) + groupMisses
  {
    m, groupMisses := n, 0;
    while m < |rows| && rows[m].score == rows[n].score
      invariant n <= m <= |rows| && (m > n ==> rows[m - 1].score == rows[n].score)
      invariant forall k :: n <= k < m ==> rows[k].score == rows[n].score
      invariant Positives(rows[..m]) == Positives(rows[..n]) + groupMisses
    {
      assert rows[..m + 1][..m] == rows[..m];
      groupMisses := groupMisses + (if rows[m].positive then 1 else 0);
      m := m + 1;
    }
  }

  /** Past a boundary whose group would miss too many, every threshold does. */
  lemma NextGroupExceeds(labeled: seq<Row>, rows: seq<Row>, n: nat, m: nat, allowed: nat, r: Row)
    requires multiset(rows) == multiset(labeled) && Sorted(rows) && n < m <= |rows| && Boundary(rows, n)
        && Boundary(rows, m)
    requires rows[m - 1].score == rows[n].score && Positives(rows[..m]) > allowed
    requires r in labeled && (n > 0 ==> r.score > rows[n - 1].score)
    ensures Misses(labeled, r.score) > allowed
  {
    assert r in multiset(labeled);
    assert r in multiset(rows);
    var k :| 0 <= k < |rows| && rows[k] == r;
    assert k >= n;
    MissesOfPermutation(labeled, rows, r.score);
    PositivesUpTo(rows, m);
    MissesGrow(rows, rows[m - 1].score, r.score);
  }

  /** What a boundary of the sorted rows says about the labelled ones. */
  lemma MissesAt(labeled: seq<Row>, rows: seq<Row>, n: nat, full: real)
    requires multiset(rows) == multiset(labeled) && Sorted(rows) && Boundary(rows, n)
    requires full == if n > 0 then rows[n - 1].score else if |rows| > 0 then rows[0].score - 1.0 else -1.0
    ensures Misses(labeled, full) == Positives(rows[..n])
    ensures n == |rows| ==> forall r :: r in labeled ==> r.score <= full
  {
    MissesOfPermutation(labeled, rows, full);
    if n > 0 {
      PositivesUpTo(rows, n);
    } else {
      NoneBelow(rows, full);
    }
    forall r | r in labeled ensures exists k :: 0 <= k < |rows| && rows[k] == r {
      assert r in multiset(labeled);
      assert r in multiset(rows);
    }
  }

  function Lesser(a: real, b: real): real {
    if b < a then b else a
  }

  /** Some row scores no more than this. */
  ghost predicate Accepts(labeled: seq<Row>, full: real) {
    exists r :: r in labeled && r.score <= full
  }

  /** Where the full threshold lies: at the score of the last accepted row, and one below all scores when
      none is accepted. */
  lemma FullIsAScore(labeled: seq<Row>, rows: seq<Row>, n: nat, full: real)
    requires multiset(rows) == multiset(labeled) && Sorted(rows) && n <= |rows|
    requires full == if n > 0 then rows[n - 1].score else if |rows| > 0 then rows[0].score - 1.0 else -1.0
    ensures Accepts(labeled, full) <==> n > 0
    ensures n > 0 ==> exists r :: r in labeled && r.score == full
    ensures labeled == [] <==> rows == []
    ensures n == 0 && labeled != [] ==>
              (exists r :: r in labeled && r.score == full + 1.0) && forall r :: r in labeled ==> r.score >= full + 1.0
  {
    assert |multiset(rows)| == |multiset(labeled)|;
    forall r ensures r in labeled <==> r in rows {
      assert r in labeled <==> r in multiset(rows);
    }
    if n > 0 {
      assert rows[n - 1] in rows;
    } else if rows != [] {
      assert rows[0] in rows;
      forall r | r in rows ensures r.score >= rows[0].score {
        var k :| 0 <= k < |rows| && rows[k] == r;
      }
    }
  }

  /** The threshold accepts whole groups of equal scores while their positives stay within what is
      allowed: it never misses more, and the next group would. `shrink` is the quantile of the
      accepted scores the threshold may be lowered to. */
  method RiskThreshold(labeled: seq<Row>, allowed: nat, shrink: real) returns (threshold: real, full: real, misses: nat)
    ensures threshold <= full && Misses(labeled, threshold) <= allowed
    ensures misses == Misses(labeled, full) <= allowed
    ensures forall r :: r in labeled && r.score > full ==> Misses(labeled, r.score) > allowed
    ensures if Accepts(labeled, full)
            then threshold == Lesser(full, shrink) && exists r :: r in labeled && r.score == full
            else threshold == full && (labeled == [] ==> full == -1.0)
    ensures labeled != [] && !Accepts(labeled, full) ==>
              (exists r :: r in labeled && r.score == full + 1.0) && forall r :: r in labeled ==> r.score >= full + 1.0
  {
    var rows := Sort(labeled);
    var n := 0;
    misses := 0;
    ghost var m := 0;
    hide Boundary, Misses, Sorted;
    assert Boundary(rows, 0) by { Start(rows); }
    while n < |rows|
      invariant n <= |rows| && Boundary(rows, n) && misses == Positives(rows[..n]) <= allowed
      decreases |rows| - n
    {
      var next, groupMisses := GroupAt(rows, n);
      m := next;
      if misses + groupMisses > allowed {
        break;
      }
      n, misses := next, misses + groupMisses;
    }
    full := if n > 0 then rows[n - 1].score else if |rows| > 0 then rows[0].score - 1.0 else -1.0;
    MissesAt(labeled, rows, n, full);
    forall r | r in labeled && r.score > full ensures Misses(labeled, r.score) > allowed {
      NextGroupExceeds(labeled, rows, n, m, allowed, r);
    }
    threshold := if n > 0 && shrink < full then shrink else full;
    MissesGrow(labeled, threshold, full);
    FullIsAScore(labeled, rows, n, full);
  }

  lemma Start(rows: seq<Row>)
    ensures Boundary(rows, 0)
  {
  }

  // ---------- replaying the decisions on a forest ----------

  /** A branch with its decision, its own work, whether it is a useful terminal if it has no children,
      and its children. */
  datatype Branch = Branch(prune: bool, work: real, target: bool, children: seq<Branch>)

  /** All branches of a forest, each with whether it or one above it is pruned. */
  function Marked(forest: seq<Branch>, above: bool): seq<(Branch, bool)> {
    if forest == [] then []
    else
      var b, rest := forest[|forest| - 1], forest[..|forest| - 1];
      Marked(rest, above) + [(b, above || b.prune)] + Marked(b.children, above || b.prune)
  }

  function Removed(s: seq<(Branch, bool)>): nat {
    if s == [] then 0 else Removed(s[..|s| - 1]) + (if s[|s| - 1].1 then 1 else 0)
  }

  function RemovedWork(s: seq<(Branch, bool)>): real {
    if s == [] then 0.0 else RemovedWork(s[..|s| - 1]) + (if s[|s| - 1].1 then s[|s| - 1].0.work else 0.0)
  }

  predicate UsefulTerminal(b: Branch) {
    b.target && b.children == []
  }

  function Killed(s: seq<(Branch, bool)>): nat {
    if s == [] then 0 else Killed(s[..|s| - 1]) + (if s[|s| - 1].1 && UsefulTerminal(s[|s| - 1].0) then 1 else 0)
  }

  lemma {:induction false} CountsAppend(s: seq<(Branch, bool)>, t: seq<(Branch, bool)>)
    ensures Removed(s + t) == Removed(s) + Removed(t) && Killed(s + t) == Killed(s) + Killed(t)
    ensures RemovedWork(s + t) == RemovedWork(s) + RemovedWork(t)
    decreases |t|
  {
    if t == [] {
      assert s + t == s;
    } else {
      CountsAppend(s, t[..|t| - 1]);
      assert (s + t)[..|s + t| - 1] == s + t[..|t| - 1];
    }
  }

  /** All branches of a forest. */
  function Descendants(forest: seq<Branch>): seq<Branch> {
    if forest == [] then []
    else
      var b, rest := forest[|forest| - 1], forest[..|forest| - 1];
      Descendants(rest) + [b] + Descendants(b.children)
  }

  function Work(s: seq<Branch>): real {
    if s == [] then 0.0 else Work(s[..|s| - 1]) + s[|s| - 1].work
  }

  function Terminals(s: seq<Branch>): nat {
    if s == [] then 0 else Terminals(s[..|s| - 1]) + (if UsefulTerminal(s[|s| - 1]) then 1 else 0)
  }

  lemma {:induction false} WorkAppend(s: seq<Branch>, t: seq<Branch>)
    ensures Work(s + t) == Work(s) + Work(t) && Terminals(s + t) == Terminals(s) + Terminals(t)
    decreases |t|
  {
    if t == [] {
      assert s + t == s;
    } else {
      WorkAppend(s, t[..|t| - 1]);
      assert (s + t)[..|s + t| - 1] == s + t[..|t| - 1];
    }
  }

  lemma {:induction false} ForestAppend(f: seq<Branch>, h: seq<Branch>, above: bool)
    ensures Marked(f + h, above) == Marked(f, above) + Marked(h, above)
    decreases |h|
  {
    if h == [] {
      assert f + h == f;
    } else {
      var b, rest := h[|h| - 1], h[..|h| - 1];
      ForestAppend(f, rest, above);
      assert (f + h)[..|f + h| - 1] == f + rest && (f + h)[|f + h| - 1] == b;
      Regroup(Marked(f, above), Marked(rest, above), [(b, above || b.prune)], Marked(b.children, above || b.prune));
    }
  }

  lemma Regroup<T>(a: seq<T>, b: seq<T>, c: seq<T>, d: seq<T>)
    ensures a + b + c + d == a + (b + c + d)
  {
  }

  lemma DescendantsLast(f: seq<Branch>)
    requires f != []
    ensures |Descendants(f)| == |Descendants(f[..|f| - 1])| + |Descendants([f[|f| - 1]])|
  {
    assert [f[|f| - 1]][..0] == [];
  }

  lemma {:induction false} SizeAppend(f: seq<Branch>, h: seq<Branch>)
    ensures |Descendants(f + h)| == |Descendants(f)| + |Descendants(h)|
    decreases |h|
  {
    if h == [] {
      assert f + h == f;
    } else {
      SizeAppend(f, h[..|h| - 1]);
      DescendantsLast(h);
      DescendantsLast(f + h);
      hide Descendants;
      assert (f + h)[..|f + h| - 1] == f + h[..|h| - 1];
    }
  }

  /** Under a pruned branch everything is removed. */
  lemma {:induction false} AllRemoved(f: seq<Branch>)
    ensures Removed(Marked(f, true)) == |Descendants(f)|
    ensures RemovedWork(Marked(f, true)) == Work(Descendants(f)) && Killed(Marked(f, true)) == Terminals(Descendants(f))
    decreases f
  {
    if f != [] {
      var b, rest := f[|f| - 1], f[..|f| - 1];
      AllRemoved(rest);
      AllRemoved(b.children);
      OneMarked(b, true);
      CountsAppend(Marked(rest, true), [(b, true)]);
      CountsAppend(Marked(rest, true) + [(b, true)], Marked(b.children, true));
      OneBranch(b);
      WorkAppend(Descendants(rest), [b]);
      WorkAppend(Descendants(rest) + [b], Descendants(b.children));
    }
  }

  lemma OneMarked(b: Branch, mark: bool)
    ensures Removed([(b, mark)]) == (if mark then 1 else 0)
        && RemovedWork([(b, mark)]) == (if mark then b.work else 0.0)
    ensures Killed([(b, mark)]) == if mark && UsefulTerminal(b) then 1 else 0
  {
    assert [(b, mark)][..0] == [];
  }

  lemma OneBranch(b: Branch)
    ensures Work([b]) == b.work && Terminals([b]) == if UsefulTerminal(b) then 1 else 0
  {
    assert [b][..0] == [];
  }

  datatype Tally = Tally(nodes: nat, work: real, killed: nat)

  /** What pruning removes from a forest: every branch that is pruned or below a pruned one, once. */
  function Effect(forest: seq<Branch>): Tally {
    var marked := Marked(forest, false);
    Tally(Removed(marked), RemovedWork(marked), Killed(marked))
  }

  function Sum(a: Tally, b: Tally): Tally {
    Tally(a.nodes + b.nodes, a.work + b.work, a.killed + b.killed)
  }

  lemma OneTop(b: Branch)
    ensures Marked([b], false) == [(b, b.prune)] + Marked(b.children, b.prune)
    ensures |Descendants([b])| == 1 + |Descendants(b.children)|
    ensures b.prune ==> Marked([b], true) == Marked([b], false)
  {
    assert [b][..0] == [];
  }

  lemma TopSizes(rest: seq<Branch>, b: Branch)
    ensures |Descendants(rest + b.children)| < |Descendants(rest + [b])|
        && |Descendants(rest)| < |Descendants(rest + [b])|
  {
    SizeAppend(rest, [b]);
    SizeAppend(rest, b.children);
    OneTop(b);
  }

  lemma EffectOfTop(rest: seq<Branch>, b: Branch)
    ensures b.prune ==>
        Effect(rest + [b]) == Sum(Effect(rest),
        Tally(|Descendants([b])|, Work(Descendants([b])), Terminals(Descendants([b]))))
    ensures !b.prune ==> Effect(rest + [b]) == Effect(rest + b.children)
  {
    hide Marked, Removed, RemovedWork, Killed, Descendants, Work, Terminals, UsefulTerminal;
    ForestAppend(rest, [b], false);
    ForestAppend(rest, b.children, false);
    CountsAppend(Marked(rest, false), Marked([b], false));
    CountsAppend(Marked(rest, false), Marked(b.children, false));
    OneTop(b);
    CountsAppend([(b, b.prune)], Marked(b.children, b.prune));
    OneMarked(b, b.prune);
    if b.prune {
      AllRemoved([b]);
    }
  }

  /** The online replay: a stack of branches to look at, a pruned one removed with all below it. */
  method OnlineReplay(forest: seq<Branch>) returns (avoided: Tally)
    ensures avoided == Effect(forest)
  {
    avoided := Tally(0, 0.0, 0);
    var stack := forest;
    while stack != []
      invariant Sum(avoided, Effect(stack)) == Effect(forest)
      decreases |Descendants(stack)|
    {
      var b, rest := stack[|stack| - 1], stack[..|stack| - 1];
      assert stack == rest + [b];
      EffectOfTop(rest, b);
      TopSizes(rest, b);
      hide Effect, Descendants, Work, Terminals;
      if b.prune {
        var removed := Descendants([b]);
        avoided := Sum(avoided, Tally(|removed|, Work(removed), Terminals(removed)));
        stack := rest;
      } else {
        stack := rest + b.children;
      }
    }
  }
}

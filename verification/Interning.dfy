/** What a transposition table holds after any series of atomic interns, whatever their order. */
module Interning {
  import opened Actions
  import opened Grammars
  import opened Exploration
  import opened Table

  /** One call of intern. */
  datatype Discovery<+S> = Discovery(state: LazyState<S>, depth: nat, path: seq<Action>, edge: nat)

  /** `smaller` compares the encodings of paths: a strict total order. */
  ghost predicate StrictOrder(smaller: (seq<Action>, seq<Action>) -> bool) {
    && (forall p :: !smaller(p, p))
    && (forall p, q, r {:trigger smaller(p, q), smaller(q, r)} :: smaller(p, q) && smaller(q, r) ==> smaller(p, r))
    && (forall p, q :: p != q ==> smaller(p, q) || smaller(q, p))
  }

  /** The discoveries of one canonical form. */
  ghost function OfForm<S(!new), K(!new)>(g: Grammar<S, K>, ds: set<Discovery<S>>, k: K): set<Discovery<S>> {
    set d | d in ds && Canon(g, d.state) == k
  }

  ghost predicate HasDepth<S(!new)>(ds: set<Discovery<S>>, depth: nat) {
    exists d :: d in ds && d.depth == depth
  }

  ghost predicate HasPath<S(!new)>(ds: set<Discovery<S>>, path: seq<Action>) {
    exists d :: d in ds && d.path == path
  }

  ghost predicate HasEdge<S(!new)>(ds: set<Discovery<S>>, edge: nat) {
    exists d :: d in ds && d.edge == edge
  }

  ghost predicate DepthsSum<S(!new)>(node: Node<S>, ds: set<Discovery<S>>) {
    && (forall d <- ds :: node.depthMinimum <= d.depth <= node.depthMaximum)
    && HasDepth(ds, node.depthMinimum) && HasDepth(ds, node.depthMaximum)
  }

  ghost predicate PathsSum<S(!new)>(smaller: (seq<Action>, seq<Action>) -> bool, node: Node<S>, ds: set<Discovery<S>>) {
    (forall d <- ds :: !smaller(d.path, node.path)) && HasPath(ds, node.path)
  }

  ghost predicate EdgesSum<S(!new)>(node: Node<S>, ds: set<Discovery<S>>) {
    && (forall e :: e in node.parents <==> HasEdge(ds, e))
    && (forall i, j :: 0 <= i < j < |node.parents| ==> node.parents[i] != node.parents[j])
  }

  /** A record that says what its discoveries say: the extreme depths, the least path, and each edge
      once. */
  ghost predicate Sums<S(!new)>(smaller: (seq<Action>, seq<Action>) -> bool, node: Node<S>, ds: set<Discovery<S>>) {
    DepthsSum(node, ds) && PathsSum(smaller, node, ds) && EdgesSum(node, ds)
  }

  ghost predicate Holds<S(!new), K(!new)>(
      g: Grammar<S, K>, smaller: (seq<Action>, seq<Action>) -> bool, view: map<K, Node<S>>, ds: set<Discovery<S>>)
  {
    && (forall d <- ds :: Canon(g, d.state) in view)
    && (forall k <- view :: Sums(smaller, view[k], OfForm(g, ds, k)))
  }

  // ---------- one intern ----------

  lemma MergeDepths<S(!new)>(smaller: (seq<Action>, seq<Action>) -> bool, node: Node<S>, ds: set<Discovery<S>>,
        d: Discovery<S>)
    requires DepthsSum(node, ds)
    ensures DepthsSum(Merged(smaller, node, d.depth, d.path, d.edge), ds + {d})
  {
    var all := ds + {d};
    assert d in all;
    var low :| low in ds && low.depth == node.depthMinimum;
    var high :| high in ds && high.depth == node.depthMaximum;
    assert low in all && high in all;
  }

  lemma MergePaths<S(!new)>(smaller: (seq<Action>, seq<Action>) -> bool, node: Node<S>, ds: set<Discovery<S>>,
        d: Discovery<S>)
    requires StrictOrder(smaller) && PathsSum(smaller, node, ds)
    ensures PathsSum(smaller, Merged(smaller, node, d.depth, d.path, d.edge), ds + {d})
  {
    var all := ds + {d};
    assert d in all;
    var least :| least in ds && least.path == node.path;
    assert least in all;
  }

  lemma MergeEdges<S(!new)>(smaller: (seq<Action>, seq<Action>) -> bool, node: Node<S>, ds: set<Discovery<S>>,
        d: Discovery<S>)
    requires EdgesSum(node, ds)
    ensures EdgesSum(Merged(smaller, node, d.depth, d.path, d.edge), ds + {d})
  {
    var after, all := Merged(smaller, node, d.depth, d.path, d.edge), ds + {d};
    forall e ensures e in after.parents <==> HasEdge(all, e) {
      assert d in all;
      assert e in after.parents <==> e in node.parents || e == d.edge;
      if HasEdge(ds, e) {
        var x :| x in ds && x.edge == e;
        assert x in all;
      }
    }
  }

  lemma InternHolds<S(!new), K(!new)>(
      g: Grammar<S, K>, smaller: (seq<Action>,
        seq<Action>) -> bool, view: map<K, Node<S>>, ds: set<Discovery<S>>, d: Discovery<S>)
    requires StrictOrder(smaller) && Holds(g, smaller, view, ds)
    ensures Holds(g, smaller, Interned(g, smaller, view, d.state, d.depth, d.path, d.edge).0, ds + {d})
  {
    hide StrictOrder, DepthsSum, PathsSum, EdgesSum;
    var after, all := Interned(g, smaller, view, d.state, d.depth, d.path, d.edge).0, ds + {d};
    forall k | k in after ensures Sums(smaller, after[k], OfForm(g, all, k)) {
      if k != Canon(g, d.state) {
        assert OfForm(g, all, k) == OfForm(g, ds, k);
      } else if k in view {
        assert OfForm(g, all, k) == OfForm(g, ds, k) + {d};
        MergeDepths(smaller, view[k], OfForm(g, ds, k), d);
        MergePaths(smaller, view[k], OfForm(g, ds, k), d);
        MergeEdges(smaller, view[k], OfForm(g, ds, k), d);
      } else {
        assert OfForm(g, all, k) == {d};
        NewSums(smaller, after[k], d);
      }
    }
  }

  lemma NewSums<S(!new)>(smaller: (seq<Action>, seq<Action>) -> bool, node: Node<S>, d: Discovery<S>)
    requires StrictOrder(smaller) && node == Node(d.state, d.path, [d.edge], d.depth, d.depth, Queued)
    ensures Sums(smaller, node, {d})
  {
    assert d in {d};
  }

  // ---------- any series of interns ----------

  ghost predicate SameRecord<S(!new)>(x: Node<S>, y: Node<S>) {
    && x.depthMinimum == y.depthMinimum && x.depthMaximum == y.depthMaximum && x.path == y.path
    && (forall e :: e in x.parents <==> e in y.parents) && |x.parents| == |y.parents|
  }

  function Elements(s: seq<nat>): set<nat> {
    set e | e in s
  }

  lemma {:induction false} DistinctLength(s: seq<nat>)
    requires forall i, j :: 0 <= i < j < |s| ==> s[i] != s[j]
    ensures |Elements(s)| == |s|
    decreases |s|
  {
    if s != [] {
      var init, last := s[..|s| - 1], s[|s| - 1];
      DistinctLength(init);
      assert s == init + [last];
      assert last !in init;
      assert Elements(s) == Elements(init) + {last};
    }
  }

  lemma SumsAgree<S(!new)>(smaller: (seq<Action>, seq<Action>) -> bool, x: Node<S>, y: Node<S>, ds: set<Discovery<S>>)
    requires StrictOrder(smaller) && Sums(smaller, x, ds) && Sums(smaller, y, ds)
    ensures SameRecord(x, y)
  {
    assert forall e :: e in x.parents <==> e in y.parents;
    assert Elements(x.parents) == Elements(y.parents);
    DistinctLength(x.parents);
    DistinctLength(y.parents);
    hide EdgesSum;
    var p :| p in ds && p.path == x.path;
    var q :| q in ds && q.path == y.path;
    var low :| low in ds && low.depth == x.depthMinimum;
    var high :| high in ds && high.depth == x.depthMaximum;
  }

  lemma HasForm<S(!new), K(!new)>(
      g: Grammar<S, K>, smaller: (seq<Action>, seq<Action>) -> bool, view: map<K, Node<S>>, ds: set<Discovery<S>>, k: K)
    requires Holds(g, smaller, view, ds)
    ensures k in view <==> OfForm(g, ds, k) != {}
  {
    if k in view {
      assert Sums(smaller, view[k], OfForm(g, ds, k));
      var d :| d in OfForm(g, ds, k) && d.path == view[k].path;
    }
  }

  /** The discoveries determine everything but the order of the parent edges and which of several
      canonically equal states a record keeps. */
  lemma HoldsAgree<S(!new), K(!new)>(
      g: Grammar<S, K>, smaller: (seq<Action>,
        seq<Action>) -> bool, v: map<K, Node<S>>, w: map<K, Node<S>>, ds: set<Discovery<S>>, k: K)
    requires StrictOrder(smaller) && Holds(g, smaller, v, ds) && Holds(g, smaller, w, ds)
    ensures k in v <==> k in w
    ensures k in v ==> SameRecord(v[k], w[k])
  {
    HasForm(g, smaller, v, ds, k);
    HasForm(g, smaller, w, ds, k);
    hide SameRecord, Sums;
    if k in v {
      SumsAgree(smaller, v[k], w[k], OfForm(g, ds, k));
    }
  }

  ghost function Among<S(!new)>(ds: seq<Discovery<S>>): set<Discovery<S>> {
    set d | d in ds
  }

  function InternedAll<S(!new), K(!new, ==)>(
      g: Grammar<S, K>, smaller: (seq<Action>, seq<Action>) -> bool, ds: seq<Discovery<S>>): map<K, Node<S>>
  {
    if ds == [] then map[]
    else
      var n := |ds| - 1;
      Interned(g, smaller, InternedAll(g, smaller, ds[..n]), ds[n].state, ds[n].depth, ds[n].path, ds[n].edge).0
  }

  lemma {:induction false} InternedAllHolds<S(!new), K(!new)>(
      g: Grammar<S, K>, smaller: (seq<Action>, seq<Action>) -> bool, ds: seq<Discovery<S>>)
    requires StrictOrder(smaller)
    ensures Holds(g, smaller, InternedAll(g, smaller, ds), Among(ds))
    decreases |ds|
  {
    hide StrictOrder, Sums, OfForm, Canon;
    if ds != [] {
      var n := |ds| - 1;
      InternedAllHolds(g, smaller, ds[..n]);
      assert Among(ds) == Among(ds[..n]) + {ds[n]};
      hide Holds, Interned, Among;
      InternHolds(g, smaller, InternedAll(g, smaller, ds[..n]), Among(ds[..n]), ds[n]);
    }
  }

  /** However workers interleave their interns, the table ends up with the same records. */
  lemma OrderDoesNotMatter<S(!new), K(!new)>(
      g: Grammar<S, K>, smaller: (seq<Action>, seq<Action>) -> bool, p: seq<Discovery<S>>, q: seq<Discovery<S>>, k: K)
    requires StrictOrder(smaller) && multiset(p) == multiset(q)
    ensures k in InternedAll(g, smaller, p) <==> k in InternedAll(g, smaller, q)
    ensures k in InternedAll(g, smaller, p) ==> SameRecord(InternedAll(g, smaller, p)[k], InternedAll(g, smaller, q)[k])
  {
    assert Among(p) == Among(q) by {
      forall d ensures d in p <==> d in q {
        assert d in multiset(p) <==> d in multiset(q);
      }
    }
    InternedAllHolds(g, smaller, p);
    InternedAllHolds(g, smaller, q);
    HoldsAgree(g, smaller, InternedAll(g, smaller, p), InternedAll(g, smaller, q), Among(p), k);
  }

  /** The form of discovery `i` is new: no earlier one has it. */
  ghost predicate FirstOfForm<S(!new), K(!new)>(g: Grammar<S, K>, ds: seq<Discovery<S>>, i: nat)
    requires i < |ds|
  {
    !SeenBefore(g, ds, i, Canon(g, ds[i].state))
  }

  ghost predicate SeenBefore<S(!new), K(!new)>(g: Grammar<S, K>, ds: seq<Discovery<S>>, i: nat, k: K)
    requires i <= |ds|
  {
    exists j :: 0 <= j < i && Canon(g, ds[j].state) == k
  }

  lemma {:induction false} KeysSeen<S(!new), K(!new)>(
      g: Grammar<S, K>, smaller: (seq<Action>, seq<Action>) -> bool, ds: seq<Discovery<S>>, n: nat, k: K)
    requires n <= |ds|
    ensures k in InternedAll(g, smaller, ds[..n]) <==> SeenBefore(g, ds, n, k)
    decreases n
  {
    if n > 0 {
      KeysSeen(g, smaller, ds, n - 1, k);
      assert ds[..n][..n - 1] == ds[..n - 1];
    }
  }

  /** A series of interns on an empty table, with any digests. A record is created exactly once for
      each form: at its first discovery. */
  method InternAll<S(!new), K(!new, ==)>(table: TranspositionTable<S, K>, ds: seq<Discovery<S>>)
        returns (how: seq<Disposition>)
    requires table.Valid() && table.view == map[]
    modifies table, table.repr
    ensures table.Valid() && table.view == InternedAll(table.g, table.smaller, ds)
    ensures |how| == |ds|
    ensures forall i :: 0 <= i < |ds| ==> (how[i].NewState? <==> FirstOfForm(table.g, ds, i))
  {
    how := [];
    hide TranspositionTable.Valid, TranspositionTable.StandsAt, FirstOfForm, Interned;
    for n := 0 to |ds|
      invariant table.Valid() && table.view == InternedAll(table.g, table.smaller, ds[..n]) && |how| == n
      invariant fresh(table.repr - old(table.repr)) && old(table.repr) <= table.repr
      invariant forall i :: 0 <= i < n ==> (how[i].NewState? <==> FirstOfForm(table.g, ds, i))
    {
      var d := ds[n];
      NewIsFirst(table.g, table.smaller, ds, n);
      var record, kind := table.Intern(d.state, d.depth, d.path, d.edge);
      assert ds[..n + 1][..n] == ds[..n];
      how := how + [kind];
    }
    assert ds[..|ds|] == ds;
  }

  lemma NewIsFirst<S(!new), K(!new)>(
      g: Grammar<S, K>, smaller: (seq<Action>, seq<Action>) -> bool, ds: seq<Discovery<S>>, n: nat)
    requires n < |ds|
    ensures var d := ds[n];
            Interned(g, smaller, InternedAll(g, smaller, ds[..n]), d.state, d.depth, d.path, d.edge).1.NewState? <==>
              FirstOfForm(g, ds, n)
  {
    KeysSeen(g, smaller, ds, n, Canon(g, ds[n].state));
  }
}

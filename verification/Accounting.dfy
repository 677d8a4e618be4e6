/** The search's books balance in every reachable state: every edge is a new state or a merge of a
    known kind, every record lists exactly the edges that reach it, and discovery is well-founded. */
module Accounting {
  import opened Actions
  import opened Grammars
  import opened Exploration
  import Steps

  function Merges(c: Counts): nat {
    c.exact + c.alpha + c.symmetry
  }

  function Counter(c: Counts, d: Disposition): nat {
    match d
    case NewState => c.unique
    case ExactTransposition => c.exact
    case AlphaEquivalence => c.alpha
    case Symmetry => c.symmetry
  }

  /** The number of edges of one kind. */
  function HowMany<K(!new)>(edges: seq<Edge<K>>, d: Disposition): nat {
    if edges == [] then 0
    else HowMany(edges[..|edges| - 1], d) + if edges[|edges| - 1].disposition == d then 1 else 0
  }

  /** `pending` children have been realised and charged but not interned yet. Whatever was offered was
      constructed, skipped or held back, or turned out not to be legal. */
  ghost predicate Totals<S(!new), K(!new)>(sn: Snapshot<S, K>, pending: nat) {
    && sn.counts.constructed == |sn.edges| + pending
    && |sn.edges| == sn.counts.unique + Merges(sn.counts)
    && sn.counts.unique == |sn.view|
    && (forall d :: Counter(sn.counts, d) == HowMany(sn.edges, d))
    && sn.counts.constructed + sn.counts.por + sn.counts.dependency <= sn.counts.raw
  }

  /** A record's parent edges are exactly the edges into it, in the order they were found; the first
      is the one that created it, and the only one marked so. */
  ghost predicate ParentsOk<S(!new), K(!new)>(edges: seq<Edge<K>>, k: K, node: Node<S>) {
    && node.parents != []
    && (forall i :: i in node.parents <==> 0 <= i < |edges| && edges[i].child == k)
    && (forall i, j :: 0 <= i < j < |node.parents| ==> node.parents[i] < node.parents[j])
    && (forall i :: 0 <= i < |edges| && edges[i].child == k ==>
        (edges[i].disposition.NewState? <==> i == node.parents[0]))
  }

  /** Edges are numbered in order and lead between recorded states, from older to newer numbers. */
  ghost predicate EdgeOk<S(!new), K(!new)>(view: map<K, Node<S>>, e: Edge<K>, i: nat) {
    && e.id == i && e.child in view
    && (e.parent.Some? ==> && e.parent.value in view && view[e.parent.value].parents != []
                           && view[e.parent.value].parents[0] < i)
  }

  ghost predicate Ledgered<S(!new), K(!new)>(view: map<K, Node<S>>, edges: seq<Edge<K>>) {
    && (forall k <- view :: ParentsOk(edges, k, view[k]))
    && (forall i :: 0 <= i < |edges| ==> EdgeOk(view, edges[i], i))
  }

  ghost predicate Balanced<S(!new), K(!new)>(sn: Snapshot<S, K>, pending: nat) {
    Totals(sn, pending) && Ledgered(sn.view, sn.edges)
  }

  lemma AddStateTotals<S(!new), K(!new)>(
      g: Grammar<S, K>, cfg: Config<S>, sn: Snapshot<S, K>, s: LazyState<S>, parent: Option<K>,
      depth: nat, path: seq<Action>, states: seq<Option<LazyState<S>>>, pending: nat)
    requires Totals(sn, pending + 1)
    ensures Totals(AddState(g, cfg, sn, s, parent, depth, path, states), pending)
    ensures var r := AddState(g, cfg, sn, s, parent, depth, path, states);
            |r.queue| - |sn.queue| == r.counts.unique - sn.counts.unique >= 0
  {
    var r, k := AddState(g, cfg, sn, s, parent, depth, path, states), Canon(g, s);
    assert r.edges[..|r.edges| - 1] == sn.edges;
    if k in sn.view {
      assert r.view.Keys == sn.view.Keys;
    } else {
      assert r.view.Keys == sn.view.Keys + {k};
    }
    assert |r.view| == |r.view.Keys| && |sn.view| == |sn.view.Keys|;
  }

  /** One more edge into a record. */
  lemma ParentsAppend<S(!new), K(!new)>(edges: seq<Edge<K>>, k: K, node: Node<S>, after: Node<S>, e: Edge<K>)
    requires ParentsOk(edges, k, node) && e.child == k && !e.disposition.NewState?
    requires after.parents == node.parents + [|edges|]
    ensures ParentsOk(edges + [e], k, after) && after.parents[0] == node.parents[0]
  {
    var more := edges + [e];
    assert after.parents[0] == node.parents[0];
    assert after.parents[|node.parents|] == |edges|;
    forall i ensures i in after.parents <==> 0 <= i < |more| && more[i].child == k {
      assert i in after.parents <==> i in node.parents || i == |edges|;
    }
    forall i, j | 0 <= i < j < |after.parents| ensures after.parents[i] < after.parents[j] {
      assert node.parents[i] in node.parents;
    }
  }

  /** Edges into other records do not matter. */
  lemma ParentsKept<S(!new), K(!new)>(edges: seq<Edge<K>>, k: K, node: Node<S>, e: Edge<K>)
    requires ParentsOk(edges, k, node) && e.child != k
    ensures ParentsOk(edges + [e], k, node)
  {
    assert node.parents[0] in node.parents;
  }

  lemma ParentsFirst<S(!new), K(!new)>(edges: seq<Edge<K>>, k: K, node: Node<S>, e: Edge<K>)
    requires (forall i :: 0 <= i < |edges| ==> edges[i].child != k) && e.child == k && e.disposition.NewState?
    requires node.parents == [|edges|]
    ensures ParentsOk(edges + [e], k, node)
  {}

  lemma AddStateParents<S(!new), K(!new)>(
      g: Grammar<S, K>, cfg: Config<S>, sn: Snapshot<S, K>, s: LazyState<S>, parent: Option<K>,
      depth: nat, path: seq<Action>, states: seq<Option<LazyState<S>>>, k: K)
    requires Ledgered(sn.view, sn.edges)
    requires k in AddState(g, cfg, sn, s, parent, depth, path, states).view
    ensures var r := AddState(g, cfg, sn, s, parent, depth, path, states);
            ParentsOk(r.edges, k, r.view[k]) && (k in sn.view ==> r.view[k].parents[0] == sn.view[k].parents[0])
  {
    hide ParentsOk;
    var r, id := AddState(g, cfg, sn, s, parent, depth, path, states), |sn.edges|;
    var e := r.edges[id];
    if k in sn.view {
      assert ParentsOk(sn.edges, k, sn.view[k]);
      if k == Canon(g, s) {
        ParentsBelow(sn.edges, k, sn.view[k]);
        ParentsAppend(sn.edges, k, sn.view[k], r.view[k], e);
      } else {
        ParentsKept(sn.edges, k, sn.view[k], e);
      }
    } else {
      forall i | 0 <= i < id ensures sn.edges[i].child != k {
        assert EdgeOk(sn.view, sn.edges[i], i);
      }
      ParentsFirst(sn.edges, k, r.view[k], e);
    }
  }

  lemma ParentsBelow<S(!new), K(!new)>(edges: seq<Edge<K>>, k: K, node: Node<S>)
    requires ParentsOk(edges, k, node)
    ensures |edges| !in node.parents
  {}

  /** Interning one more state keeps the books. */
  lemma AddStateBalances<S(!new), K(!new)>(
      g: Grammar<S, K>, cfg: Config<S>, sn: Snapshot<S, K>, s: LazyState<S>, parent: Option<K>,
      depth: nat, path: seq<Action>, states: seq<Option<LazyState<S>>>, pending: nat)
    requires Balanced(sn, pending + 1) && (parent.Some? ==> parent.value in sn.view)
    ensures Balanced(AddState(g, cfg, sn, s, parent, depth, path, states), pending)
    ensures var r := AddState(g, cfg, sn, s, parent, depth, path, states);
            |r.queue| - |sn.queue| == r.counts.unique - sn.counts.unique >= 0
  {
    hide Totals, EdgeOk, Interned, Tally;
    var r := AddState(g, cfg, sn, s, parent, depth, path, states);
    AddStateTotals(g, cfg, sn, s, parent, depth, path, states, pending);
    forall k | k in r.view
      ensures ParentsOk(r.edges, k, r.view[k]) && (k in sn.view ==> r.view[k].parents[0] == sn.view[k].parents[0])
    {
      AddStateParents(g, cfg, sn, s, parent, depth, path, states, k);
    }
    AddStateEdges(g, cfg, sn, s, parent, depth, path, states);
  }

  lemma ParentIsOlder<S(!new), K(!new)>(view: map<K, Node<S>>, edges: seq<Edge<K>>, k: K)
    requires Ledgered(view, edges) && k in view
    ensures view[k].parents != [] && view[k].parents[0] < |edges|
  {
    assert ParentsOk(edges, k, view[k]);
    assert view[k].parents[0] in view[k].parents;
  }

  lemma AddStateEdges<S(!new), K(!new)>(
      g: Grammar<S, K>, cfg: Config<S>, sn: Snapshot<S, K>, s: LazyState<S>, parent: Option<K>,
      depth: nat, path: seq<Action>, states: seq<Option<LazyState<S>>>)
    requires Ledgered(sn.view, sn.edges) && (parent.Some? ==> parent.value in sn.view)
    requires var r := AddState(g, cfg, sn, s, parent, depth, path, states);
             forall k <- r.view ::
                 ParentsOk(r.edges, k, r.view[k]) && (k in sn.view ==> r.view[k].parents[0] == sn.view[k].parents[0])
    ensures var r := AddState(g, cfg, sn, s, parent, depth, path, states);
            forall i :: 0 <= i < |r.edges| ==> EdgeOk(r.view, r.edges[i], i)
  {
    var r := AddState(g, cfg, sn, s, parent, depth, path, states);
    if parent.Some? {
      ParentIsOlder(sn.view, sn.edges, parent.value);
    }
    forall i | 0 <= i < |r.edges| ensures EdgeOk(r.view, r.edges[i], i) {
      if i < |sn.edges| {
        assert EdgeOk(sn.view, sn.edges[i], i);
      }
    }
  }

  lemma {:induction false} AddChildrenBalance<S(!new), K(!new)>(
      g: Grammar<S, K>, cfg: Config<S>, sn: Snapshot<S, K>, w: Work<S, K>, s: LazyState<S>, depth: nat,
      children: seq<LazyState<S>>, pending: nat)
    requires Balanced(sn, |children| + pending) && w.key in sn.view
    ensures var r := AddChildren(g, cfg, sn, w, s, depth, children);
            Balanced(r, pending) && |r.queue| - |sn.queue| == r.counts.unique - sn.counts.unique >= 0
    decreases |children|
  {
    hide Balanced, AddState;
    if children != [] {
      var n, child := |children| - 1, children[|children| - 1];
      AddChildrenBalance(g, cfg, sn, w, s, depth, children[..n], pending + 1);
      var before := AddChildren(g, cfg, sn, w, s, depth, children[..n]);
      AddStateBalances(g, cfg, before, child, Some(w.key), depth, w.path + [child.action], w.states + [Some(s)],
        pending);
    }
  }

  lemma {:induction false} AddInitialBalance<S(!new), K(!new)>(
      g: Grammar<S, K>, cfg: Config<S>, sn: Snapshot<S, K>, states: seq<LazyState<S>>, pending: nat)
    requires Balanced(sn, |states| + pending)
    ensures Balanced(AddInitial(g, cfg, sn, states), pending)
    decreases |states|
  {
    hide Balanced, AddState;
    if states != [] {
      var n := |states| - 1;
      AddInitialBalance(g, cfg, sn, states[..n], pending + 1);
      AddStateBalances(g, cfg, AddInitial(g, cfg, sn, states[..n]), states[n], None, 0, [states[n].action], [None],
        pending);
    }
  }

  /** A fresh search starts balanced. */
  lemma StartBalances<S(!new), K(!new)>(g: Grammar<S, K>, cfg: Config<S>)
    ensures Balanced(Start(g, cfg), 0)
  {
    AddInitialBalance(g, cfg, Blank(|g.initial|), g.initial, 0);
  }

  lemma MarkBalances<S(!new), K(!new)>(sn: Snapshot<S, K>, k: K, phase: Phase, pending: nat)
    requires Balanced(sn, pending) && k in sn.view
    ensures Balanced(sn.(view := SetPhase(sn.view, k, phase)), pending)
  {
    var after := SetPhase(sn.view, k, phase);
    assert after.Keys == sn.view.Keys;
    assert |after| == |after.Keys| && |sn.view| == |sn.view.Keys|;
    forall k' | k' in after ensures ParentsOk(sn.edges, k', after[k']) {
      assert ParentsOk(sn.edges, k', sn.view[k']);
    }
    forall i | 0 <= i < |sn.edges| ensures EdgeOk(after, sn.edges[i], i) {
      assert EdgeOk(sn.view, sn.edges[i], i);
    }
  }

  lemma ChargedKeeps<S(!new), K(!new)>(g: Grammar<S, K>, cfg: Config<S>, c: Counts, node: Node<S>, w: Work<S, K>)
    requires w.path != [] && w.states != [] && c.constructed + c.por + c.dependency <= c.raw
    ensures var after := Charged(g, cfg, c, node, w);
            after.constructed + after.por + after.dependency <= after.raw
  {
    var s, por := node.state, AppliesPor(g, cfg, node);
    Steps.ViableCounts(g, w, por, g.enabled(s));
    Steps.RealizedIsNoLonger(g, s, Viable(g, w, por, g.enabled(s)).actions);
    hide Viable, Realized, AppliesPor;
  }

  /** Expanding a record charges the counters first and then interns what it charged for. */
  lemma ExpandBalances<S(!new), K(!new)>(g: Grammar<S, K>, cfg: Config<S>, sn: Snapshot<S, K>, w: Work<S, K>)
    requires Balanced(sn, 0) && w.path != [] && w.states != [] && w.key in sn.view
    requires Expand(g, cfg, sn, w).Some?
    ensures var r := Expand(g, cfg, sn, w).value;
            Balanced(r, 0) && |r.queue| - |sn.queue| == r.counts.unique - sn.counts.unique >= 0
  {
    hide Ledgered, Ranked, Children, Scores, AddChildren, Viable;
    var node := sn.view[w.key];
    var children, scores := Children(g, cfg, node, w), Scores(g, cfg, node, w);
    Steps.RankingNeverDeletes(children, scores);
    ChargedKeeps(g, cfg, sn.counts, node, w);
    var ranked := Ranked(children, scores);
    var charged := sn.(counts := Charged(g, cfg, sn.counts, node, w));
    AddChildrenBalance(g, cfg, charged, w, node.state, node.depthMinimum + 1, ranked, 0);
    MarkBalances(AddChildren(g, cfg, charged, w, node.state, node.depthMinimum + 1, ranked), w.key, Expanded, 0);
  }

  /** Every pop keeps the books, and either finds something new or shortens the queue. */
  lemma PopBalances<S(!new), K(!new)>(g: Grammar<S, K>, cfg: Config<S>, sn: Snapshot<S, K>)
    requires Balanced(sn, 0)
    requires sn.queue != [] && sn.queue[0].path != [] && sn.queue[0].states != [] && sn.queue[0].key in sn.view
    requires Pop(g, cfg, sn).Some?
    ensures var r := Pop(g, cfg, sn).value;
            && Balanced(r, 0)
            && |r.queue| + 1 - |sn.queue| == r.counts.unique - sn.counts.unique >= 0
  {
    hide Ledgered, Expand;
    var w, rest := sn.queue[0], sn.(queue := sn.queue[1..]);
    var node := sn.view[w.key];
    if node.phase.Expanded? {
    } else if node.state.terminal {
      MarkBalances(sn, w.key, TerminalSeen, 0);
    } else {
      ExpandBalances(g, cfg, rest, w);
    }
  }
}

/** The edges a search records are the transitions of the grammar: which edges there are, said of the
    edges themselves. */
module Transitions {
  import opened Actions
  import opened Grammars
  import opened Exploration
  import opened Soundness
  import opened Steps
  import Rearranged = Lists

  // ---------- what edges are ----------

  /** How the discovery of `s` is classed when the record of its form keeps `kept`: as new if it made the
      record; as exact if the forms were the same before renaming, or nothing was renamed; otherwise by
      what was permuted or renamed. */
  ghost predicate Classed<S(!new), K(!new)>(g: Grammar<S, K>, kept: LazyState<S>, s: LazyState<S>, d: Disposition) {
    var (e, same) := (g.envelope(s), g.envelope(kept).raw == g.envelope(s).raw);
    match d
    case NewState => kept == s
    case ExactTransposition => same || (e.symmetryPermutations == 0 && e.alphaRenames == 0)
    case Symmetry => !same && e.symmetryPermutations > 0
    case AlphaEquivalence => !same && e.symmetryPermutations == 0 && e.alphaRenames > 0
  }

  /** The edge records the discovery of `s` from `parent` at `depth`. */
  ghost predicate EdgeTo<S(!new), K(!new)>(
      g: Grammar<S, K>, view: map<K, Node<S>>, e: Edge<K>, parent: Option<K>, depth: nat, s: LazyState<S>)
  {
    && e.parent == parent && e.action == s.action && e.child == Canon(g, s) && e.depth == depth
    && e.child in view && view[e.child].depthMinimum <= depth && Classed(g, view[e.child].state, s, e.disposition)
  }

  /** An edge between the forms of two states the grammar makes, the first of which is not terminal and
      enables the action that leads to the second. It leaves an expanded record, below its depth. */
  ghost predicate StepEdge<S(!new), K(!new)>(
      g: Grammar<S, K>, ledger: Ledger<K>, view: map<K, Node<S>>, e: Edge<K>)
  {
    && (exists s, t :: Step(g, ledger, s, e.action, t) && EdgeTo(g, view, e, Some(Canon(g, s)), e.depth, t))
    && e.parent.Some? && e.parent.value in view && view[e.parent.value].phase.Expanded?
    && view[e.parent.value].depthMinimum < e.depth
  }

  /** First come the edges of the initial states, in order, then steps only. */
  ghost predicate EdgesTrue<S(!new), K(!new)>(
      g: Grammar<S, K>, ledger: Ledger<K>, view: map<K, Node<S>>, edges: seq<Edge<K>>)
  {
    && |g.initial| <= |edges|
    && (forall i :: 0 <= i < |g.initial| ==> EdgeTo(g, view, edges[i], None, 0, g.initial[i]))
    && (forall i :: |g.initial| <= i < |edges| ==> StepEdge(g, ledger, view, edges[i]))
  }

  ghost predicate HasEdge<K(!new)>(edges: seq<Edge<K>>, k: K, a: Action, c: K) {
    exists i :: 0 <= i < |edges| && edges[i].parent == Some(k) && edges[i].action == a && edges[i].child == c
  }

  /** Every step from `s` has an edge. If the search may reduce, a step may be missing that is redundant
      for one discovery of the form. */
  ghost predicate Outgoing<S(!new), K(!new)>(
      g: Grammar<S, K>, ledger: Ledger<K>, por: bool, edges: seq<Edge<K>>, k: K, s: LazyState<S>)
  {
    exists o: Origin<S> :: Arrives(g, o, k) && MadeOrRoot(g, o.prev) && Leaves(g, ledger, por, edges, k, s, o)
  }

  ghost predicate Leaves<S(!new), K(!new)>(
      g: Grammar<S, K>, ledger: Ledger<K>, por: bool, edges: seq<Edge<K>>, k: K, s: LazyState<S>, o: Origin<S>)
  {
    forall b, x :: Step(g, ledger, s, b, x) ==>
      HasEdge(edges, k, b, Canon(g, x)) || (por && Redundant(g, o.prev, o.last, b))
  }

  ghost predicate AllOutgoing<S(!new), K(!new)>(
      g: Grammar<S, K>, ledger: Ledger<K>, por: bool, view: map<K, Node<S>>, edges: seq<Edge<K>>)
  {
    forall k <- view :: view[k].phase.Expanded? ==> Outgoing(g, ledger, por, edges, k, view[k].state)
  }

  /** No action is offered twice. */
  ghost predicate Frugal<S(!new), K(!new)>(g: Grammar<S, K>) {
    forall s :: g.made(s) ==> DistinctIn(g.enabled(s))
  }

  ghost predicate DistinctIn(actions: seq<Action>) {
    forall i, j :: 0 <= i < j < |actions| ==> actions[i] != actions[j]
  }

  /** No two edges leave one form with one action. */
  ghost predicate OncePerStep<K(!new)>(edges: seq<Edge<K>>) {
    forall i, j :: 0 <= i < j < |edges| && edges[i].parent.Some? && edges[i].parent == edges[j].parent ==>
      edges[i].action != edges[j].action
  }

  /** The edges of a search that reduces only if `por`. */
  ghost predicate Drawn<S(!new), K(!new)>(
      g: Grammar<S, K>, ledger: Ledger<K>, por: bool, view: map<K, Node<S>>, edges: seq<Edge<K>>)
  {
    && EdgesTrue(g, ledger, view, edges) && AllOutgoing(g, ledger, por, view, edges)
    && (Frugal(g) ==> OncePerStep(edges))
  }

  // ---------- what interning adds ----------

  /** `after` keeps the records of `before`; depths may only fall. */
  ghost predicate Later<S(!new), K(!new)>(before: map<K, Node<S>>, after: map<K, Node<S>>) {
    && before.Keys <= after.Keys
    && (forall k <- before ::
          after[k].state == before[k].state && after[k].depthMinimum <= before[k].depthMinimum
          && after[k].phase == before[k].phase)
    && (forall k <- after :: k !in before ==> after[k].phase.Queued?)
  }

  /** One edge more for each of these states, in order, all with one parent and one depth. */
  ghost predicate Adds<S(!new), K(!new)>(
      g: Grammar<S, K>, view: map<K, Node<S>>, before: seq<Edge<K>>, after: seq<Edge<K>>, parent: Option<K>,
      depth: nat, states: seq<LazyState<S>>)
  {
    && |after| == |before| + |states| && after[..|before|] == before
    && forall i :: |before| <= i < |after| ==> EdgeTo(g, view, after[i], parent, depth, states[i - |before|])
  }

  lemma AddStateAdds<S(!new), K(!new)>(
      g: Grammar<S, K>, cfg: Config<S>, sn: Snapshot<S, K>, s: LazyState<S>, parent: Option<K>,
      depth: nat, path: seq<Action>, states: seq<Option<LazyState<S>>>)
    ensures var r := AddState(g, cfg, sn, s, parent, depth, path, states);
            Adds(g, r.view, sn.edges, r.edges, parent, depth, [s]) && Later(sn.view, r.view)
  {}

  lemma LaterLater<S(!new), K(!new)>(a: map<K, Node<S>>, b: map<K, Node<S>>, c: map<K, Node<S>>)
    requires Later(a, b) && Later(b, c)
    ensures Later(a, c)
  {}

  lemma AddsOneMore<S(!new), K(!new)>(
      g: Grammar<S, K>, before: map<K, Node<S>>, after: map<K, Node<S>>, a: seq<Edge<K>>, b: seq<Edge<K>>,
      c: seq<Edge<K>>, parent: Option<K>, depth: nat, states: seq<LazyState<S>>, s: LazyState<S>)
    requires Adds(g, before, a, b, parent, depth, states) && Adds(g, after, b, c, parent, depth, [s])
    requires Later(before, after)
    ensures Adds(g, after, a, c, parent, depth, states + [s])
  {
    assert c[..|a|] == c[..|b|][..|a|];
    hide EdgeTo, Later;
    forall i | |a| <= i < |c| ensures EdgeTo(g, after, c[i], parent, depth, (states + [s])[i - |a|]) {
      if i < |b| {
        assert c[i] == c[..|b|][i] == b[i] && (states + [s])[i - |a|] == states[i - |a|];
        EdgeToLater(g, before, after, b[i], parent, depth, states[i - |a|]);
      } else {
        assert [s][0] == s == (states + [s])[i - |a|] && EdgeTo(g, after, c[i], parent, depth, [s][i - |b|]);
      }
    }
  }

  /** Records keep their states, so what an edge says stays true. */
  lemma EdgeToLater<S(!new), K(!new)>(
      g: Grammar<S, K>, before: map<K, Node<S>>, after: map<K, Node<S>>, e: Edge<K>, parent: Option<K>, depth: nat,
      s: LazyState<S>)
    requires EdgeTo(g, before, e, parent, depth, s)
    requires e.child in after && after[e.child].state == before[e.child].state
        && after[e.child].depthMinimum <= before[e.child].depthMinimum
    ensures EdgeTo(g, after, e, parent, depth, s)
  {}

  lemma {:induction false} AddChildrenAdds<S(!new), K(!new)>(
      g: Grammar<S, K>, cfg: Config<S>, sn: Snapshot<S, K>, w: Work<S, K>, s: LazyState<S>, depth: nat,
      children: seq<LazyState<S>>)
    ensures var r := AddChildren(g, cfg, sn, w, s, depth, children);
            Adds(g, r.view, sn.edges, r.edges, Some(w.key), depth, children) && Later(sn.view, r.view)
    decreases |children|
  {
    hide AddState, Adds, Later;
    if children == [] {
      AddsNothing(g, sn.edges, Some(w.key), depth, sn.view);
    } else {
      var n, x := |children| - 1, children[|children| - 1];
      assert children == children[..n] + [x];
      AddChildrenAdds(g, cfg, sn, w, s, depth, children[..n]);
      var before := AddChildren(g, cfg, sn, w, s, depth, children[..n]);
      var r := AddState(g, cfg, before, x, Some(w.key), depth, w.path + [x.action], w.states + [Some(s)]);
      AddStateAdds(g, cfg, before, x, Some(w.key), depth, w.path + [x.action], w.states + [Some(s)]);
      AddsOneMore(g, before.view, r.view, sn.edges, before.edges, r.edges, Some(w.key), depth, children[..n], x);
      LaterLater(sn.view, before.view, r.view);
    }
  }

  lemma AddsNothing<S(!new), K(!new)>(g: Grammar<S, K>, edges: seq<Edge<K>>, parent: Option<K>, depth: nat,
                                      view: map<K, Node<S>>)
    ensures Adds(g, view, edges, edges, parent, depth, []) && Later(view, view)
  {
    assert edges[..|edges|] == edges;
  }

  lemma {:induction false} AddInitialAdds<S(!new), K(!new)>(
      g: Grammar<S, K>, cfg: Config<S>, sn: Snapshot<S, K>, states: seq<LazyState<S>>)
    ensures var r := AddInitial(g, cfg, sn, states);
            Adds(g, r.view, sn.edges, r.edges, None, 0, states) && Later(sn.view, r.view)
    decreases |states|
  {
    hide AddState, Adds, Later;
    if states == [] {
      AddsNothing(g, sn.edges, None, 0, sn.view);
    } else {
      var n, x := |states| - 1, states[|states| - 1];
      assert states == states[..n] + [x];
      AddInitialAdds(g, cfg, sn, states[..n]);
      var before := AddInitial(g, cfg, sn, states[..n]);
      var r := AddState(g, cfg, before, x, None, 0, [x.action], [None]);
      AddStateAdds(g, cfg, before, x, None, 0, [x.action], [None]);
      AddsOneMore(g, before.view, r.view, sn.edges, before.edges, r.edges, None, 0, states[..n], x);
      LaterLater(sn.view, before.view, r.view);
    }
  }

  // ---------- starting ----------

  /** A fresh search has the edges of the initial states and no others. */
  lemma StartDraws<S(!new), K(!new)>(g: Grammar<S, K>, ledger: Ledger<K>, por: bool, cfg: Config<S>)
    ensures Drawn(g, ledger, por, Start(g, cfg).view, Start(g, cfg).edges)
  {
    hide AddInitial, Later, Adds, Drawn;
    AddInitialAdds(g, cfg, Blank(|g.initial|), g.initial);
    QueuedAtFirst(map[], Start(g, cfg).view);
    InitialDrawn(g, ledger, por, Start(g, cfg).view, Start(g, cfg).edges);
  }

  lemma InitialDrawn<S(!new), K(!new)>(
      g: Grammar<S, K>, ledger: Ledger<K>, por: bool, view: map<K, Node<S>>, edges: seq<Edge<K>>)
    requires Adds(g, view, [], edges, None, 0, g.initial) && forall k <- view :: view[k].phase.Queued?
    ensures Drawn(g, ledger, por, view, edges)
  {
    assert |edges| == |g.initial|;
    InitialEdges(g, view, edges);
    hide Adds, StepEdge, Outgoing, Frugal, EdgeTo;
    assert forall i :: 0 <= i < |edges| ==> edges[i].parent.None?;
  }

  lemma InitialEdges<S(!new), K(!new)>(g: Grammar<S, K>, view: map<K, Node<S>>, edges: seq<Edge<K>>)
    requires Adds(g, view, [], edges, None, 0, g.initial)
    ensures |edges| == |g.initial|
    ensures forall i :: 0 <= i < |edges| ==> EdgeTo(g, view, edges[i], None, 0, g.initial[i]) && edges[i].parent.None?
  {
    forall i | 0 <= i < |edges| ensures EdgeTo(g, view, edges[i], None, 0, g.initial[i]) {
      assert EdgeTo(g, view, edges[i], None, 0, g.initial[i - 0]);
    }
  }

  lemma QueuedAtFirst<S(!new), K(!new)>(before: map<K, Node<S>>, after: map<K, Node<S>>)
    requires Later(before, after) && before == map[]
    ensures forall k <- after :: after[k].phase.Queued?
  {}

  // ---------- expanding ----------

  lemma {:induction false} ViableDistinct<S(!new), K(!new)>(g: Grammar<S, K>, w: Work<S, K>, por: bool,
                                                            actions: seq<Action>)
    requires w.path != [] && w.states != [] && DistinctIn(actions)
    ensures DistinctIn(Viable(g, w, por, actions).actions)
  {
    if actions != [] {
      var n := |actions| - 1;
      ViableDistinct(g, w, por, actions[..n]);
      ViableMembers(g, w, por, actions[..n], actions[n]);
    }
  }

  ghost predicate DistinctActions<S(!new)>(states: seq<LazyState<S>>) {
    forall i, j :: 0 <= i < j < |states| ==> states[i].action != states[j].action
  }

  lemma {:induction false} RealizedDistinct<S(!new), K(!new)>(g: Grammar<S, K>, s: LazyState<S>, actions: seq<Action>)
    requires DistinctIn(actions)
    requires forall a <- actions :: g.apply(Some(s), a).Some? ==> g.apply(Some(s), a).value.action == a
    ensures DistinctActions(Realized(g, s, actions))
  {
    if actions != [] {
      var n := |actions| - 1;
      var init := actions[..n];
      assert forall a <- init :: a in actions;
      RealizedDistinct(g, s, init);
      var before := Realized(g, s, init);
      forall i | 0 <= i < |before| ensures before[i].action != actions[n] {
        RealizedMembers(g, s, init, before[i]);
        var a :| a in init && g.apply(Some(s), a) == Some(before[i]);
        var j :| 0 <= j < n && init[j] == a;
      }
    }
  }

  lemma RankedDistinct<S(!new)>(children: seq<LazyState<S>>, scores: seq<real>)
    requires |children| == |scores| && DistinctActions(children)
    ensures DistinctActions(Ranked(children, scores))
  {
    var pairs, all, r := RankedPairs(children, scores), Zipped(children, scores), Ranked(children, scores);
    RankingNeverDeletes(children, scores);
    hide RankedPairs, Descending, Scoring;
    forall i, j | 0 <= i < j < |r| ensures r[i].action != r[j].action {
      var x, y := PairPlaces(pairs, all, i, j);
      assert all[x].0 == children[x] && all[y].0 == children[y];
    }
  }

  /** Two places in a list are two places in any rearrangement of it. */
  lemma PairPlaces<T>(pairs: seq<T>, all: seq<T>, i: nat, j: nat) returns (x: nat, y: nat)
    requires multiset(pairs) == multiset(all) && i < j < |pairs|
    ensures x < |all| && y < |all| && x != y && all[x] == pairs[i] && all[y] == pairs[j]
  {
    assert pairs[i] in multiset(all) && pairs[j] in multiset(all);
    x :| 0 <= x < |all| && all[x] == pairs[i];
    if pairs[i] != pairs[j] {
      y :| 0 <= y < |all| && all[y] == pairs[j];
    } else {
      var rest, others := Rearranged.Without(all, x), Rearranged.Without(pairs, j);
      Rearranged.RemoveOne(all, x);
      Rearranged.RemoveOne(pairs, j);
      assert others[i] == pairs[i];
      assert pairs[i] in multiset(others) && pairs[i] in multiset(rest);
      var z :| 0 <= z < |rest| && rest[z] == pairs[i];
      y := if z < x then z else z + 1;
    }
  }

  lemma ChildrenDistinct<S(!new), K(!new)>(g: Grammar<S, K>, cfg: Config<S>, node: Node<S>, w: Work<S, K>)
    requires LegalIsEnabled(g) && Frugal(g) && g.made(node.state) && w.path != [] && w.states != []
    ensures DistinctActions(Children(g, cfg, node, w))
  {
    var s, por := node.state, AppliesPor(g, cfg, node);
    ViableDistinct(g, w, por, g.enabled(s));
    forall a | a in Viable(g, w, por, g.enabled(s)).actions && g.apply(Some(s), a).Some?
      ensures g.apply(Some(s), a).value.action == a
    {
      ViableMembers(g, w, por, g.enabled(s), a);
      assert InAlphabet(g, a);
    }
    RealizedDistinct(g, s, Viable(g, w, por, g.enabled(s)).actions);
  }

  /** What the table and the edges look like after the record `k` has been expanded. */
  ghost predicate Grown<S(!new), K(!new)>(
      g: Grammar<S, K>, sn: Snapshot<S, K>, r: Snapshot<S, K>, k: K, frontier: seq<LazyState<S>>)
    requires k in sn.view
  {
    var depth := sn.view[k].depthMinimum + 1;
    && k in r.view && Adds(g, r.view, sn.edges, r.edges, Some(k), depth, frontier)
    && sn.view.Keys <= r.view.Keys
    && (forall x <- sn.view ::
          r.view[x].state == sn.view[x].state && r.view[x].depthMinimum <= sn.view[x].depthMinimum)
    && (forall x <- r.view :: r.view[x].phase.Expanded? <==> x == k || (x in sn.view && sn.view[x].phase.Expanded?))
  }

  lemma ExpandGrows<S(!new), K(!new)>(g: Grammar<S, K>, cfg: Config<S>, sn: Snapshot<S, K>, w: Work<S, K>)
    returns (frontier: seq<LazyState<S>>)
    requires w.path != [] && w.states != [] && w.key in sn.view && Expand(g, cfg, sn, w).Some?
    ensures Grown(g, sn, Expand(g, cfg, sn, w).value, w.key, frontier)
    ensures var node := sn.view[w.key];
            && (forall x :: x in frontier <==> x in Children(g, cfg, node, w))
            && (DistinctActions(Children(g, cfg, node, w)) ==> DistinctActions(frontier))
  {
    hide Children, Scores, Ranked, AddChildren, Adds, Charged, DistinctActions, Grown, Later, SetPhase;
    var node := sn.view[w.key];
    var children, scores := Children(g, cfg, node, w), Scores(g, cfg, node, w);
    frontier := Ranked(children, scores);
    RankingNeverDeletes(children, scores);
    if DistinctActions(children) {
      RankedDistinct(children, scores);
    }
    var charged := sn.(counts := Charged(g, cfg, sn.counts, node, w));
    AddChildrenAdds(g, cfg, charged, w, node.state, node.depthMinimum + 1, frontier);
    LaterGrows(g, sn, AddChildren(g, cfg, charged, w, node.state, node.depthMinimum + 1, frontier), w.key, frontier);
  }

  lemma LaterGrows<S(!new), K(!new)>(
      g: Grammar<S, K>, sn: Snapshot<S, K>, r: Snapshot<S, K>, k: K, frontier: seq<LazyState<S>>)
    requires k in sn.view && Later(sn.view, r.view)
    requires Adds(g, r.view, sn.edges, r.edges, Some(k), sn.view[k].depthMinimum + 1, frontier)
    ensures Grown(g, sn, r.(view := SetPhase(r.view, k, Expanded)), k, frontier)
  {
    AddsMarked(g, r.view, sn.edges, r.edges, k, sn.view[k].depthMinimum + 1, frontier);
    hide Adds;
  }

  lemma AddsMarked<S(!new), K(!new)>(
      g: Grammar<S, K>, view: map<K, Node<S>>, before: seq<Edge<K>>, after: seq<Edge<K>>, k: K, depth: nat,
      states: seq<LazyState<S>>)
    requires k in view && Adds(g, view, before, after, Some(k), depth, states)
    ensures Adds(g, SetPhase(view, k, Expanded), before, after, Some(k), depth, states)
  {
    hide EdgeTo;
    forall i | |before| <= i < |after|
      ensures EdgeTo(g, SetPhase(view, k, Expanded), after[i], Some(k), depth, states[i - |before|])
    {
      EdgeToMarked(g, view, after[i], k, Expanded, Some(k), depth, states[i - |before|]);
    }
  }

  lemma EdgeToMarked<S(!new), K(!new)>(
      g: Grammar<S, K>, view: map<K, Node<S>>, e: Edge<K>, k: K, phase: Phase, parent: Option<K>, depth: nat,
      s: LazyState<S>)
    requires k in view && EdgeTo(g, view, e, parent, depth, s)
    ensures EdgeTo(g, SetPhase(view, k, phase), e, parent, depth, s)
  {}

  lemma StepEdgeLater<S(!new), K(!new)>(
      g: Grammar<S, K>, ledger: Ledger<K>, before: map<K, Node<S>>, after: map<K, Node<S>>, e: Edge<K>)
    requires StepEdge(g, ledger, before, e) && before.Keys <= after.Keys
    requires forall x <- before ::
        && after[x].state == before[x].state && after[x].depthMinimum <= before[x].depthMinimum
        && (before[x].phase.Expanded? ==> after[x].phase.Expanded?)
    ensures StepEdge(g, ledger, after, e)
  {
    hide Step;
    var s, t :| Step(g, ledger, s, e.action, t) && EdgeTo(g, before, e, Some(Canon(g, s)), e.depth, t);
    EdgeToLater(g, before, after, e, Some(Canon(g, s)), e.depth, t);
  }

  /** The new edges are steps. */
  lemma GrownTrue<S(!new), K(!new)>(
      g: Grammar<S, K>, ledger: Ledger<K>, sn: Snapshot<S, K>, r: Snapshot<S, K>, k: K, frontier: seq<LazyState<S>>)
    requires k in sn.view && Grown(g, sn, r, k, frontier) && EdgesTrue(g, ledger, sn.view, sn.edges)
    requires Canon(g, sn.view[k].state) == k && forall x <- frontier :: ChildOk(g, ledger, sn.view[k].state, x)
    ensures EdgesTrue(g, ledger, r.view, r.edges)
  {
    var n := |sn.edges|;
    hide Step, EdgeTo, StepEdge;
    forall i | 0 <= i < |r.edges|
      ensures i < |g.initial| ==> EdgeTo(g, r.view, r.edges[i], None, 0, g.initial[i])
      ensures i >= |g.initial| ==> StepEdge(g, ledger, r.view, r.edges[i])
    {
      if i < n {
        assert r.edges[..n][i] == r.edges[i] == sn.edges[i];
        if i < |g.initial| {
          RootStays(g, sn.view, r.view, sn.edges[i], g.initial[i]);
        } else {
          StepEdgeLater(g, ledger, sn.view, r.view, sn.edges[i]);
        }
      } else {
        var x := frontier[i - n];
        assert EdgeTo(g, r.view, r.edges[i], Some(k), sn.view[k].depthMinimum + 1, x) && x in frontier;
        assert ChildOk(g, ledger, sn.view[k].state, x);
        NewStep(g, ledger, sn, r, k, r.edges[i], x);
      }
    }
  }

  lemma RootStays<S(!new), K(!new)>(
      g: Grammar<S, K>, before: map<K, Node<S>>, after: map<K, Node<S>>, e: Edge<K>, i: LazyState<S>)
    requires EdgeTo(g, before, e, None, 0, i) && before.Keys <= after.Keys
    requires forall x <- before ::
        after[x].state == before[x].state && after[x].depthMinimum <= before[x].depthMinimum
    ensures EdgeTo(g, after, e, None, 0, i)
  {
    EdgeToLater(g, before, after, e, None, 0, i);
  }

  lemma NewStep<S(!new), K(!new)>(
      g: Grammar<S, K>, ledger: Ledger<K>, sn: Snapshot<S, K>, r: Snapshot<S, K>, k: K, e: Edge<K>, x: LazyState<S>)
    requires k in sn.view && k in r.view && r.view[k].phase.Expanded?
    requires r.view[k].depthMinimum <= sn.view[k].depthMinimum
    requires EdgeTo(g, r.view, e, Some(k), sn.view[k].depthMinimum + 1, x)
    requires Canon(g, sn.view[k].state) == k && Step(g, ledger, sn.view[k].state, x.action, x)
    ensures StepEdge(g, ledger, r.view, e)
  {
    hide Step;
    assert Step(g, ledger, sn.view[k].state, e.action, x) && EdgeTo(g, r.view, e, Some(k), e.depth, x);
  }

  lemma HasEdgeStill<K(!new)>(before: seq<Edge<K>>, after: seq<Edge<K>>, k: K, a: Action, c: K)
    requires HasEdge(before, k, a, c) && |before| <= |after| && after[..|before|] == before
    ensures HasEdge(after, k, a, c)
  {
    var i :| 0 <= i < |before| && before[i].parent == Some(k) && before[i].action == a && before[i].child == c;
    assert after[i] == after[..|before|][i];
  }

  lemma OutgoingStill<S(!new), K(!new)>(
      g: Grammar<S, K>, ledger: Ledger<K>, por: bool, before: seq<Edge<K>>, after: seq<Edge<K>>, k: K, s: LazyState<S>)
    requires Outgoing(g, ledger, por, before, k, s) && |before| <= |after| && after[..|before|] == before
    ensures Outgoing(g, ledger, por, after, k, s)
  {
    hide Step, Redundant, HasEdge, Arrives;
    var o: Origin<S> :| Arrives(g, o, k) && MadeOrRoot(g, o.prev) && Leaves(g, ledger, por, before, k, s, o);
    forall b, x | Step(g, ledger, s, b, x)
      ensures HasEdge(after, k, b, Canon(g, x)) || (por && Redundant(g, o.prev, o.last, b))
    {
      if HasEdge(before, k, b, Canon(g, x)) {
        HasEdgeStill(before, after, k, b, Canon(g, x));
      }
    }
    assert Leaves(g, ledger, por, after, k, s, o);
  }

  /** The expanded record has an edge for every step that was not skipped. */
  lemma GrownOutgoing<S(!new), K(!new)>(
      g: Grammar<S, K>, ledger: Ledger<K>, por: bool, sn: Snapshot<S, K>, r: Snapshot<S, K>, w: Work<S, K>,
      frontier: seq<LazyState<S>>)
    requires Lawful(g, ledger) && w.key in sn.view && Grown(g, sn, r, w.key, frontier) && GenuineWork(g, w)
    requires forall b, x :: Step(g, ledger, sn.view[w.key].state, b, x) ==>
               x in frontier || (por && Redundant(g, OriginOf(w).prev, OriginOf(w).last, b))
    requires forall b, x :: Step(g, ledger, sn.view[w.key].state, b, x) ==> InAlphabet(g, b)
    ensures Outgoing(g, ledger, por, r.edges, w.key, sn.view[w.key].state)
  {
    var k, s, o := w.key, sn.view[w.key].state, OriginOf(w);
    hide Redundant, Arrives, Leads;
    forall b, x | Step(g, ledger, s, b, x)
      ensures HasEdge(r.edges, k, b, Canon(g, x)) || (por && Redundant(g, o.prev, o.last, b))
    {
      if x in frontier {
        var i :| 0 <= i < |frontier| && frontier[i] == x;
        var e := r.edges[|sn.edges| + i];
        assert EdgeTo(g, r.view, e, Some(k), sn.view[k].depthMinimum + 1, frontier[|sn.edges| + i - |sn.edges|]);
        assert x.action == b;
      }
    }
    assert Leaves(g, ledger, por, r.edges, k, s, o);
  }

  lemma GrownOnce<S(!new), K(!new)>(
      g: Grammar<S, K>, ledger: Ledger<K>, sn: Snapshot<S, K>, r: Snapshot<S, K>, k: K, frontier: seq<LazyState<S>>)
    requires k in sn.view && !sn.view[k].phase.Expanded? && Grown(g, sn, r, k, frontier)
    requires EdgesTrue(g, ledger, sn.view, sn.edges) && OncePerStep(sn.edges) && DistinctActions(frontier)
    ensures OncePerStep(r.edges)
  {
    hide Step, Classed;
    var n := |sn.edges|;
    forall i, j | 0 <= i < j < |r.edges| && r.edges[i].parent.Some? && r.edges[i].parent == r.edges[j].parent
      ensures r.edges[i].action != r.edges[j].action
    {
      if i < n {
        assert r.edges[..n][i] == r.edges[i] == sn.edges[i];
        assert i >= |g.initial| ==> StepEdge(g, ledger, sn.view, sn.edges[i]);
      } else {
        assert EdgeTo(g, r.view, r.edges[i], Some(k), sn.view[k].depthMinimum + 1, frontier[i - n]);
      }
      if j < n {
        assert r.edges[..n][j] == r.edges[j] == sn.edges[j];
      } else {
        assert EdgeTo(g, r.view, r.edges[j], Some(k), sn.view[k].depthMinimum + 1, frontier[j - n]);
      }
    }
  }

  /** Every pop keeps the edges true. */
  lemma PopDraws<S(!new), K(!new)>(
      g: Grammar<S, K>, ledger: Ledger<K>, d: Discipline<K>, cfg: Config<S>, sn: Snapshot<S, K>, log: Log<S, K>,
      por: bool)
    requires Lawful(g, ledger) && SearchOk(g, ledger, d, sn, log) && sn.queue != [] && (cfg.por ==> por)
    requires Drawn(g, ledger, por, sn.view, sn.edges)
    ensures sn.queue[0].path != [] && sn.queue[0].states != [] && sn.queue[0].key in sn.view
    ensures Pop(g, cfg, sn).Some? ==>
              Drawn(g, ledger, por, Pop(g, cfg, sn).value.view, Pop(g, cfg, sn).value.edges)
  {
    hide Lawful, SearchOk, GenuineWork, Drawn, Expand;
    HeadFacts(g, ledger, d, sn, log);
    var w := sn.queue[0];
    var node := sn.view[w.key];
    if node.state.terminal {
      MarkDraws(g, ledger, por, sn.view, sn.edges, w.key);
    } else if Pop(g, cfg, sn).Some? {
      ExpandDraws(g, ledger, cfg, sn.(queue := sn.queue[1..]), w, por);
    }
  }

  lemma MarkDraws<S(!new), K(!new)>(
      g: Grammar<S, K>, ledger: Ledger<K>, por: bool, view: map<K, Node<S>>, edges: seq<Edge<K>>, k: K)
    requires Drawn(g, ledger, por, view, edges) && k in view && !view[k].phase.Expanded?
    ensures Drawn(g, ledger, por, SetPhase(view, k, TerminalSeen), edges)
  {
    var after := SetPhase(view, k, TerminalSeen);
    hide EdgeTo, StepEdge, Outgoing, OncePerStep, Frugal;
    forall i | 0 <= i < |edges|
      ensures i < |g.initial| ==> EdgeTo(g, after, edges[i], None, 0, g.initial[i])
      ensures i >= |g.initial| ==> StepEdge(g, ledger, after, edges[i])
    {
      if i < |g.initial| {
        EdgeToMarked(g, view, edges[i], k, TerminalSeen, None, 0, g.initial[i]);
      } else {
        StepEdgeLater(g, ledger, view, after, edges[i]);
      }
    }
  }

  lemma ExpandDraws<S(!new), K(!new)>(
      g: Grammar<S, K>, ledger: Ledger<K>, cfg: Config<S>, sn: Snapshot<S, K>, w: Work<S, K>, por: bool)
    requires Lawful(g, ledger) && GenuineWork(g, w) && w.path != [] && w.states != [] && (cfg.por ==> por)
    requires w.key in sn.view && Canon(g, sn.view[w.key].state) == w.key && g.made(sn.view[w.key].state)
    requires !sn.view[w.key].phase.Expanded? && !sn.view[w.key].state.terminal
    requires Drawn(g, ledger, por, sn.view, sn.edges) && Expand(g, cfg, sn, w).Some?
    ensures Drawn(g, ledger, por, Expand(g, cfg, sn, w).value.view, Expand(g, cfg, sn, w).value.edges)
  {
    var node, r := sn.view[w.key], Expand(g, cfg, sn, w).value;
    assert AppliesPor(g, cfg, node) ==> por;
    var frontier := ExpandGrows(g, cfg, sn, w);
    hide Lawful, GenuineWork, Expand, Children, EdgesTrue, OncePerStep, DistinctActions, Frugal, Outgoing, Step,
      Redundant, InAlphabet, AppliesPor, ChildOk;
    ChildrenExactly(g, ledger, cfg, node, w);
    GrownTrue(g, ledger, sn, r, w.key, frontier);
    GrownOutgoing(g, ledger, por, sn, r, w, frontier);
    if Frugal(g) {
      ChildrenDistinct(g, cfg, node, w) by { assert LegalIsEnabled(g) by { LawfulEnables(g, ledger); } }
      GrownOnce(g, ledger, sn, r, w.key, frontier);
    }
    forall k | k in r.view && r.view[k].phase.Expanded? ensures Outgoing(g, ledger, por, r.edges, k, r.view[k].state) {
      if k != w.key {
        OutgoingStill(g, ledger, por, sn.edges, r.edges, k, sn.view[k].state);
      }
    }
  }

  lemma LawfulEnables<S(!new), K(!new)>(g: Grammar<S, K>, ledger: Ledger<K>)
    requires Lawful(g, ledger)
    ensures LegalIsEnabled(g)
  {}

  // ---------- results ----------

  /** What a search that does not reduce draws, one that may reduce draws. */
  lemma DrawnAnyway<S(!new), K(!new)>(
      g: Grammar<S, K>, ledger: Ledger<K>, view: map<K, Node<S>>, edges: seq<Edge<K>>)
    requires Drawn(g, ledger, false, view, edges)
    ensures Drawn(g, ledger, true, view, edges)
  {
    hide EdgesTrue, OncePerStep, Frugal, Step, HasEdge, Arrives, Redundant;
    forall k | k in view && view[k].phase.Expanded? ensures Outgoing(g, ledger, true, edges, k, view[k].state) {
      assert Outgoing(g, ledger, false, edges, k, view[k].state);
      var o: Origin<S> :| && Arrives(g, o, k) && MadeOrRoot(g, o.prev)
                          && Leaves(g, ledger, false, edges, k, view[k].state, o);
      assert Leaves(g, ledger, true, edges, k, view[k].state, o);
    }
  }

  /** In a finished table drawn without reduction, every step out of a recorded form has an edge. */
  lemma EveryStepHasAnEdge<S(!new), K(!new)>(
      g: Grammar<S, K>, ledger: Ledger<K>, view: map<K, Node<S>>, edges: seq<Edge<K>>, k: K, b: Action,
      x: LazyState<S>)
    requires Drawn(g, ledger, false, view, edges) && Settled(view) && k in view && Step(g, ledger, view[k].state, b, x)
    ensures HasEdge(edges, k, b, Canon(g, x))
  {
    hide EdgesTrue, OncePerStep, Frugal, HasEdge, Arrives, Redundant;
    assert Outgoing(g, ledger, false, edges, k, view[k].state);
    var o: Origin<S> :| && Arrives(g, o, k) && MadeOrRoot(g, o.prev)
                        && Leaves(g, ledger, false, edges, k, view[k].state, o);
  }
}

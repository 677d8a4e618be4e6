/** The projection of a canonical search result to the older trace format: one node for each edge. */
module Projection {
  import opened Grammars
  import opened Exploration
  import opened Completeness
  import opened Accounting
  import opened Engine
  import opened Soundness
  import opened Transitions
  import Interning

  /** `edge` is the edge the node stands for; a node without an owner is the form's own node. */
  datatype TraceNode<+K> = TraceNode(form: K, parent: Option<K>, depth: nat, owner: Option<K>, edge: nat)

  /** What a node says is what its edge says; the edges that created a form give the form's own node. A
      duplicate has the depth of its edge. */
  ghost predicate Reflects<K(!new)>(edges: seq<Edge<K>>, n: TraceNode<K>) {
    && n.edge < |edges| && n.form == edges[n.edge].child && n.parent == edges[n.edge].parent
    && (n.owner.None? <==> edges[n.edge].disposition.NewState?)
    && (n.owner.Some? ==> n.owner.value == n.form && n.depth == edges[n.edge].depth)
  }

  ghost predicate Once<K(!new)>(nodes: seq<TraceNode<K>>) {
    forall i, j :: 0 <= i < j < |nodes| ==> nodes[i].edge != nodes[j].edge
  }

  ghost predicate HasNode<K(!new)>(nodes: seq<TraceNode<K>>, edge: nat) {
    exists i :: 0 <= i < |nodes| && nodes[i].edge == edge
  }

  /** A form's own node has the least depth at which the form was found. */
  ghost predicate Shallowest<S(!new), K(!new)>(r: SearchResult<S, K>, n: TraceNode<K>) {
    n.owner.None? ==> n.form in ViewOf(r.records) && n.depth == ViewOf(r.records)[n.form].depthMinimum
  }

  /** The edge that created the `k`-th record. */
  ghost predicate Created<S(!new), K(!new)>(r: SearchResult<S, K>, k: nat, edge: nat)
    requires k < |r.records|
  {
    && r.records[k].1.parents != [] && r.records[k].1.parents[0] == edge && edge < |r.edges|
    && r.edges[edge].child == r.records[k].0 && r.edges[edge].disposition.NewState?
  }

  lemma RecordHasEdge<S(!new), K(!new)>(r: SearchResult<S, K>, k: nat)
    requires Lists(r.records, ViewOf(r.records)) && Balanced(Ended(r), 0) && k < |r.records|
    ensures r.records[k].1.parents != [] && Created(r, k, r.records[k].1.parents[0])
  {
    var (form, node) := r.records[k];
    assert r.records[k] in r.records;
    assert form in ViewOf(r.records) && ViewOf(r.records)[form] == node;
    assert ParentsOk(r.edges, form, node);
    hide ViewOf, Lists, Totals, EdgeOk;
    assert node.parents[0] in node.parents;
  }

  lemma RecordIsViewed<S(!new), K(!new)>(r: SearchResult<S, K>, k: nat)
    requires Lists(r.records, ViewOf(r.records)) && k < |r.records|
    ensures r.records[k].0 in ViewOf(r.records) && ViewOf(r.records)[r.records[k].0] == r.records[k].1
  {
    hide ViewOf;
    assert r.records[k] in r.records;
  }

  lemma RecordsDiffer<S(!new), K(!new)>(r: SearchResult<S, K>, i: nat, k: nat)
    requires Lists(r.records, ViewOf(r.records)) && i < k < |r.records|
    ensures r.records[i].0 != r.records[k].0
  {
    DistinctRecords(r.records, ViewOf(r.records));
  }

  lemma NewHasRecord<S(!new), K(!new)>(r: SearchResult<S, K>, e: nat) returns (k: nat)
    requires Lists(r.records, ViewOf(r.records)) && Balanced(Ended(r), 0)
    requires e < |r.edges| && r.edges[e].disposition.NewState?
    ensures k < |r.records| && Created(r, k, e)
  {
    var form := r.edges[e].child;
    assert EdgeOk(ViewOf(r.records), r.edges[e], e);
    var record :| record in r.records && record.0 == form;
    k :| 0 <= k < |r.records| && r.records[k] == record;
    RecordHasEdge(r, k);
    assert ViewOf(r.records)[form] == record.1;
    assert ParentsOk(r.edges, form, record.1);
  }

  /** The nodes of the records, in any order of the records. */
  method OwnNodes<S(!new), K(!new, ==)>(r: SearchResult<S, K>) returns (nodes: seq<TraceNode<K>>)
    requires Lists(r.records, ViewOf(r.records)) && Balanced(Ended(r), 0)
    ensures |nodes| == |r.records| && Once(nodes)
    ensures forall k :: 0 <= k < |nodes| ==>
        nodes[k].owner.None? && Reflects(r.edges, nodes[k]) && Created(r, k, nodes[k].edge) && Shallowest(r, nodes[k])
  {
    hide Lists, Balanced, Ended, ViewOf;
    nodes := [];
    for k := 0 to |r.records|
      invariant |nodes| == k && Once(nodes)
      invariant forall i :: 0 <= i < k ==>
          && nodes[i].owner.None? && Reflects(r.edges, nodes[i]) && Created(r, i, nodes[i].edge)
          && Shallowest(r, nodes[i])
    {
      RecordHasEdge(r, k);
      var (form, node) := r.records[k];
      var own := TraceNode(form, r.edges[node.parents[0]].parent, node.depthMinimum, None, node.parents[0]);
      RecordIsViewed(r, k);
      forall i | 0 <= i < k ensures nodes[i].edge != own.edge {
        RecordsDiffer(r, i, k);
        assert Created(r, i, nodes[i].edge);
      }
      nodes := nodes + [own];
    }
  }

  lemma {:induction false} AllEdges<K(!new)>(nodes: seq<TraceNode<K>>, n: nat)
    requires Once(nodes) && (forall i :: 0 <= i < |nodes| ==> nodes[i].edge < n) && forall e :: 0 <= e < n ==>
        HasNode(nodes, e)
    ensures |nodes| == n
  {
    var edges := seq(|nodes|, i requires 0 <= i < |nodes| => nodes[i].edge);
    var all := seq(n, i => i);
    Interning.DistinctLength(edges);
    Interning.DistinctLength(all);
    forall e: nat ensures e in edges <==> e in all {
      if e in all {
        assert HasNode(nodes, e);
        var i :| 0 <= i < |nodes| && nodes[i].edge == e;
        assert edges[i] == e;
      }
      if e in edges {
        var i :| 0 <= i < |edges| && edges[i] == e;
        assert all[e] == e;
      }
    }
    assert Interning.Elements(edges) == Interning.Elements(all);
  }

  /** One node for each edge: the form's own node for the edge that created it, a duplicate that names
      its owner for every other. */
  method CanonicalToLazy<S(!new), K(!new, ==)>(r: SearchResult<S, K>) returns (nodes: seq<TraceNode<K>>)
    requires Lists(r.records, ViewOf(r.records)) && Balanced(Ended(r), 0)
    ensures |nodes| == |r.edges| && Once(nodes)
    ensures forall i :: 0 <= i < |nodes| ==> Reflects(r.edges, nodes[i]) && Shallowest(r, nodes[i])
    ensures forall e :: 0 <= e < |r.edges| ==> HasNode(nodes, e)
  {
    nodes := OwnNodes(r);
    ghost var own := |nodes|;
    hide Lists, Balanced, Ended, ViewOf;
    for e := 0 to |r.edges|
      invariant Partial(r, own, nodes, e) && forall x :: 0 <= x < e ==> HasNode(nodes, x)
    {
      ghost var before := nodes;
      if r.edges[e].disposition.NewState? {
        NewIsThere(r, own, nodes, e);
      } else {
        nodes := nodes + [Duplicate(r.edges[e], e)];
        DuplicateKeeps(r, own, before, e);
      }
    }
    AllEdges(nodes, |r.edges|);
  }

  function Duplicate<K>(edge: Edge<K>, e: nat): TraceNode<K> {
    TraceNode(edge.child, edge.parent, edge.depth, Some(edge.child), e)
  }

  /** The first `own` nodes are those of the records, the others duplicates of edges before `e`. */
  ghost predicate Partial<S(!new), K(!new)>(r: SearchResult<S, K>, own: nat, nodes: seq<TraceNode<K>>, e: nat) {
    && own == |r.records| <= |nodes| && Once(nodes)
    && (forall i :: 0 <= i < |nodes| ==> Reflects(r.edges, nodes[i]) && Shallowest(r, nodes[i]))
    && (forall i :: own <= i < |nodes| ==> nodes[i].owner.Some? && nodes[i].edge < e)
    && (forall k :: 0 <= k < own ==> nodes[k].owner.None? && Created(r, k, nodes[k].edge))
  }

  lemma NewIsThere<S(!new), K(!new)>(r: SearchResult<S, K>, own: nat, nodes: seq<TraceNode<K>>, e: nat)
    requires Lists(r.records, ViewOf(r.records)) && Balanced(Ended(r), 0) && Partial(r, own, nodes, e)
    requires e < |r.edges| && r.edges[e].disposition.NewState?
    ensures HasNode(nodes, e) && Partial(r, own, nodes, e + 1)
  {
    hide Lists, Balanced, Ended, ViewOf, Reflects, Shallowest;
    var k := NewHasRecord(r, e);
    assert Created(r, k, nodes[k].edge);
    assert nodes[k].edge == e;
  }

  lemma DuplicateKeeps<S(!new), K(!new)>(r: SearchResult<S, K>, own: nat, nodes: seq<TraceNode<K>>, e: nat)
    requires Partial(r, own, nodes, e) && e < |r.edges| && !r.edges[e].disposition.NewState?
    ensures Partial(r, own, nodes + [Duplicate(r.edges[e], e)], e + 1)
    ensures HasNode(nodes + [Duplicate(r.edges[e], e)], e)
    ensures forall x :: HasNode(nodes, x) ==> HasNode(nodes + [Duplicate(r.edges[e], e)], x)
  {
    var more := nodes + [Duplicate(r.edges[e], e)];
    assert more[|nodes|].edge == e;
    forall x | HasNode(nodes, x) ensures HasNode(more, x) {
      var i :| 0 <= i < |nodes| && nodes[i].edge == x;
      assert more[i] == nodes[i];
    }
    forall i | 0 <= i < |nodes| ensures nodes[i].edge != e {
      assert Reflects(r.edges, nodes[i]);
    }
  }

  /** Following parents leads from younger edges to older ones, so it ends: the trace is a forest. */
  lemma ParentIsOlder<S(!new), K(!new)>(r: SearchResult<S, K>, nodes: seq<TraceNode<K>>, n: TraceNode<K>)
        returns (m: TraceNode<K>)
    requires Lists(r.records, ViewOf(r.records)) && Balanced(Ended(r), 0)
    requires (forall i :: 0 <= i < |nodes| ==> Reflects(r.edges, nodes[i])) && forall e :: 0 <= e < |r.edges| ==>
        HasNode(nodes, e)
    requires n in nodes && n.parent.Some?
    ensures m in nodes && m.form == n.parent.value && m.owner.None? && m.edge < n.edge
  {
    var view, p := ViewOf(r.records), n.parent.value;
    assert EdgeOk(view, r.edges[n.edge], n.edge);
    assert ParentsOk(r.edges, p, view[p]);
    hide ViewOf, Lists, Totals, EdgeOk;
    var first := view[p].parents[0];
    assert first in view[p].parents;
    assert HasNode(nodes, first);
    var i :| 0 <= i < |nodes| && nodes[i].edge == first;
    m := nodes[i];
  }

  /** The trace is one of the grammar: a node without a parent stands for an initial state, and every other
      for a step from its parent's form. */
  lemma TraceFollowsTheGrammar<S(!new), K(!new)>(
      g: Grammar<S, K>, ledger: Ledger<K>, level: Option<K -> nat>, r: SearchResult<S, K>, n: TraceNode<K>)
    requires ValidResult(g, ledger, level, r) && Reflects(r.edges, n)
    ensures n.parent.None? <==> n.edge < |g.initial|
    ensures n.parent.None? ==> Canon(g, g.initial[n.edge]) == n.form
    ensures n.parent.Some? ==> exists s, a, t ::
        Step(g, ledger, s, a, t) && Canon(g, s) == n.parent.value && Canon(g, t) == n.form
  {
    hide Lists, Balanced, Resumable, ViewOf, AllOutgoing, OncePerStep, Frugal, Step, Classed;
    var (view, e) := (ViewOf(r.records), r.edges[n.edge]);
    if n.edge < |g.initial| {
      assert EdgeTo(g, view, e, None, 0, g.initial[n.edge]);
    } else {
      assert StepEdge(g, ledger, view, e);
      var s, t :| Step(g, ledger, s, e.action, t) && EdgeTo(g, view, e, Some(Canon(g, s)), e.depth, t);
    }
  }

  /** Each form has exactly one node of its own. */
  lemma OneOwner<S(!new), K(!new)>(r: SearchResult<S, K>, nodes: seq<TraceNode<K>>, i: nat, j: nat)
    requires Lists(r.records, ViewOf(r.records)) && Balanced(Ended(r), 0) && Once(nodes)
    requires forall i :: 0 <= i < |nodes| ==> Reflects(r.edges, nodes[i])
    requires i < |nodes| && j < |nodes| && nodes[i].owner.None? && nodes[j].owner.None?
        && nodes[i].form == nodes[j].form
    ensures i == j
  {
    var view, k := ViewOf(r.records), nodes[i].form;
    assert EdgeOk(view, r.edges[nodes[i].edge], nodes[i].edge);
    assert ParentsOk(r.edges, k, view[k]);
    hide ViewOf, Lists, Totals, EdgeOk;
    assert nodes[i].edge == view[k].parents[0] == nodes[j].edge;
  }
}

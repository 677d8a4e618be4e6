/** The dependency graph of a set of actions and its topological order. */
module DependencyOrder {
  import opened Actions
  import opened Grammars

  datatype Requirements = Requirements(keys: set<string>, edges: set<(string, string)>)

  predicate WellFormed(g: Requirements) {
    forall e <- g.edges :: e.0 in g.keys && e.1 in g.keys
  }

  /** A need for a key no listed action has is dropped. */
  function Build(actions: seq<Action>): (g: Requirements)
    ensures WellFormed(g)
  {
    Requirements(Keys(actions), set a, need | a in actions && need in a.footprint.needs && need in Keys(actions) ::
      (need, a.key))
  }

  /** The edges are the declared needs between listed actions. */
  lemma BuildIs(actions: seq<Action>, need: string, k: string)
    ensures (need, k) in Build(actions).edges <==>
            (exists a <- actions :: a.key == k && need in a.footprint.needs) && exists b <- actions :: b.key == need
  {
    assert need in Keys(actions) <==> exists b <- actions :: b.key == need;
    if (exists a <- actions :: a.key == k && need in a.footprint.needs) && need in Keys(actions) {
      var a :| a in actions && a.key == k && need in a.footprint.needs;
      assert (need, a.key) in Build(actions).edges;
    }
  }

  // ---------- cycles and orders ----------

  ghost predicate Walk(g: Requirements, w: seq<string>) {
    forall i :: 0 <= i < |w| - 1 ==> (w[i], w[i + 1]) in g.edges
  }

  ghost predicate Cycle(g: Requirements, w: seq<string>) {
    |w| > 1 && Walk(g, w) && w[0] == w[|w| - 1]
  }

  ghost predicate Cyclic(g: Requirements) {
    exists w :: Cycle(g, w)
  }

  predicate Distinct(s: seq<string>) {
    forall i, j :: 0 <= i < j < |s| ==> s[i] != s[j]
  }

  /** What the keys of an order need comes before them. */
  ghost predicate NeedsFirst(g: Requirements, order: seq<string>) {
    forall e, i :: e in g.edges && 0 <= i < |order| && order[i] == e.1 ==> e.0 in order[..i]
  }

  ghost predicate Sorts(g: Requirements, order: seq<string>) {
    Distinct(order) && (forall k :: k in order <==> k in g.keys) && NeedsFirst(g, order)
  }

  predicate Fed(g: Requirements, s: set<string>, k: string) {
    exists p :: p in s && (p, k) in g.edges
  }

  lemma DistinctAppend(s: seq<string>, k: string)
    requires Distinct(s) && k !in s
    ensures Distinct(s + [k])
  {
  }

  lemma {:induction false} DistinctFits(w: seq<string>, s: set<string>)
    requires Distinct(w) && forall k <- w :: k in s
    ensures |w| <= |s|
    decreases |w|
  {
    if w != [] {
      var last := w[|w| - 1];
      DistinctFits(w[..|w| - 1], s - {last});
    }
  }

  /** Nodes that each have a predecessor among themselves have walks of every length. */
  lemma {:induction false} LongWalk(g: Requirements, s: set<string>, n: nat) returns (w: seq<string>)
    requires s != {} && forall k <- s :: Fed(g, s, k)
    ensures |w| == n + 1 && Walk(g, w) && forall k <- w :: k in s
    decreases n
  {
    if n == 0 {
      var k :| k in s;
      w := [k];
    } else {
      var v := LongWalk(g, s, n - 1);
      assert v[0] in s && Fed(g, s, v[0]);
      var p :| p in s && (p, v[0]) in g.edges;
      w := [p] + v;
      forall i | 0 <= i < |w| - 1 ensures (w[i], w[i + 1]) in g.edges {
        if i > 0 {
          assert w[i] == v[i - 1] && w[i + 1] == v[i];
        }
      }
      hide Fed;
    }
  }

  /** Keys that all wait for one another hold a cycle. */
  lemma StuckIsCyclic(g: Requirements, s: set<string>)
    requires s != {} && forall k <- s :: Fed(g, s, k)
    ensures Cyclic(g)
  {
    var w := LongWalk(g, s, |s|);
    if Distinct(w) {
      DistinctFits(w, s);
    } else {
      var i, j :| 0 <= i < j < |w| && w[i] == w[j];
      hide Fed;
      var c := w[i..j + 1];
      assert forall k :: 0 <= k < |c| ==> c[k] == w[i + k];
      assert Cycle(g, c);
    }
  }

  /** A graph with a topological order has no cycle: along one the position would keep growing. */
  lemma SortedIsAcyclic(g: Requirements, order: seq<string>)
    requires WellFormed(g) && Sorts(g, order)
    ensures !Cyclic(g)
  {
    if Cyclic(g) {
      var w :| Cycle(g, w);
      var i := |w| - 1;
      assert (w[0], w[1]) in g.edges;
      var first :| 0 <= first < |order| && order[first] == w[i];
      var at := first;
      while i > 0
        invariant 0 <= i < |w| && 0 <= at <= first && order[at] == w[i]
        invariant i < |w| - 1 ==> at < first
      {
        i := i - 1;
        assert (w[i], w[i + 1]) in g.edges;
        assert w[i] in order[..at];
        at :| 0 <= at < |order| && at < first && order[at] == w[i];
      }
    }
  }

  // ---------- the sort ----------

  /** The elements in some order without repetition; the source uses the sorted one. */
  method Listed(s: set<string>) returns (r: seq<string>)
    ensures Distinct(r) && forall k :: k in r <==> k in s
  {
    r := [];
    var left := s;
    while left != {}
      invariant left <= s && Distinct(r) && forall k :: k in r <==> k in s - left
      decreases left
    {
      var k :| k in left;
      DistinctAppend(r, k);
      r, left := r + [k], left - {k};
    }
  }

  function Dependents(g: Requirements, k: string): set<string> {
    set e | e in g.edges && e.0 == k :: e.1
  }

  lemma DependentsAre(g: Requirements, k: string, t: string)
    ensures t in Dependents(g, k) <==> (k, t) in g.edges
  {
    if (k, t) in g.edges {
      assert (k, t).0 == k && (k, t).1 == t;
    }
  }

  /** The keys that wait for nothing are the placed and the ready ones. */
  ghost predicate Freed(incoming: map<string, set<string>>, free: seq<string>) {
    Distinct(free) && forall k :: k in free <==> k in incoming && incoming[k] == {}
  }

  function Released(incoming: map<string, set<string>>, key: string, need: string): map<string, set<string>>
    requires key in incoming
  {
    incoming[key := incoming[key] - {need}]
  }

  lemma ReleaseKeeps(incoming: map<string, set<string>>, free: seq<string>, key: string, need: string)
    requires Freed(incoming, free) && key in incoming && need in incoming[key]
    ensures Freed(Released(incoming, key, need), if incoming[key] - {need} == {} then free + [key] else free)
  {
    DistinctAppend(free, key);
  }

  /** A ready key was not placed before, and all it needs was. */
  lemma PlaceNext(g: Requirements, order: seq<string>, ready: seq<string>, incoming: map<string, set<string>>)
    requires ready != [] && Freed(incoming, order + ready) && NeedsFirst(g, order)
    requires forall k <- incoming, p :: p in incoming[k] <==> (p, k) in g.edges && p !in order
    ensures ready[0] !in order && NeedsFirst(g, order + [ready[0]])
  {
    var free := order + ready;
    var k := ready[0];
    assert free[|order|] == k;
    assert k in free;
    forall i | 0 <= i < |order| ensures order[i] != k {
      assert free[i] == order[i];
    }
    var longer := order + [k];
    forall e, i | e in g.edges && 0 <= i < |longer| && longer[i] == e.1 ensures e.0 in longer[..i] {
      if i < |order| {
        assert longer[..i] == order[..i];
      } else {
        assert longer[..i] == order;
        assert e.0 !in incoming[k];
      }
    }
  }

  lemma PlacedFit(g: Requirements, order: seq<string>, ready: seq<string>, incoming: map<string, set<string>>)
    requires Freed(incoming, order + ready) && incoming.Keys == g.keys
    ensures |order| + |ready| <= |g.keys|
  {
    DistinctFits(order + ready, g.keys);
  }

  class DependencySort {
    const graph: Requirements
    var incoming: map<string, set<string>>
    var ready: seq<string>
    var order: seq<string>

    /** A key waits for what it needs and is not placed yet. */
    ghost predicate Waits()
      reads this
    {
      && incoming.Keys == graph.keys
      && forall k <- incoming, p :: p in incoming[k] <==> (p, k) in graph.edges && p !in order
    }

    ghost predicate Valid()
      reads this
    {
      WellFormed(graph) && Waits() && Freed(incoming, order + ready) && NeedsFirst(graph, order)
    }

    constructor (g: Requirements)
      requires WellFormed(g)
      ensures graph == g && Valid() && order == []
    {
      graph, order := g, [];
      incoming := map k | k in g.keys :: set e | e in g.edges && e.1 == k :: e.0;
      new;
      ready := Listed(set k | k in g.keys && incoming[k] == {});
      assert order + ready == ready;
    }

    /** Places the first ready key and releases those that waited for it. */
    method Place()
      requires Valid() && ready != []
      modifies this
      ensures Valid() && order == old(order) + [old(ready[0])]
    {
      ghost var before := incoming;
      var current := ready[0];
      PlaceNext(graph, order, ready, incoming);
      ready, order := ready[1..], order + [current];
      assert order + ready == old(order + ready);
      forall k | k in Dependents(graph, current) ensures k in incoming && current in incoming[k] {
        DependentsAre(graph, current, k);
      }
      Release(current);
      forall k, p | k in incoming ensures p in incoming[k] <==> (p, k) in graph.edges && p !in order {
        DependentsAre(graph, current, k);
      }
    }

    method Release(current: string)
      requires Freed(incoming, order + ready)
      requires forall k <- Dependents(graph, current) :: k in incoming && current in incoming[k]
      modifies `incoming, `ready
      ensures incoming.Keys == old(incoming.Keys) && Freed(incoming, order + ready)
      ensures forall k <- incoming ::
        incoming[k] == if k in Dependents(graph, current) then old(incoming)[k] - {current} else old(incoming)[k]
    {
      ghost var before := incoming;
      var targets := Listed(Dependents(graph, current));
      hide Dependents, Freed;
      for i := 0 to |targets|
        invariant incoming.Keys == before.Keys && Freed(incoming, order + ready)
        invariant forall k <- incoming :: incoming[k] == if k in targets[..i] then before[k] - {current} else before[k]
      {
        var target := targets[i];
        assert target in targets && target !in targets[..i];
        ReleaseKeeps(incoming, order + ready, target, current);
        incoming := Released(incoming, target, current);
        if incoming[target] == {} {
          assert order + (ready + [target]) == order + ready + [target];
          ready := ready + [target];
        }
      }
      assert targets[..|targets|] == targets;
    }
  }

  lemma DistinctFills(w: seq<string>, s: set<string>)
    requires Distinct(w) && (forall k <- w :: k in s) && |w| == |s|
    ensures forall k <- s :: k in w
  {
    forall k | k in s ensures k in w {
      if k !in w {
        DistinctFits(w, s - {k});
      }
    }
  }

  /** When nothing is ready, either every key is placed or the others wait for one another. */
  lemma Stuck(g: Requirements, order: seq<string>, incoming: map<string, set<string>>)
    requires WellFormed(g) && incoming.Keys == g.keys && Freed(incoming, order) && NeedsFirst(g, order)
    requires forall k <- incoming, p :: p in incoming[k] <==> (p, k) in g.edges && p !in order
    ensures |order| == |g.keys| ==> Sorts(g, order)
    ensures |order| != |g.keys| ==> Cyclic(g)
  {
    if |order| == |g.keys| {
      DistinctFills(order, g.keys);
    } else {
      var s := set k | k in g.keys && k !in order;
      DistinctFits(order, g.keys);
      if s == {} {
        assert forall k <- g.keys :: k in order;
        OrderIsAll(order, g.keys);
      }
      forall k | k in s ensures Fed(g, s, k) {
        var p :| p in incoming[k];
        assert (p, k) in g.edges;
      }
      StuckIsCyclic(g, s);
    }
  }

  lemma {:induction false} OrderIsAll(order: seq<string>, s: set<string>)
    requires forall k <- s :: k in order
    ensures |s| <= |order|
    decreases |order|
  {
    if order != [] {
      var last := order[|order| - 1];
      OrderIsAll(order[..|order| - 1], s - {last});
    } else {
      assert s == {};
    }
  }

  /** A topological order of all keys, or none exactly when the requirements are cyclic. */
  method TopologicalOrder(g: Requirements) returns (r: Option<seq<string>>)
    requires WellFormed(g)
    ensures r.Some? ==> Sorts(g, r.value)
    ensures r.None? <==> Cyclic(g)
  {
    var sort := new DependencySort(g);
    hide Sorts, Cyclic, NeedsFirst, Freed;
    PlacedFit(g, sort.order, sort.ready, sort.incoming);
    while sort.ready != []
      invariant sort.graph == g && sort.Valid() && |sort.order| + |sort.ready| <= |g.keys|
      decreases |g.keys| - |sort.order|
    {
      sort.Place();
      PlacedFit(g, sort.order, sort.ready, sort.incoming);
    }
    assert sort.order + sort.ready == sort.order;
    Stuck(g, sort.order, sort.incoming);
    if |sort.order| == |g.keys| {
      SortedIsAcyclic(g, sort.order);
      r := Some(sort.order);
    } else {
      r := None;
    }
  }
}

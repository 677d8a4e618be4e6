/** The largest strongly connected component, by the depth-first search the source runs: recursion,
    one shared stack, discovery indices and low links. */
module Tarjan {

  type Graph = seq<seq<nat>>

  ghost predicate InRange(g: Graph) {
    forall v, i :: 0 <= v < |g| && 0 <= i < |g[v]| ==> g[v][i] < |g|
  }

  predicate Edge(g: Graph, x: nat, y: nat) {
    x < |g| && y in g[x]
  }

  // ---------- reachability ----------

  ghost predicate Path(g: Graph, p: seq<nat>) {
    p != [] && forall i :: 0 <= i < |p| - 1 ==> Edge(g, p[i], p[i + 1])
  }

  ghost predicate Reach(g: Graph, x: nat, y: nat) {
    exists p :: Path(g, p) && p[0] == x && p[|p| - 1] == y
  }

  lemma ReachSelf(g: Graph, x: nat)
    ensures Reach(g, x, x)
  {
    assert Path(g, [x]);
  }

  lemma ReachEdge(g: Graph, x: nat, y: nat)
    requires Edge(g, x, y)
    ensures Reach(g, x, y)
  {
    assert Path(g, [x, y]);
  }

  lemma ReachTransitive(g: Graph, x: nat, y: nat, z: nat)
    requires Reach(g, x, y) && Reach(g, y, z)
    ensures Reach(g, x, z)
  {
    var p :| Path(g, p) && p[0] == x && p[|p| - 1] == y;
    var q :| Path(g, q) && q[0] == y && q[|q| - 1] == z;
    var r := p + q[1..];
    forall i | 0 <= i < |r| - 1 ensures Edge(g, r[i], r[i + 1]) {
      if i >= |p| - 1 {
        assert r[i] == q[i - (|p| - 1)] && r[i + 1] == q[i + 1 - (|p| - 1)];
      }
    }
    assert Path(g, r);
  }

  ghost predicate Closed(g: Graph, s: set<nat>) {
    forall x, y :: x in s && Edge(g, x, y) ==> y in s
  }

  /** Nothing leaves a closed set. */
  lemma {:induction false} ClosedReach(g: Graph, s: set<nat>, x: nat, y: nat)
    requires Closed(g, s) && x in s && Reach(g, x, y)
    ensures y in s
  {
    var p :| Path(g, p) && p[0] == x && p[|p| - 1] == y;
    var i := 0;
    while i < |p| - 1
      invariant 0 <= i <= |p| - 1 && p[i] in s
    {
      assert Edge(g, p[i], p[i + 1]);
      i := i + 1;
    }
  }

  /** A strongly connected component: mutually reachable and maximal. */
  ghost predicate Component(g: Graph, c: set<nat>) {
    && c != {} && (forall x <- c :: x < |g|)
    && (forall x, y :: x in c && y in c ==> Reach(g, x, y))
    && (forall x, y :: x in c && Reach(g, x, y) && Reach(g, y, x) ==> y in c)
  }

  // ---------- the state of the search ----------

  /** The search variables, with the nodes whose visit is under way and the groups popped so far. */
  datatype Dfs = Dfs(
    index: nat, stack: seq<nat>, onStack: set<nat>, indices: seq<int>, low: seq<int>, largest: nat,
    gray: set<nat>, groups: set<set<nat>>, settled: set<nat>)

  predicate Visited(d: Dfs, v: nat) {
    v < |d.indices| && d.indices[v] >= 0
  }

  ghost predicate IndicesOk(g: Graph, d: Dfs) {
    && |d.indices| == |d.low| == |g|
    && (forall v: nat :: Visited(d, v) ==> d.indices[v] < d.index)
    && (forall v: nat, w: nat :: Visited(d, v) && Visited(d, w) && d.indices[v] == d.indices[w] ==> v == w)
    && (forall v: nat :: Visited(d, v) <==> v in d.onStack || v in d.settled)
    && d.onStack !! d.settled
  }

  ghost predicate StackOk(d: Dfs) {
    && (forall v: nat :: v in d.stack <==> v in d.onStack)
    && (forall i :: 0 <= i < |d.stack| ==> Visited(d, d.stack[i]))
    && (forall i, j :: 0 <= i < j < |d.stack| ==> d.indices[d.stack[i]] < d.indices[d.stack[j]])
    && d.gray <= d.onStack
  }

  /** Earlier nodes of the stack reach later ones. */
  ghost predicate ChainOk(g: Graph, d: Dfs) {
    forall i, j :: 0 <= i <= j < |d.stack| ==> Reach(g, d.stack[i], d.stack[j])
  }

  /** `y` can get back to a node whose visit is under way, no younger than itself. */
  ghost predicate GetsBack(g: Graph, d: Dfs, y: nat)
    requires Visited(d, y)
  {
    exists x :: x in d.gray && Visited(d, x) && d.indices[x] <= d.indices[y] && Reach(g, y, x)
  }

  ghost predicate BackOk(g: Graph, d: Dfs) {
    forall y: nat :: y in d.onStack && Visited(d, y) ==> GetsBack(g, d, y)
  }

  ghost predicate EdgesOk(g: Graph, d: Dfs) {
    && (forall x: nat, y: nat :: Visited(d, x) && x !in d.gray && Edge(g, x, y) ==> Visited(d, y))
    && Closed(g, d.settled)
  }

  ghost predicate IsLargest(groups: set<set<nat>>, n: nat) {
    && (forall c <- groups :: |c| <= n)
    && (if groups == {} then n == 0 else exists c :: c in groups && |c| == n)
  }

  ghost predicate InSome(groups: set<set<nat>>, v: nat) {
    exists c :: c in groups && v in c
  }

  ghost predicate Covers(groups: set<set<nat>>, s: set<nat>) {
    forall v <- s :: InSome(groups, v)
  }

  /** The popped groups are components, they make up the settled nodes, and `largest` is their
      greatest size. */
  ghost predicate GroupsOk(g: Graph, d: Dfs) {
    && (forall c <- d.groups :: Component(g, c) && c <= d.settled)
    && Covers(d.groups, d.settled) && IsLargest(d.groups, d.largest)
  }

  ghost predicate Inv(g: Graph, d: Dfs) {
    IndicesOk(g, d) && StackOk(d) && ChainOk(g, d) && BackOk(g, d) && EdgesOk(g, d) && GroupsOk(g, d)
  }

  /** What a visit leaves alone. */
  ghost predicate Extends(before: Dfs, after: Dfs) {
    && |after.indices| == |after.low| == |before.low| == |before.indices|
    && before.index <= after.index
    && before.stack <= after.stack && before.settled <= after.settled && before.groups <= after.groups
    && (forall v: nat :: Visited(before, v) ==>
        Visited(after, v) && after.indices[v] == before.indices[v] && after.low[v] == before.low[v])
    && (forall v: nat :: v in after.onStack && Visited(before, v) ==> v in before.onStack)
  }

  /** `n` is at most the index of every node of the stack below `base` that an edge from a node at
      or above `from` enters. */
  ghost predicate BoundsExits(g: Graph, from: nat, base: nat, d: Dfs, n: int)
    requires StackOk(d)
  {
    forall i, j :: from <= i < |d.stack| && 0 <= j < base && j < i && Edge(g, d.stack[i], d.stack[j]) ==>
      n <= d.indices[d.stack[j]]
  }

  /** `n` is the index of a node still on the stack that `x` reaches. */
  ghost predicate LowIsReached(g: Graph, d: Dfs, x: nat, n: int) {
    exists y :: y in d.onStack && Visited(d, y) && d.indices[y] == n && Reach(g, x, y)
  }

  /** What a finished visit of `x` says about it: either its whole group has been popped, or it is on
      the stack and its low link is below its index and bounds every way out of the new part. */
  ghost predicate Finished(g: Graph, before: Dfs, d: Dfs, x: nat)
    requires StackOk(d) && |d.low| == |d.indices|
  {
    && Visited(d, x) && d.indices[x] == before.index
    && (x !in d.onStack ==> d.stack == before.stack && d.low[x] == d.indices[x])
    && (x in d.onStack ==>
        d.low[x] < d.indices[x] && LowIsReached(g, d, x, d.low[x])
        && BoundsExits(g, |before.stack|, |before.stack|, d, d.low[x]))
  }

  /** All a finished visit promises its caller. */
  ghost predicate Closes(g: Graph, before: Dfs, d: Dfs, x: nat) {
    Inv(g, d) && Extends(before, d) && d.gray == before.gray && |d.low| == |d.indices| && Finished(g, before, d, x)
  }

  // ---------- opening a visit ----------

  function Opened(d: Dfs, node: nat): Dfs
    requires node < |d.indices| == |d.low|
  {
    d.(index := d.index + 1, stack := d.stack + [node], onStack := d.onStack + {node},
       indices := d.indices[node := d.index], low := d.low[node := d.index], gray := d.gray + {node})
  }

  ghost predicate Callable(g: Graph, d: Dfs, node: nat) {
    && Inv(g, d) && node < |g| && !Visited(d, node)
    && forall x <- d.gray :: Reach(g, x, node)
  }

  /** The stack still leads to a node that every open visit reaches. */
  lemma OpenedChain(g: Graph, d: Dfs, node: nat)
    requires Callable(g, d, node)
    ensures ChainOk(g, Opened(d, node))
  {
    hide EdgesOk, GroupsOk, Edge, Path, Reach;
    var e := Opened(d, node);
    forall i, j | 0 <= i <= j < |e.stack| ensures Reach(g, e.stack[i], e.stack[j]) {
      if j == |d.stack| {
        if i == j {
          ReachSelf(g, node);
        } else {
          var x := d.stack[i];
          assert x in d.onStack && GetsBack(g, d, x);
          var y :| y in d.gray && Visited(d, y) && d.indices[y] <= d.indices[x] && Reach(g, x, y);
          ReachTransitive(g, x, y, node);
        }
      }
    }
  }

  /** Having a way back outlives any step that keeps the old indices and open visits. */
  lemma BackLasts(g: Graph, d: Dfs, e: Dfs, y: nat)
    requires Visited(d, y) && Visited(e, y) && GetsBack(g, d, y)
    requires forall v: nat :: Visited(d, v) ==> Visited(e, v) && e.indices[v] == d.indices[v]
    requires d.gray <= e.gray
    ensures GetsBack(g, e, y)
  {
    hide Reach;
    var x :| x in d.gray && Visited(d, x) && d.indices[x] <= d.indices[y] && Reach(g, y, x);
    assert x in e.gray && Visited(e, x);
  }

  lemma OpenedBack(g: Graph, d: Dfs, node: nat)
    requires Callable(g, d, node)
    ensures BackOk(g, Opened(d, node))
  {
    hide GroupsOk, EdgesOk, ChainOk, Reach, StackOk, GetsBack;
    var e := Opened(d, node);
    forall y: nat | y in e.onStack && Visited(e, y) ensures GetsBack(g, e, y) {
      if y == node {
        SelfBack(g, e, y);
      } else {
        BackLasts(g, d, e, y);
      }
    }
  }

  lemma SelfBack(g: Graph, d: Dfs, y: nat)
    requires Visited(d, y) && y in d.gray
    ensures GetsBack(g, d, y)
  {
    ReachSelf(g, y);
  }

  lemma OpenedStack(g: Graph, d: Dfs, node: nat)
    requires Callable(g, d, node)
    ensures StackOk(Opened(d, node))
  {
    hide EdgesOk, GroupsOk, ChainOk, BackOk, Reach;
  }

  lemma OpenedKeeps(g: Graph, d: Dfs, node: nat)
    requires Callable(g, d, node)
    ensures Inv(g, Opened(d, node))
  {
    hide GetsBack, Reach, Path, Edge, Component, ChainOk, BackOk, StackOk, Closed;
    OpenedChain(g, d, node);
    OpenedBack(g, d, node);
    OpenedStack(g, d, node);
  }

  // ---------- the successors of an open node ----------

  /** The visit of `node` that `before` opened is still under way in `d`. */
  ghost predicate Open(before: Dfs, d: Dfs, node: nat) {
    && StackOk(before) && Extends(before, d) && before.stack + [node] <= d.stack
    && d.gray == before.gray + {node} && node !in before.gray && node < |d.low|
    && Visited(d, node) && !Visited(before, node) && d.indices[node] == before.index
  }

  ghost predicate LowOk(g: Graph, d: Dfs, node: nat) {
    && Visited(d, node) && node < |d.low|
    && d.low[node] <= d.indices[node] && LowIsReached(g, d, node, d.low[node])
  }

  ghost predicate Done(g: Graph, d: Dfs, node: nat, i: nat) {
    node < |g| && i <= |g[node]| && forall k :: 0 <= k < i ==> Visited(d, g[node][k])
  }

  /** The open visit of `node` with the first `i` successors done. */
  ghost predicate Visiting(g: Graph, before: Dfs, d: Dfs, node: nat, i: nat) {
    Inv(g, d) && Open(before, d, node) && LowOk(g, d, node) && Done(g, d, node, i)
      && ExitsSoFar(g, |before.stack|, d, node, i)
  }

  /** The low link of the open node at stack position `base` bounds the exits of the finished nodes
      above it and of its own first `i` successors. */
  ghost predicate ExitsSoFar(g: Graph, base: nat, d: Dfs, node: nat, i: nat)
    requires StackOk(d) && node < |g| == |d.low| == |d.indices| && i <= |g[node]|
  {
    && BoundsExits(g, base + 1, base, d, d.low[node])
    && (forall k :: 0 <= k < i && g[node][k] in d.onStack && Visited(d, g[node][k]) ==>
        d.low[node] <= d.indices[g[node][k]])
  }

  lemma OpenedOpens(g: Graph, d: Dfs, node: nat)
    requires Callable(g, d, node)
    ensures Open(d, Opened(d, node), node)
  {
    hide BackOk, ChainOk, EdgesOk, GroupsOk, Reach, StackOk;
    assert d.gray <= d.onStack by { GrayIsStacked(d); }
  }

  lemma GrayIsStacked(d: Dfs)
    requires StackOk(d)
    ensures d.gray <= d.onStack
  {
  }

  lemma OpenedLow(g: Graph, d: Dfs, node: nat)
    requires node < |d.indices| == |d.low|
    ensures LowOk(g, Opened(d, node), node)
  {
    hide Reach;
    var e := Opened(d, node);
    ReachSelf(g, node);
    assert node in e.onStack && Visited(e, node);
  }

  lemma OpenedExits(g: Graph, d: Dfs, node: nat)
    requires node < |g| == |d.indices| == |d.low| && StackOk(Opened(d, node))
    ensures ExitsSoFar(g, |d.stack|, Opened(d, node), node, 0)
  {
    hide Edge, StackOk, Visited;
  }

  lemma Lengths(g: Graph, d: Dfs)
    requires Inv(g, d)
    ensures |d.low| == |d.indices| == |g|
  {
  }

  lemma VisitingStart(g: Graph, d: Dfs, node: nat)
    requires Callable(g, d, node)
    ensures Visiting(g, d, Opened(d, node), node, 0)
  {
    hide BackOk, ChainOk, EdgesOk, GroupsOk, Reach, Edge, StackOk, IndicesOk, Open, LowOk, ExitsSoFar, Opened, Visited;
    Lengths(g, d);
    OpenedKeeps(g, d, node);
    OpenedOpens(g, d, node);
    OpenedLow(g, d, node);
    OpenedExits(g, d, node);
  }

  /** A lower number bounds at least as much. */
  lemma ReachedLasts(g: Graph, d: Dfs, e: Dfs, x: nat, n: int)
    requires LowIsReached(g, d, x, n)
    requires forall v: nat :: Visited(d, v) ==> Visited(e, v) && e.indices[v] == d.indices[v]
    requires d.onStack <= e.onStack
    ensures LowIsReached(g, e, x, n)
  {
    hide Reach;
    var y :| y in d.onStack && Visited(d, y) && d.indices[y] == n && Reach(g, x, y);
    assert y in e.onStack;
  }

  function Lowered(d: Dfs, node: nat, n: int): Dfs
    requires node < |d.low|
  {
    if n < d.low[node] then d.(low := d.low[node := n]) else d
  }

  /** Low links are outside the invariant. */
  lemma LoweredKeeps(g: Graph, d: Dfs, node: nat, n: int)
    requires Inv(g, d) && node < |d.low|
    ensures Inv(g, Lowered(d, node, n))
  {
    hide Reach, Edge, Component, Closed;
    var e := Lowered(d, node, n);
    assert forall v: nat :: Visited(d, v) <==> Visited(e, v);
    forall y: nat | y in e.onStack && Visited(e, y) ensures GetsBack(g, e, y) {
      BackLasts(g, d, e, y);
    }
  }

  lemma StaysOpen(g: Graph, before: Dfs, d: Dfs, e: Dfs, node: nat, n: int)
    requires Open(before, d, node) && Extends(d, e) && e.gray == d.gray
    ensures Open(before, Lowered(e, node, n), node)
  {
  }

  /** The new low link is again the index of a node the open one reaches. */
  lemma StaysLow(g: Graph, d: Dfs, e: Dfs, node: nat, s: nat, n: int)
    requires LowOk(g, d, node) && Extends(d, e) && d.onStack <= e.onStack && Visited(e, s)
    requires n < e.low[node] ==> Reach(g, node, s) && LowIsReached(g, e, s, n)
    ensures LowOk(g, Lowered(e, node, n), node)
  {
    hide Reach;
    ReachedLasts(g, d, e, node, d.low[node]);
    var f := Lowered(e, node, n);
    if n < e.low[node] {
      var y :| y in e.onStack && Visited(e, y) && e.indices[y] == n && Reach(g, s, y);
      ReachTransitive(g, node, s, y);
      assert y in f.onStack && Visited(f, y);
    } else {
      assert f == e;
    }
  }

  lemma StaysDone(g: Graph, d: Dfs, e: Dfs, node: nat, i: nat, n: int)
    requires Done(g, d, node, i) && i < |g[node]| && Extends(d, e) && Visited(e, g[node][i]) && node < |e.low|
    ensures Done(g, Lowered(e, node, n), node, i + 1)
  {
    forall k | 0 <= k < i + 1 ensures Visited(Lowered(e, node, n), g[node][k]) {
      if k < i {
        assert Visited(d, g[node][k]);
      }
    }
  }

  /** The stack only grows while the nodes on it stay where they are. */
  lemma StackGrows(d: Dfs, e: Dfs)
    requires StackOk(d) && StackOk(e) && Extends(d, e)
    ensures d.onStack <= e.onStack
  {
    forall v | v in d.onStack ensures v in e.onStack {
      assert v in d.stack;
      var i :| 0 <= i < |d.stack| && d.stack[i] == v;
      assert e.stack[i] == v;
    }
  }

  /** Exits of the part a tree successor added, and of the part that was there, stay bounded. */
  lemma TreeExits(g: Graph, base: nat, d: Dfs, e: Dfs, node: nat, i: nat)
    requires StackOk(d) && StackOk(e) && Extends(d, e) && base < |d.stack|
    requires node < |g| == |d.low| == |d.indices| && i < |g[node]| && Visited(d, node)
    requires Done(g, d, node, i) && ExitsSoFar(g, base, d, node, i)
    requires Finished(g, d, e, g[node][i]) && e.low[node] <= e.indices[node] < e.indices[g[node][i]]
    ensures |e.low| == |e.indices| == |g| && StackOk(Lowered(e, node, e.low[g[node][i]]))
    ensures ExitsSoFar(g, base, Lowered(e, node, e.low[g[node][i]]), node, i + 1)
  {
    hide Edge, Reach;
    var s := g[node][i];
    var f := Lowered(e, node, e.low[s]);
    assert f.low[node] <= e.low[s] && f.low[node] <= e.low[node] == d.low[node];
    assert f.indices == e.indices && f.stack == e.stack && f.onStack == e.onStack;
    TreeBounds(g, base, d, e, d.low[node], e.low[s], f.low[node]);
    assert BoundsExits(g, base + 1, base, f, f.low[node]);
    forall k | 0 <= k < i + 1 && g[node][k] in f.onStack && Visited(f, g[node][k])
      ensures f.low[node] <= f.indices[g[node][k]]
    {
      if k < i {
        assert Visited(d, g[node][k]);
      }
    }
  }

  lemma TreeBounds(g: Graph, base: nat, d: Dfs, e: Dfs, below: int, above: int, n: int)
    requires StackOk(d) && StackOk(e) && Extends(d, e) && base < |d.stack|
    requires BoundsExits(g, base + 1, base, d, below)
    requires e.stack == d.stack || BoundsExits(g, |d.stack|, |d.stack|, e, above)
    requires n <= below && n <= above
    ensures BoundsExits(g, base + 1, base, e, n)
  {
    hide Edge;
  }

  /** Back from the visit of a successor that was new. */
  lemma AfterTreeEdge(g: Graph, before: Dfs, d: Dfs, e: Dfs, node: nat, i: nat)
    requires Visiting(g, before, d, node, i) && i < |g[node]| && !Visited(d, g[node][i])
    requires Closes(g, d, e, g[node][i])
    ensures node < |e.low| && g[node][i] < |e.low|
        && Visiting(g, before, Lowered(e, node, e.low[g[node][i]]), node, i + 1)
  {
    var s := g[node][i];
    assert Edge(g, node, s);
    assert |d.low| == |d.indices| == |g| == |e.low| == |e.indices| by { Lengths(g, d); Lengths(g, e); }
    NewerIndex(d, e, node, s);
    hide BackOk, ChainOk, EdgesOk, GroupsOk, Reach, Edge, StackOk, IndicesOk, ExitsSoFar;
    assert |before.stack| < |d.stack|;
    ReachEdge(g, node, s);
    LoweredKeeps(g, e, node, e.low[s]);
    StackGrows(d, e);
    StaysOpen(g, before, d, e, node, e.low[s]);
    StaysLow(g, d, e, node, s, e.low[s]);
    StaysDone(g, d, e, node, i, e.low[s]);
    TreeExits(g, |before.stack|, d, e, node, i);
  }

  /** A successor still on the stack lowers the link to its index. */
  lemma AfterBackEdge(g: Graph, before: Dfs, d: Dfs, node: nat, i: nat)
    requires Visiting(g, before, d, node, i) && i < |g[node]| && Visited(d, g[node][i]) && g[node][i] in d.onStack
    ensures node < |d.low| && Visiting(g, before, Lowered(d, node, d.indices[g[node][i]]), node, i + 1)
  {
    hide BackOk, ChainOk, EdgesOk, GroupsOk, Reach, StackOk, IndicesOk, ExitsSoFar, LowOk;
    var s := g[node][i];
    Lengths(g, d);
    assert Edge(g, node, s);
    ReachEdge(g, node, s);
    ReachSelf(g, s);
    assert LowIsReached(g, d, s, d.indices[s]);
    LoweredKeeps(g, d, node, d.indices[s]);
    StaysOpen(g, before, d, d, node, d.indices[s]);
    StaysLow(g, d, d, node, s, d.indices[s]);
    StaysDone(g, d, d, node, i, d.indices[s]);
    BackExits(g, |before.stack|, d, node, i);
  }

  lemma BackExits(g: Graph, base: nat, d: Dfs, node: nat, i: nat)
    requires StackOk(d) && node < |g| == |d.low| == |d.indices| && i < |g[node]| && Visited(d, g[node][i])
    requires ExitsSoFar(g, base, d, node, i)
    ensures StackOk(Lowered(d, node, d.indices[g[node][i]]))
    ensures ExitsSoFar(g, base, Lowered(d, node, d.indices[g[node][i]]), node, i + 1)
  {
    hide Edge;
    var n := d.indices[g[node][i]];
    var f := Lowered(d, node, n);
    assert f.indices == d.indices && f.stack == d.stack && f.onStack == d.onStack && f.low[node] <= n
        && f.low[node] <= d.low[node];
    assert BoundsExits(g, base + 1, base, f, f.low[node]);
  }

  /** A successor whose group is already popped changes nothing. */
  lemma AfterSettledEdge(g: Graph, before: Dfs, d: Dfs, node: nat, i: nat)
    requires Visiting(g, before, d, node, i) && i < |g[node]| && Visited(d, g[node][i]) && g[node][i] !in d.onStack
    ensures Visiting(g, before, d, node, i + 1)
  {
    hide Inv, LowOk, Open, BoundsExits, Visited, StackOk;
  }

  lemma NewerIndex(d: Dfs, e: Dfs, node: nat, s: nat)
    requires Visited(d, node) && Extends(d, e) && Visited(e, s) && e.indices[s] == d.index && d.indices[node] < d.index
    ensures e.indices[node] < e.indices[s] && e.low[node] == d.low[node]
  {
  }

  // ---------- closing a visit ----------

  /** The nodes of the stack from position `base` on. */
  function Above(d: Dfs, base: nat): set<nat> {
    set i | base <= i < |d.stack| :: d.stack[i]
  }

  function Popped(before: Dfs, d: Dfs, c: set<nat>): Dfs {
    d.(stack := before.stack, onStack := d.onStack - c, largest := if d.largest < |c| then |c| else d.largest,
       gray := before.gray, groups := d.groups + {c}, settled := d.settled + c)
  }

  /** All successors done and the low link still at the node itself: nothing above its place on the
      stack leads below it. */
  ghost predicate AtRoot(g: Graph, before: Dfs, d: Dfs, node: nat, c: set<nat>) {
    && node < |g| && Visiting(g, before, d, node, |g[node]|)
    && d.low[node] == d.indices[node] && |before.stack| < |d.stack| && c == Above(d, |before.stack|)
  }

  lemma BackAt(g: Graph, d: Dfs, y: nat)
    requires BackOk(g, d) && y in d.onStack && Visited(d, y)
    ensures GetsBack(g, d, y)
  {
  }

  lemma GrayPosition(d: Dfs, y: nat) returns (j: nat)
    requires StackOk(d) && y in d.gray
    ensures j < |d.stack| && d.stack[j] == y
  {
    assert y in d.stack;
    j :| 0 <= j < |d.stack| && d.stack[j] == y;
  }

  /** Every member gets back to the root of the group. */
  lemma MemberReachesRoot(g: Graph, before: Dfs, d: Dfs, node: nat, i: nat)
    requires Inv(g, d) && Open(before, d, node) && |before.stack| <= i < |d.stack|
    ensures Reach(g, d.stack[i], node) && Reach(g, node, d.stack[i])
  {
    hide Reach, EdgesOk, GroupsOk, BackOk, IndicesOk;
    var base := |before.stack|;
    var x := d.stack[i];
    assert d.stack[base] == node;
    assert Reach(g, d.stack[base], d.stack[i]);
    BackAt(g, d, x);
    var y :| y in d.gray && Visited(d, y) && d.indices[y] <= d.indices[x] && Reach(g, x, y);
    if y != node {
      var j := GrayPosition(before, y);
      assert d.stack[j] == y;
      assert Reach(g, d.stack[j], d.stack[base]);
      ReachTransitive(g, x, y, node);
    }
  }

  /** Nothing leads out of the group and the settled nodes. */
  lemma GroupIsClosed(g: Graph, before: Dfs, d: Dfs, node: nat, c: set<nat>)
    requires InRange(g) && AtRoot(g, before, d, node, c)
    ensures Closed(g, d.settled + c)
  {
    hide Reach, GroupsOk, BackOk, ChainOk, LowOk;
    forall x, y | x in d.settled + c && Edge(g, x, y) ensures y in d.settled + c {
      if x in c {
        var i :| |before.stack| <= i < |d.stack| && d.stack[i] == x;
        MemberEdge(g, before, d, node, i, y);
      }
    }
  }

  lemma MemberEdge(g: Graph, before: Dfs, d: Dfs, node: nat, i: nat, y: nat)
    requires node < |g| && Visiting(g, before, d, node, |g[node]|) && d.low[node] == d.indices[node]
    requires |before.stack| <= i < |d.stack| && Edge(g, d.stack[i], y)
    ensures y in d.settled || y in Above(d, |before.stack|)
  {
    hide Reach, GroupsOk, BackOk, ChainOk, LowOk;
    var base := |before.stack|;
    assert d.stack[base] == node;
    assert Visited(d, y) by {
      if i == base {
        var k :| 0 <= k < |g[node]| && g[node][k] == y;
        assert Visited(d, g[node][k]);
      } else {
        assert d.stack[i] !in d.gray by { AboveIsFinished(before, d, node, i); }
      }
    }
    if y in d.onStack {
      assert y in d.stack;
      var j :| 0 <= j < |d.stack| && d.stack[j] == y;
      AllExits(g, before, d, node);
      NoEdgeBelow(g, base, d, i, j);
    }
  }

  /** With all its successors done, the open node's own edges are bounded as well. */
  lemma AllExits(g: Graph, before: Dfs, d: Dfs, node: nat)
    requires node < |g| && Visiting(g, before, d, node, |g[node]|)
    ensures StackOk(d) && node < |d.low| && BoundsExits(g, |before.stack|, |before.stack|, d, d.low[node])
  {
    hide IndicesOk, ChainOk, GroupsOk, BackOk, EdgesOk, LowOk;
    var base := |before.stack|;
    forall i, j | base <= i < |d.stack| && 0 <= j < base && j < i && Edge(g, d.stack[i], d.stack[j])
      ensures d.low[node] <= d.indices[d.stack[j]]
    {
      if i == base {
        assert d.stack[i] == node;
        var k :| 0 <= k < |g[node]| && g[node][k] == d.stack[j];
        assert d.stack[j] in d.onStack;
      }
    }
  }

  /** When the bound is the index at `base` itself, no edge from there up leads below. */
  lemma NoEdgeBelow(g: Graph, base: nat, d: Dfs, i: nat, j: nat)
    requires StackOk(d) && base <= i < |d.stack| && j < |d.stack| && Edge(g, d.stack[i], d.stack[j])
    requires BoundsExits(g, base, base, d, d.indices[d.stack[base]])
    ensures j >= base
  {
    hide Edge;
  }

  /** Above the open node the stack holds only finished visits. */
  lemma AboveIsFinished(before: Dfs, d: Dfs, node: nat, i: nat)
    requires StackOk(d) && Open(before, d, node) && |before.stack| < i < |d.stack|
    ensures d.stack[i] !in d.gray
  {
    assert d.stack[|before.stack|] == node;
    forall y | y in before.gray ensures y != d.stack[i] {
      var j := GrayPosition(before, y);
      assert d.stack[j] == y;
      assert d.indices[d.stack[j]] < d.indices[d.stack[i]];
    }
  }

  lemma MembersMeet(g: Graph, before: Dfs, d: Dfs, node: nat, c: set<nat>)
    requires AtRoot(g, before, d, node, c)
    ensures node in c && c !! d.settled
    ensures forall x <- c :: x < |g| && Reach(g, x, node) && Reach(g, node, x)
  {
    hide Reach, EdgesOk, GroupsOk, BackOk, ChainOk, LowOk, Done, ExitsSoFar;
    assert d.stack[|before.stack|] == node;
    forall x | x in c ensures x < |g| && Reach(g, x, node) && Reach(g, node, x) {
      var i :| |before.stack| <= i < |d.stack| && d.stack[i] == x;
      MemberReachesRoot(g, before, d, node, i);
    }
  }

  lemma SettledIsClosed(g: Graph, d: Dfs)
    requires Inv(g, d)
    ensures Closed(g, d.settled)
  {
  }

  /** What is popped at a root is a strongly connected component: mutually reachable through the root,
      and maximal because nothing leads out of it except into settled groups. */
  lemma GroupIsComponent(g: Graph, before: Dfs, d: Dfs, node: nat, c: set<nat>)
    requires InRange(g) && AtRoot(g, before, d, node, c)
    ensures Component(g, c)
  {
    hide Inv, LowOk, Done, Open, ExitsSoFar, Reach, Closed;
    MembersMeet(g, before, d, node, c);
    GroupIsClosed(g, before, d, node, c);
    forall x, y | x in c && y in c ensures Reach(g, x, y) {
      ReachTransitive(g, x, node, y);
    }
    forall x, y | x in c && Reach(g, x, y) && Reach(g, y, x) ensures y in c {
      ClosedReach(g, d.settled + c, x, y);
      if y in d.settled {
        SettledIsClosed(g, d);
        ClosedReach(g, d.settled, y, x);
      }
    }
  }

  /** The stack is the old one followed by the group, without repetition. */
  lemma GroupIsAbove(before: Dfs, d: Dfs, v: nat)
    requires StackOk(d) && before.stack <= d.stack
    ensures v in d.onStack && v !in Above(d, |before.stack|) <==> v in before.stack
    ensures v in Above(d, |before.stack|) ==> v in d.onStack
  {
    var base := |before.stack|;
    if v in before.stack {
      var j :| 0 <= j < base && before.stack[j] == v;
      assert d.stack[j] == v;
      assert forall i :: base <= i < |d.stack| ==> d.indices[d.stack[j]] < d.indices[d.stack[i]];
    } else if v in d.onStack {
      assert v in d.stack;
      var j :| 0 <= j < |d.stack| && d.stack[j] == v;
      assert j >= base;
    }
    if v in Above(d, base) {
      var i :| base <= i < |d.stack| && d.stack[i] == v;
      assert v in d.stack;
    }
  }

  lemma PoppedStack(g: Graph, before: Dfs, d: Dfs, node: nat, c: set<nat>)
    requires AtRoot(g, before, d, node, c)
    ensures IndicesOk(g, Popped(before, d, c)) && StackOk(Popped(before, d, c))
    ensures c <= d.onStack
  {
    hide Reach, EdgesOk, GroupsOk, BackOk, ChainOk, LowOk, Done, ExitsSoFar, Above;
    var e := Popped(before, d, c);
    forall v: nat ensures (v in d.onStack && v !in c <==> v in before.stack) && (v in c ==> v in d.onStack) {
      GroupIsAbove(before, d, v);
    }
    PoppedOrder(before, d, e);
    PoppedMarks(g, d, e, c);
  }

  lemma PoppedOrder(before: Dfs, d: Dfs, e: Dfs)
    requires StackOk(d) && StackOk(before) && before.stack <= d.stack && e.stack == before.stack
        && e.indices == d.indices
    requires e.gray == before.gray && forall v: nat :: v in e.stack <==> v in e.onStack
    ensures StackOk(e)
  {
    assert forall i :: 0 <= i < |e.stack| ==> e.stack[i] == d.stack[i];
    forall v | v in e.gray ensures v in e.onStack {
      assert v in before.stack;
    }
  }

  lemma PoppedMarks(g: Graph, d: Dfs, e: Dfs, c: set<nat>)
    requires IndicesOk(g, d) && c <= d.onStack && e.onStack == d.onStack - c && e.settled == d.settled + c
    requires e.indices == d.indices && e.low == d.low && e.index == d.index
    ensures IndicesOk(g, e)
  {
    assert forall v: nat :: Visited(e, v) <==> Visited(d, v);
  }

  lemma PoppedChain(g: Graph, before: Dfs, d: Dfs, node: nat, c: set<nat>)
    requires AtRoot(g, before, d, node, c)
    ensures ChainOk(g, Popped(before, d, c))
  {
    hide Reach, EdgesOk, GroupsOk, BackOk, IndicesOk, StackOk, LowOk, Done, ExitsSoFar, Above;
    var e := Popped(before, d, c);
    forall i, j | 0 <= i <= j < |e.stack| ensures Reach(g, e.stack[i], e.stack[j]) {
      assert e.stack[i] == d.stack[i] && e.stack[j] == d.stack[j];
    }
  }

  lemma PoppedBack(g: Graph, before: Dfs, d: Dfs, node: nat, c: set<nat>)
    requires AtRoot(g, before, d, node, c)
    ensures BackOk(g, Popped(before, d, c))
  {
    hide Reach, EdgesOk, GroupsOk, ChainOk, LowOk, Done, ExitsSoFar, GetsBack, IndicesOk, StackOk;
    var e := Popped(before, d, c);
    PoppedStack(g, before, d, node, c);
    forall y: nat | y in e.onStack && Visited(e, y) ensures GetsBack(g, e, y) {
      OlderThanRoot(before, d, e, node, y);
      BackBelow(g, before, d, e, node, y);
    }
  }

  lemma OlderThanRoot(before: Dfs, d: Dfs, e: Dfs, node: nat, y: nat)
    requires StackOk(d) && StackOk(e) && Open(before, d, node) && e.stack == before.stack && y in e.onStack
    ensures Visited(d, y) && d.indices[y] < d.indices[node]
  {
    assert y in e.stack;
    var j :| 0 <= j < |e.stack| && e.stack[j] == y;
    assert d.stack[j] == y && d.stack[|before.stack|] == node;
  }

  /** A way back that is older than the open node leads to an older open visit. */
  lemma BackBelow(g: Graph, before: Dfs, d: Dfs, e: Dfs, node: nat, y: nat)
    requires Visited(d, y) && GetsBack(g, d, y) && Open(before, d, node) && d.indices[y] < d.indices[node]
    requires e.indices == d.indices && e.gray == before.gray
    ensures GetsBack(g, e, y)
  {
    hide Reach;
    var x :| x in d.gray && Visited(d, x) && d.indices[x] <= d.indices[y] && Reach(g, y, x);
    assert x in e.gray && Visited(e, x);
  }

  lemma PoppedEdges(g: Graph, before: Dfs, d: Dfs, node: nat, c: set<nat>)
    requires InRange(g) && AtRoot(g, before, d, node, c)
    ensures EdgesOk(g, Popped(before, d, c))
  {
    GroupIsClosed(g, before, d, node, c);
    DoneEdges(g, d, node);
    hide Reach, GroupsOk, BackOk, ChainOk, LowOk, ExitsSoFar, IndicesOk, StackOk;
  }

  lemma DoneEdges(g: Graph, d: Dfs, node: nat)
    requires node < |g| && Done(g, d, node, |g[node]|)
    ensures forall y: nat :: Edge(g, node, y) ==> Visited(d, y)
  {
    forall y: nat | Edge(g, node, y) ensures Visited(d, y) {
      var k :| 0 <= k < |g[node]| && g[node][k] == y;
    }
  }

  lemma LargerGroup(groups: set<set<nat>>, n: nat, c: set<nat>)
    requires IsLargest(groups, n)
    ensures IsLargest(groups + {c}, if n < |c| then |c| else n)
  {
    var all := groups + {c};
    assert c in all;
    if groups != {} {
      var b :| b in groups && |b| == n;
      assert b in all;
    }
  }

  lemma MoreCovered(groups: set<set<nat>>, s: set<nat>, c: set<nat>)
    requires Covers(groups, s)
    ensures Covers(groups + {c}, s + c)
  {
    forall v | v in s + c ensures InSome(groups + {c}, v) {
      if v in s {
        var b :| b in groups && v in b;
        assert b in groups + {c};
      } else {
        assert c in groups + {c};
      }
    }
  }

  lemma PoppedGroups(g: Graph, before: Dfs, d: Dfs, c: set<nat>)
    requires GroupsOk(g, d) && Component(g, c)
    ensures GroupsOk(g, Popped(before, d, c))
  {
    hide Component, IsLargest, Covers;
    LargerGroup(d.groups, d.largest, c);
    MoreCovered(d.groups, d.settled, c);
  }

  // ---------- a finished visit that stays on the stack ----------

  function Blackened(before: Dfs, d: Dfs): Dfs {
    d.(gray := before.gray)
  }

  ghost predicate BelowRoot(g: Graph, before: Dfs, d: Dfs, node: nat) {
    node < |g| && Visiting(g, before, d, node, |g[node]|) && d.low[node] != d.indices[node]
  }

  /** The node's own way back goes through its low link. */
  lemma BlackBack(g: Graph, before: Dfs, d: Dfs, node: nat, y: nat)
    requires BelowRoot(g, before, d, node) && y in d.onStack && Visited(d, y)
    ensures GetsBack(g, Blackened(before, d), y)
  {
    hide Reach, EdgesOk, GroupsOk, BackOk, ChainOk, StackOk, IndicesOk, Done, ExitsSoFar;
    BackAt(g, d, y);
    var x :| x in d.gray && Visited(d, x) && d.indices[x] <= d.indices[y] && Reach(g, y, x);
    if x == node {
      var z :| z in d.onStack && Visited(d, z) && d.indices[z] == d.low[node] && Reach(g, node, z);
      BackAt(g, d, z);
      BackBelow(g, before, d, Blackened(before, d), node, z);
      var w :| w in before.gray && Visited(d, w) && d.indices[w] <= d.indices[z] && Reach(g, z, w);
      ReachTransitive(g, y, node, z);
      ReachTransitive(g, y, z, w);
      assert w in Blackened(before, d).gray;
    } else {
      assert x in Blackened(before, d).gray;
    }
  }

  lemma BlackBacks(g: Graph, before: Dfs, d: Dfs, node: nat)
    requires BelowRoot(g, before, d, node)
    ensures BackOk(g, Blackened(before, d))
  {
    hide Inv, Visiting, GetsBack;
    var e := Blackened(before, d);
    forall y: nat | y in e.onStack && Visited(e, y) ensures GetsBack(g, e, y) {
      BlackBack(g, before, d, node, y);
    }
  }

  lemma BlackEdges(g: Graph, d: Dfs, e: Dfs, node: nat)
    requires EdgesOk(g, d) && node < |g| && Done(g, d, node, |g[node]|)
    requires d.gray <= e.gray + {node} && e == d.(gray := e.gray)
    ensures EdgesOk(g, e)
  {
    hide Closed;
    DoneEdges(g, d, node);
    forall x: nat, y: nat | Visited(e, x) && x !in e.gray && Edge(g, x, y) ensures Visited(e, y) {
      assert Visited(d, x) && Visited(d, y);
    }
  }

  /** Only the open visits are fewer. */
  lemma FewerOpen(g: Graph, d: Dfs, e: Dfs)
    requires IndicesOk(g, d) && StackOk(d) && ChainOk(g, d) && GroupsOk(g, d)
    requires e.gray <= d.gray && e == d.(gray := e.gray)
    ensures IndicesOk(g, e) && StackOk(e) && ChainOk(g, e) && GroupsOk(g, e)
  {
    hide Reach, Component, Covers, IsLargest;
  }

  lemma BlackKeeps(g: Graph, before: Dfs, d: Dfs, node: nat)
    requires BelowRoot(g, before, d, node)
    ensures Inv(g, Blackened(before, d))
  {
    hide IndicesOk, StackOk, ChainOk, GroupsOk, BackOk, EdgesOk, LowOk, ExitsSoFar;
    BlackBacks(g, before, d, node);
    BlackEdges(g, d, Blackened(before, d), node);
    FewerOpen(g, d, Blackened(before, d));
  }

  lemma PoppedKeeps(g: Graph, before: Dfs, d: Dfs, node: nat, c: set<nat>)
    requires InRange(g) && AtRoot(g, before, d, node, c)
    ensures Inv(g, Popped(before, d, c))
  {
    hide IndicesOk, StackOk, ChainOk, BackOk, EdgesOk, GroupsOk, Popped, Open, LowOk, Done, ExitsSoFar;
    PoppedStack(g, before, d, node, c);
    PoppedChain(g, before, d, node, c);
    PoppedBack(g, before, d, node, c);
    PoppedEdges(g, before, d, node, c);
    GroupIsComponent(g, before, d, node, c);
    PoppedGroups(g, before, d, c);
  }

  lemma ClosedExtends(before: Dfs, d: Dfs, e: Dfs, node: nat)
    requires Open(before, d, node) && e.indices == d.indices && e.low == d.low && e.index == d.index
    requires before.stack <= e.stack && d.settled <= e.settled && d.groups <= e.groups && e.onStack <= d.onStack
    ensures Extends(before, e)
  {
  }

  lemma InvParts(g: Graph, d: Dfs)
    requires Inv(g, d)
    ensures StackOk(d) && |d.low| == |d.indices| == |g|
  {
  }

  /** Closing a visit, either way, is what its caller relies on. */
  lemma PoppedIsFinished(g: Graph, before: Dfs, d: Dfs, node: nat, c: set<nat>)
    requires InRange(g) && AtRoot(g, before, d, node, c)
    ensures Closes(g, before, Popped(before, d, c), node)
  {
    hide Inv, LowOk, Done, ExitsSoFar, Reach, Above, StackOk, Extends, Closed, Component, InRange;
    PoppedKeeps(g, before, d, node, c);
    MembersMeet(g, before, d, node, c);
    InvParts(g, Popped(before, d, c));
    ClosedExtends(before, d, Popped(before, d, c), node);
  }

  lemma BlackIsFinished(g: Graph, before: Dfs, d: Dfs, node: nat)
    requires BelowRoot(g, before, d, node)
    ensures Closes(g, before, Blackened(before, d), node)
  {
    hide Inv, Done, ExitsSoFar, Reach, StackOk, Extends, BoundsExits, LowIsReached;
    BlackKeeps(g, before, d, node);
    InvParts(g, Blackened(before, d));
    ClosedExtends(before, d, Blackened(before, d), node);
    BlackExits(g, before, d, node);
    BlackLow(g, d, Blackened(before, d), node);
    InvParts(g, d);
    GrayIsStacked(d);
  }

  lemma BlackLow(g: Graph, d: Dfs, e: Dfs, node: nat)
    requires LowOk(g, d, node) && e == d.(gray := e.gray)
    ensures LowIsReached(g, e, node, d.low[node])
  {
    hide Reach;
    var y :| y in d.onStack && Visited(d, y) && d.indices[y] == d.low[node] && Reach(g, node, y);
    assert y in e.onStack && Visited(e, y);
  }

  lemma BlackExits(g: Graph, before: Dfs, d: Dfs, node: nat)
    requires BelowRoot(g, before, d, node)
    ensures StackOk(Blackened(before, d))
    ensures BoundsExits(g, |before.stack|, |before.stack|, Blackened(before, d), d.low[node])
  {
    AllExits(g, before, d, node);
    assert before.gray <= d.gray;
    hide *;
    GrayDoesNotMatter(g, d, Blackened(before, d), before, |before.stack|, d.low[node]);
  }

  lemma GrayDoesNotMatter(g: Graph, d: Dfs, e: Dfs, before: Dfs, base: nat, n: int)
    requires StackOk(d) && BoundsExits(g, base, base, d, n) && before.gray <= d.gray && e == Blackened(before, d)
    ensures StackOk(e) && BoundsExits(g, base, base, e, n)
  {
    hide Edge;
  }

  // ---------- the search itself ----------

  class SccFinder {
    const graph: Graph
    var index: nat
    var stack: seq<nat>
    var onStack: set<nat>
    var indices: seq<int>
    var low: seq<int>
    var largest: nat
    ghost var gray: set<nat>
    ghost var groups: set<set<nat>>
    ghost var settled: set<nat>

    ghost function State(): Dfs
      reads this
    {
      Dfs(index, stack, onStack, indices, low, largest, gray, groups, settled)
    }

    constructor (g: Graph)
      ensures graph == g && Inv(g, State()) && gray == {}
    {
      graph := g;
      index, stack, onStack, largest, gray, groups, settled := 0, [], {}, 0, {}, {}, {};
      indices := seq(|g|, _ => -1);
      low := seq(|g|, _ => 0);
    }

    /** Takes the nodes above and including `node` off the stack, and counts them. */
    method PopDownTo(ghost before: Dfs, node: nat) returns (size: nat)
      requires StackOk(State()) && Open(before, State(), node) && |before.stack| < |stack|
      modifies `stack, `onStack
      ensures stack == before.stack && onStack == old(onStack) - Above(old(State()), |before.stack|)
      ensures size == |Above(old(State()), |before.stack|)|
    {
      ghost var d := State();
      size := 0;
      assert Above(d, |stack|) == {};
      hide StackOk, Open, Extends, Above;
      while stack != []
        invariant |before.stack| < |stack| <= |d.stack| && stack == d.stack[..|stack|]
        invariant onStack == d.onStack - Above(d, |stack|) && size == |Above(d, |stack|)|
        decreases |stack|
      {
        TakeOne(before, d, node, |stack| - 1);
        var member := stack[|stack| - 1];
        stack := stack[..|stack| - 1];
        onStack := onStack - {member};
        size := size + 1;
        if member == node {
          break;
        }
      }
    }

    /** Depth-first visit of a node not seen before. */
    method Visit(node: nat)
      requires InRange(graph) && Callable(graph, State(), node)
      modifies this
      ensures Closes(graph, old(State()), State(), node)
      decreases White(graph, State()), 1
    {
      ghost var before := State();
      VisitingStart(graph, before, node);
      Lengths(graph, before);
      hide Inv, Callable, Opened, Visiting, Reach, Edge, Finished, InRange;
      Begin(node);
      for i := 0 to |graph[node]|
        invariant Visiting(graph, before, State(), node, i)
      {
        Follow(before, node, i);
      }
      Close(before, node);
    }

    /** Looks at one successor of the open node: visits it, or lowers the link to it, or passes. */
    method Follow(ghost before: Dfs, node: nat, i: nat)
      requires InRange(graph) && Callable(graph, before, node) && Visiting(graph, before, State(), node, i)
          && i < |graph[node]|
      modifies this
      ensures Visiting(graph, before, State(), node, i + 1)
      decreases White(graph, before), 0
    {
      ghost var d := State();
      var successor := graph[node][i];
      SuccessorIsCallable(graph, before, d, node, i);
      hide Inv, Callable, Visiting, Reach, Edge, Finished, InRange, White;
      if indices[successor] < 0 {
        Visit(successor);
        AfterTreeEdge(graph, before, d, State(), node, i);
        Lower(node, low[successor]);
      } else if successor in onStack {
        AfterBackEdge(graph, before, d, node, i);
        Lower(node, indices[successor]);
      } else {
        AfterSettledEdge(graph, before, d, node, i);
      }
    }

    /** All successors followed: pops the group if the node is its root. */
    method Close(ghost before: Dfs, node: nat)
      requires node < |graph| && InRange(graph) && Visiting(graph, before, State(), node, |graph[node]|)
      modifies this
      ensures Closes(graph, before, State(), node)
    {
      ghost var d := State();
      OpenIsStacked(graph, before, d, node);
      EitherCloses(graph, before, d, node);
      hide *;
      if low[node] == indices[node] {
        PopRoot(before, node);
      } else {
        Leave(before);
      }
    }

    method PopRoot(ghost before: Dfs, node: nat)
      requires StackOk(State()) && Open(before, State(), node) && |before.stack| < |stack|
      modifies this
      ensures State() == Popped(before, old(State()), Above(old(State()), |before.stack|))
    {
      hide StackOk, Open, Extends, Above;
      ghost var c := Above(State(), |before.stack|);
      var size := PopDownTo(before, node);
      largest := if largest < size then size else largest;
      gray, groups, settled := before.gray, groups + {c}, settled + c;
    }

    ghost method Leave(before: Dfs)
      modifies `gray
      ensures State() == Blackened(before, old(State()))
    {
      gray := before.gray;
    }

    method Begin(node: nat)
      requires node < |indices| == |low|
      modifies this
      ensures State() == Opened(old(State()), node)
    {
      indices, low := indices[node := index], low[node := index];
      index := index + 1;
      stack := stack + [node];
      onStack := onStack + {node};
      gray := gray + {node};
    }

    method Lower(node: nat, n: int)
      requires node < |low|
      modifies `low
      ensures State() == Lowered(old(State()), node, n)
    {
      low := low[node := if n < low[node] then n else low[node]];
    }
  }

  ghost function White(g: Graph, d: Dfs): set<nat> {
    set v: nat | v < |g| && !Visited(d, v)
  }

  lemma FewerWhite(g: Graph, before: Dfs, d: Dfs, node: nat)
    requires Open(before, d, node) && node < |g|
    ensures White(g, d) < White(g, before)
  {
    assert node in White(g, before) && node !in White(g, d);
  }

  /** A successor of the open node may be visited next, if it is new. */
  lemma SuccessorIsCallable(g: Graph, before: Dfs, d: Dfs, node: nat, i: nat)
    requires InRange(g) && Callable(g, before, node) && Visiting(g, before, d, node, i) && i < |g[node]|
    ensures g[node][i] < |g| == |d.indices| == |d.low|
    ensures !Visited(d, g[node][i]) ==> Callable(g, d, g[node][i])
    ensures White(g, d) < White(g, before)
  {
    hide Inv, LowOk, Done, ExitsSoFar, Reach, StackOk, Extends, White;
    Lengths(g, d);
    FewerWhite(g, before, d, node);
    var s := g[node][i];
    assert Edge(g, node, s);
    ReachEdge(g, node, s);
    forall x | x in d.gray ensures Reach(g, x, s) {
      if x != node {
        ReachTransitive(g, x, node, s);
      }
    }
  }

  lemma EitherCloses(g: Graph, before: Dfs, d: Dfs, node: nat)
    requires node < |g| && node < |d.low| && node < |d.indices| && |before.stack| < |d.stack|
    requires InRange(g) && Visiting(g, before, d, node, |g[node]|)
    ensures d.low[node] == d.indices[node] ==> Closes(g, before, Popped(before, d, Above(d, |before.stack|)), node)
    ensures d.low[node] != d.indices[node] ==> Closes(g, before, Blackened(before, d), node)
  {
    hide Visiting, Closes, InRange, Above, Popped, Blackened;
    if d.low[node] == d.indices[node] {
      PoppedIsFinished(g, before, d, node, Above(d, |before.stack|));
    } else {
      BlackIsFinished(g, before, d, node);
    }
  }

  lemma OpenIsStacked(g: Graph, before: Dfs, d: Dfs, node: nat)
    requires node < |g| && Visiting(g, before, d, node, |g[node]|)
    ensures node < |d.low| == |d.indices| && StackOk(d) && Open(before, d, node) && |before.stack| < |d.stack|
  {
  }

  lemma AboveStep(d: Dfs, k: nat)
    requires k < |d.stack| && forall i :: k < i < |d.stack| ==> d.stack[i] != d.stack[k]
    ensures d.stack[k] !in Above(d, k + 1) && Above(d, k) == Above(d, k + 1) + {d.stack[k]}
  {
    forall v | v in Above(d, k) ensures v in Above(d, k + 1) + {d.stack[k]} {
      var i :| k <= i < |d.stack| && d.stack[i] == v;
    }
  }

  /** The stack repeats no node, and the open one is at its place. */
  lemma TakeOne(before: Dfs, d: Dfs, node: nat, k: nat)
    requires StackOk(d) && Open(before, d, node) && |before.stack| <= k < |d.stack|
    ensures d.onStack - Above(d, k + 1) - {d.stack[k]} == d.onStack - Above(d, k)
    ensures |Above(d, k)| == |Above(d, k + 1)| + 1
    ensures d.stack[k] == node <==> k == |before.stack|
    ensures d.stack[..k + 1][..k] == d.stack[..k] && d.stack[..|before.stack|] == before.stack
  {
    assert d.stack[|before.stack|] == node;
    forall i, j | 0 <= i < j < |d.stack| ensures d.stack[i] != d.stack[j] {
      assert d.indices[d.stack[i]] < d.indices[d.stack[j]];
    }
    hide StackOk, Extends, Above;
    AboveStep(d, k);
  }

  // ---------- the result ----------

  lemma ComponentsAgree(g: Graph, b: set<nat>, c: set<nat>, v: nat)
    requires Component(g, b) && Component(g, c) && v in b && v in c
    ensures b == c
  {
    hide Reach;
    forall x | x in b ensures x in c {
      assert Reach(g, v, x) && Reach(g, x, v);
    }
    forall x | x in c ensures x in b {
      assert Reach(g, v, x) && Reach(g, x, v);
    }
  }

  /** `groups` are exactly the components of the graph, and `n` is the size of the largest. */
  ghost predicate Answer(g: Graph, groups: set<set<nat>>, n: nat) {
    && (forall c :: c in groups <==> Component(g, c))
    && (forall v: nat :: v < |g| ==> InSome(groups, v))
    && IsLargest(groups, n)
  }

  /** Between top-level visits nothing is on the stack: there is no open visit to get back to. */
  lemma NothingStacked(g: Graph, d: Dfs, v: nat)
    requires IndicesOk(g, d) && BackOk(g, d) && d.gray == {} && Visited(d, v)
    ensures v in d.settled
  {
    hide Reach;
    if v in d.onStack {
      BackAt(g, d, v);
    }
  }

  lemma GroupOf(groups: set<set<nat>>, s: set<nat>, v: nat) returns (c: set<nat>)
    requires Covers(groups, s) && v in s
    ensures c in groups && v in c
  {
    c :| c in groups && v in c;
  }

  /** At the end everything has been popped, and no component is missing among the groups. */
  lemma AllSettled(g: Graph, d: Dfs)
    requires Inv(g, d) && d.gray == {} && forall v: nat :: v < |g| ==> Visited(d, v)
    ensures Answer(g, d.groups, d.largest)
  {
    hide IndicesOk, StackOk, ChainOk, BackOk, EdgesOk, IsLargest, Covers, Reach, Visited;
    forall v: nat | v < |g| ensures InSome(d.groups, v) {
      NothingStacked(g, d, v);
      var c := GroupOf(d.groups, d.settled, v);
    }
    forall c | Component(g, c) ensures c in d.groups {
      var v :| v in c;
      NothingStacked(g, d, v);
      var b := GroupOf(d.groups, d.settled, v);
      ComponentsAgree(g, b, c, v);
    }
  }

  method Largest(g: Graph) returns (largest: nat)
    requires InRange(g)
    ensures exists groups :: Answer(g, groups, largest)
  {
    var finder := new SccFinder(g);
    hide Inv, InRange, BoundsExits, LowIsReached, Reach;
    Lengths(g, finder.State());
    for node := 0 to |g|
      invariant finder.graph == g && Inv(g, finder.State()) && finder.gray == {} && |finder.indices| == |g|
      invariant forall v: nat :: v < node ==> Visited(finder.State(), v)
    {
      if finder.indices[node] < 0 {
        finder.Visit(node);
        Lengths(g, finder.State());
      }
    }
    AllSettled(g, finder.State());
    largest := finder.largest;
  }

  /** Row `k` of the edge lists; the shorter list decides how many rows there are. */
  ghost predicate Row(sources: seq<int>, destinations: seq<int>, k: int, x: nat, y: nat) {
    0 <= k < |sources| && k < |destinations| && sources[k] == x && destinations[k] == y
  }

  ghost predicate Listed(sources: seq<int>, destinations: seq<int>, n: int, x: nat, y: nat) {
    exists k :: k < n && Row(sources, destinations, k, x, y)
  }

  lemma OneMoreRow(sources: seq<int>, destinations: seq<int>, k: nat, x: nat, y: nat)
    ensures Listed(sources, destinations, k + 1, x, y) <==>
        Listed(sources, destinations, k, x, y) || Row(sources, destinations, k, x, y)
  {
  }

  /** Rows with an end outside the graph are dropped. */
  method Adjacency(nodeCount: nat, sources: seq<int>, destinations: seq<int>) returns (g: Graph)
    ensures |g| == nodeCount && InRange(g)
    ensures forall x: nat, y: nat :: Edge(g, x, y) <==>
        x < nodeCount && y < nodeCount && Listed(sources, destinations, |sources|, x, y)
  {
    g := seq(nodeCount, _ => []);
    var k := 0;
    while k < |sources| && k < |destinations|
      invariant 0 <= k <= |sources| && k <= |destinations| && |g| == nodeCount && InRange(g)
      invariant forall x: nat, y: nat ::
        Edge(g, x, y) <==> x < nodeCount && y < nodeCount && Listed(sources, destinations, k, x, y)
    {
      var source, destination := sources[k], destinations[k];
      ghost var h := g;
      if 0 <= source < nodeCount && 0 <= destination < nodeCount {
        g := g[source := g[source] + [destination]];
      }
      forall x: nat, y: nat
        ensures Edge(g, x, y) <==> x < nodeCount && y < nodeCount && Listed(sources, destinations, k + 1, x, y)
      {
        OneMoreRow(sources, destinations, k, x, y);
        assert Edge(g, x, y) <==> Edge(h, x, y) || (x == source && y == destination && x < nodeCount && y < nodeCount);
      }
      k := k + 1;
    }
  }

  /** The size of the largest strongly connected component of the graph the edge lists give. */
  method LargestScc(nodeCount: nat, sources: seq<int>, destinations: seq<int>)
    returns (largest: nat, ghost g: Graph, ghost groups: set<set<nat>>)
    ensures |g| == nodeCount
    ensures forall x: nat, y: nat :: Edge(g, x, y) <==>
        x < nodeCount && y < nodeCount && Listed(sources, destinations, |sources|, x, y)
    ensures Answer(g, groups, largest) && (nodeCount == 0 <==> largest == 0)
  {
    var adjacency := Adjacency(nodeCount, sources, destinations);
    g := adjacency;
    largest := Largest(adjacency);
    groups :| Answer(g, groups, largest);
    hide Component;
    if nodeCount > 0 {
      assert InSome(groups, 0);
    }
  }
}

/** Weisfeiler-Lehman labels: iterated neighbourhood hashes, and the topology hash built on them. */
module Refinement {
  import opened Grammars
  import opened Lists

  datatype Edge<+I> = Edge(source: I, target: I, kind: string)

  /** The nodes in the order the graph lists them; an edge may end outside them. */
  datatype Graph<!I, C> = Graph(ids: seq<I>, content: I -> C, edges: seq<Edge<I>>)

  /** What a node sees along one edge: its kind and the label at the other end, if that is a node. */
  datatype Sight = Sight(kind: string, other: Option<Label>)

  /** A digest; all that matters is which labels are equal. */
  type Label = nat

  type Labels<I> = map<I, Label>

  /** How labels are made: from a node's content, and from its label and the multisets of what it
      sees along incoming and outgoing edges. `dangling` tells whether edges whose other end is not a
      node are seen at all. */
  datatype Hash<!C> = Hash(
    start: C -> Label,
    step: (Label, multiset<Sight>, multiset<Sight>) -> Label,
    dangling: bool)

  function LabelOf<I(==)>(labels: Labels<I>, i: I): Option<Label> {
    if i in labels then Some(labels[i]) else None
  }

  /** The edge as seen from `i`, when it ends there. */
  function SeenIn<I(==), C>(h: Hash<C>, labels: Labels<I>, i: I): Edge<I> -> Option<Sight> {
    (e: Edge<I>) =>
      if e.target == i
        && (h.dangling || e.source in labels) then Some(Sight(e.kind, LabelOf(labels, e.source))) else None
  }

  function SeenOut<I(==), C>(h: Hash<C>, labels: Labels<I>, i: I): Edge<I> -> Option<Sight> {
    (e: Edge<I>) =>
      if e.source == i
        && (h.dangling || e.target in labels) then Some(Sight(e.kind, LabelOf(labels, e.target))) else None
  }

  function AsMultiset<T(==)>(x: Option<T>): multiset<T> {
    if x.None? then multiset{} else multiset{x.value}
  }

  /** The present ones of a list, as a multiset. */
  function Present<T(==)>(s: seq<Option<T>>): multiset<T> {
    if s == [] then multiset{} else Present(s[..|s| - 1]) + AsMultiset(s[|s| - 1])
  }

  lemma Regroup<T>(a: multiset<T>, b: multiset<T>, c: multiset<T>)
    ensures a + (b + c) == (a + b) + c && a + (b + c) == (a + c) + b
  {
  }

  lemma {:induction false} PresentAppend<T>(s: seq<Option<T>>, t: seq<Option<T>>)
    ensures Present(s + t) == Present(s) + Present(t)
    decreases |t|
  {
    if t == [] {
      assert s + t == s;
    } else {
      var init, last := t[..|t| - 1], t[|t| - 1];
      PresentAppend(s, init);
      assert (s + t)[..|s + t| - 1] == s + init && (s + t)[|s + t| - 1] == last;
      Regroup(Present(s), Present(init), AsMultiset(last));
      hide AsMultiset;
      assert Present(s + t) == Present(s + init) + AsMultiset(last);
      assert Present(t) == Present(init) + AsMultiset(last);
    }
  }

  lemma PresentOne<T>(x: Option<T>, t: seq<Option<T>>)
    ensures Present([x] + t) == AsMultiset(x) + Present(t)
  {
    hide AsMultiset;
    PresentAppend([x], t);
    assert [x][..0] == [];
    assert Present([x]) == multiset{} + AsMultiset(x);
  }

  lemma PresentAround<T>(head: seq<Option<T>>, x: Option<T>, tail: seq<Option<T>>)
    ensures Present(head + ([x] + tail)) == (Present(head) + Present(tail)) + AsMultiset(x)
  {
    hide Present, AsMultiset;
    PresentAppend(head, [x] + tail);
    PresentOne(x, tail);
    Regroup(Present(head), AsMultiset(x), Present(tail));
  }

  lemma PresentWithout<T>(s: seq<Option<T>>, j: nat)
    requires j < |s|
    ensures Present(s) == Present(Without(s, j)) + AsMultiset(s[j])
  {
    hide Present, AsMultiset;
    PresentAround(s[..j], s[j], s[j + 1..]);
    PresentAppend(s[..j], s[j + 1..]);
    assert s == s[..j] + ([s[j]] + s[j + 1..]);
  }

  lemma {:induction false} PresentAlike<T>(s: seq<Option<T>>, t: seq<Option<T>>)
    requires multiset(s) == multiset(t)
    ensures Present(s) == Present(t)
    decreases |s|
  {
    if s == [] {
      assert |multiset(t)| == 0;
    } else {
      var j := Find(s, t);
      RemoveOne(s, 0);
      RemoveOne(t, j);
      PresentWithout(s, 0);
      PresentWithout(t, j);
      hide Without, Present;
      PresentAlike(Without(s, 0), Without(t, j));
    }
  }

  function Start<I(==), C>(h: Hash<C>, g: Graph<I, C>): Labels<I> {
    map i | i in g.ids :: h.start(g.content(i))
  }

  function Refined<I(==), C>(h: Hash<C>, g: Graph<I, C>, labels: Labels<I>): Labels<I> {
    map i | i in labels ::
      h.step(labels[i], Present(Mapped(SeenIn(h, labels, i), g.edges)), Present(Mapped(SeenOut(h, labels, i), g.edges)))
  }

  /** At most `rounds` refinements, stopping as soon as one changes nothing. */
  function Rounds<I(==), C>(h: Hash<C>, g: Graph<I, C>, labels: Labels<I>, rounds: nat): Labels<I>
    decreases rounds
  {
    if rounds == 0 || Refined(h, g, labels) == labels then labels
    else Rounds(h, g, Refined(h, g, labels), rounds - 1)
  }

  /** Exactly `rounds` refinements. */
  function AllRounds<I(==), C>(h: Hash<C>, g: Graph<I, C>, labels: Labels<I>, rounds: nat): Labels<I>
    decreases rounds
  {
    if rounds == 0 then labels else AllRounds(h, g, Refined(h, g, labels), rounds - 1)
  }

  lemma {:induction false} StableStays<I, C>(h: Hash<C>, g: Graph<I, C>, labels: Labels<I>, rounds: nat)
    requires Refined(h, g, labels) == labels
    ensures AllRounds(h, g, labels, rounds) == labels
    decreases rounds
  {
    hide Refined;
    if rounds > 0 {
      StableStays(h, g, labels, rounds - 1);
    }
  }

  /** Stopping early gives the labels that all rounds would give. */
  lemma {:induction false} EarlyExitIsExact<I, C>(h: Hash<C>, g: Graph<I, C>, labels: Labels<I>, rounds: nat)
    ensures Rounds(h, g, labels, rounds) == AllRounds(h, g, labels, rounds)
    decreases rounds
  {
    hide Refined;
    if rounds > 0 {
      if Refined(h, g, labels) == labels {
        StableStays(h, g, labels, rounds);
      } else {
        EarlyExitIsExact(h, g, Refined(h, g, labels), rounds - 1);
      }
    }
  }

  method WlLabels<I(==), C>(h: Hash<C>, g: Graph<I, C>, rounds: nat) returns (labels: Labels<I>)
    ensures labels == Rounds(h, g, Start(h, g), rounds) == AllRounds(h, g, Start(h, g), rounds)
  {
    hide Refined, Start;
    labels := Start(h, g);
    EarlyExitIsExact(h, g, labels, rounds);
    var left := rounds;
    while left > 0
      invariant Rounds(h, g, labels, left) == Rounds(h, g, Start(h, g), rounds)
    {
      var refined := Refined(h, g, labels);
      if refined == labels {
        return;
      }
      labels, left := refined, left - 1;
    }
  }

  // ---------- isomorphism ----------

  function MovedEdge<I, J>(f: I -> J): Edge<I> -> Edge<J> {
    (e: Edge<I>) => Edge(f(e.source), f(e.target), e.kind)
  }

  /** The second graph is the first with its nodes renamed by `f`, listed in any order with its edges
      in any order. `f` is given on the ends of edges that are not nodes as well. */
  ghost predicate Isomorphic<I(!new), J(!new), C>(f: I -> J, g: Graph<I, C>, o: Graph<J, C>) {
    && (forall i, j {:trigger f(i), f(j)} :: f(i) == f(j) ==> i == j)
    && multiset(o.ids) == multiset(Mapped(f, g.ids))
    && (forall i :: i in g.ids ==> o.content(f(i)) == g.content(i))
    && multiset(o.edges) == multiset(Mapped(MovedEdge(f), g.edges))
  }

  /** Corresponding nodes carry equal labels, and nothing else is labelled. */
  ghost predicate Follows<I(!new), J(!new)>(f: I -> J, labels: Labels<I>, others: Labels<J>) {
    && (forall i :: i in labels <==> f(i) in others)
    && (forall i :: i in labels && f(i) in others ==> others[f(i)] == labels[i])
    && (forall j :: j in others ==> exists i :: i in labels && f(i) == j)
  }

  lemma LabelFollows<I(!new), J(!new)>(f: I -> J, labels: Labels<I>, others: Labels<J>, i: I)
    requires Follows(f, labels, others)
    ensures LabelOf(others, f(i)) == LabelOf(labels, i) && (f(i) in others <==> i in labels)
  {
  }

  lemma SightsFollow<I(!new), J(!new), C>(
      h: Hash<C>, f: I -> J, g: Graph<I, C>, o: Graph<J, C>, labels: Labels<I>, others: Labels<J>, i: I)
    requires Isomorphic(f, g, o) && Follows(f, labels, others)
    ensures Present(Mapped(SeenIn(h, others, f(i)), o.edges)) == Present(Mapped(SeenIn(h, labels, i), g.edges))
    ensures Present(Mapped(SeenOut(h, others, f(i)), o.edges)) == Present(Mapped(SeenOut(h, labels, i), g.edges))
  {
    forall e | e in g.edges
      ensures SeenIn(h, others, f(i))(MovedEdge(f)(e)) == SeenIn(h, labels, i)(e)
      ensures SeenOut(h, others, f(i))(MovedEdge(f)(e)) == SeenOut(h, labels, i)(e)
    {
      LabelFollows(f, labels, others, e.source);
      LabelFollows(f, labels, others, e.target);
    }
    hide SeenIn, SeenOut, MovedEdge, Follows, Mapped, Present;
    ComposesIf(SeenIn(h, others, f(i)), MovedEdge(f), SeenIn(h, labels, i), g.edges);
    MappedTwice(SeenIn(h, others, f(i)), MovedEdge(f), SeenIn(h, labels, i), g.edges, o.edges);
    PresentAlike(Mapped(SeenIn(h, others, f(i)), o.edges), Mapped(SeenIn(h, labels, i), g.edges));
    ComposesIf(SeenOut(h, others, f(i)), MovedEdge(f), SeenOut(h, labels, i), g.edges);
    MappedTwice(SeenOut(h, others, f(i)), MovedEdge(f), SeenOut(h, labels, i), g.edges, o.edges);
    PresentAlike(Mapped(SeenOut(h, others, f(i)), o.edges), Mapped(SeenOut(h, labels, i), g.edges));
  }

  lemma IdsFollow<I(!new), J(!new), C>(f: I -> J, g: Graph<I, C>, o: Graph<J, C>)
    requires Isomorphic(f, g, o)
    ensures forall i :: i in g.ids <==> f(i) in o.ids
    ensures forall j :: j in o.ids ==> exists i :: i in g.ids && f(i) == j
    ensures |o.ids| == |g.ids|
  {
    var moved := Mapped(f, g.ids);
    assert |multiset(o.ids)| == |multiset(moved)|;
    forall j ensures j in o.ids <==> j in moved {
      assert j in multiset(o.ids) <==> j in multiset(moved);
    }
    forall i ensures i in g.ids <==> f(i) in moved {
      if i in g.ids {
        var k :| 0 <= k < |g.ids| && g.ids[k] == i;
        assert moved[k] == f(i);
      }
      if f(i) in moved {
        var k :| 0 <= k < |moved| && moved[k] == f(i);
        assert f(g.ids[k]) == f(i);
      }
    }
    forall j | j in o.ids ensures exists i :: i in g.ids && f(i) == j {
      var k :| 0 <= k < |moved| && moved[k] == j;
      assert g.ids[k] in g.ids;
    }
  }

  lemma StartFollows<I(!new), J(!new), C>(h: Hash<C>, f: I -> J, g: Graph<I, C>, o: Graph<J, C>)
    requires Isomorphic(f, g, o)
    ensures Follows(f, Start(h, g), Start(h, o))
  {
    IdsFollow(f, g, o);
    forall j | j in Start(h, o) ensures exists i :: i in Start(h, g) && f(i) == j {
      var i :| i in g.ids && f(i) == j;
      assert i in Start(h, g);
    }
  }

  lemma RefinedFollows<I(!new), J(!new), C>(
      h: Hash<C>, f: I -> J, g: Graph<I, C>, o: Graph<J, C>, labels: Labels<I>, others: Labels<J>)
    requires Isomorphic(f, g, o) && Follows(f, labels, others)
    ensures Follows(f, Refined(h, g, labels), Refined(h, o, others))
    ensures Refined(h, g, labels) == labels <==> Refined(h, o, others) == others
  {
    var next, other := Refined(h, g, labels), Refined(h, o, others);
    assert next.Keys == labels.Keys && other.Keys == others.Keys;
    forall i | i in labels && f(i) in others ensures other[f(i)] == next[i] {
      SightsFollow(h, f, g, o, labels, others, i);
    }
    hide Refined, Isomorphic;
    KeysFollow(f, labels, others, next, other);
    SameOrNot(f, labels, others, next, other);
  }

  lemma KeysFollow<I(!new), J(!new)>(f: I -> J, labels: Labels<I>, others: Labels<J>, next: Labels<I>, other: Labels<J>)
    requires Follows(f, labels, others) && next.Keys == labels.Keys && other.Keys == others.Keys
    requires forall i :: i in labels && f(i) in others ==> other[f(i)] == next[i]
    ensures Follows(f, next, other)
  {
    forall j | j in other ensures exists i :: i in next && f(i) == j {
      var i :| i in labels && f(i) == j;
      assert i in next;
    }
  }

  lemma SameOrNot<I(!new), J(!new)>(f: I -> J, labels: Labels<I>, others: Labels<J>, next: Labels<I>, other: Labels<J>)
    requires Follows(f, labels, others) && Follows(f, next, other) && next.Keys == labels.Keys
        && other.Keys == others.Keys
    ensures next == labels <==> other == others
  {
    if next == labels {
      forall j | j in others ensures other[j] == others[j] {
        var i :| i in labels && f(i) == j;
      }
    }
    if other == others {
      forall i | i in labels ensures next[i] == labels[i] {
        assert f(i) in others;
      }
    }
  }

  /** Isomorphic graphs get the same labels, whatever the hash, after any number of rounds; both stop
      early or neither does. */
  lemma {:induction false} RoundsFollow<I(!new), J(!new), C>(
      h: Hash<C>, f: I -> J, g: Graph<I, C>, o: Graph<J, C>, labels: Labels<I>, others: Labels<J>, rounds: nat)
    requires Isomorphic(f, g, o) && Follows(f, labels, others)
    ensures Follows(f, Rounds(h, g, labels, rounds), Rounds(h, o, others, rounds))
    decreases rounds
  {
    hide Isomorphic, Follows, Refined;
    RefinedFollows(h, f, g, o, labels, others);
    if rounds > 0 && Refined(h, g, labels) != labels {
      RoundsFollow(h, f, g, o, Refined(h, g, labels), Refined(h, o, others), rounds - 1);
    }
  }

  // ---------- the topology hash ----------

  /** What is hashed: the labels of the nodes and the labelled edges between nodes, both sorted. */
  datatype Topology = Topology(labels: multiset<Option<Label>>, edges: multiset<(Label, string, Label)>)

  function Signature<I(==)>(labels: Labels<I>): Edge<I> -> Option<(Label, string, Label)> {
    (e: Edge<I>) => if e.source in labels && e.target in labels then Some((labels[e.source], e.kind,
      labels[e.target])) else None
  }

  function ReadLabel<I(==)>(labels: Labels<I>): I -> Option<Label> {
    (i: I) => LabelOf(labels, i)
  }

  function Min(a: nat, b: nat): nat { if a <= b then a else b }

  function Max(a: nat, b: nat): nat { if a <= b then b else a }

  function TopologyOf<I(==), C>(h: Hash<C>, g: Graph<I, C>): Topology {
    var labels := Rounds(h, g, Start(h, g), Max(1, Min(8, |g.ids|)));
    Topology(multiset(Mapped(ReadLabel(labels), g.ids)), Present(Mapped(Signature(labels), g.edges)))
  }

  /** The topology hash ignores the order of nodes, the order of edges and consistent renaming. */
  lemma TopologyIsInvariant<I(!new), J(!new), C>(h: Hash<C>, f: I -> J, g: Graph<I, C>, o: Graph<J, C>)
    requires Isomorphic(f, g, o)
    ensures TopologyOf(h, o) == TopologyOf(h, g)
  {
    IdsFollow(f, g, o);
    var rounds := Max(1, Min(8, |g.ids|));
    var labels, others := Rounds(h, g, Start(h, g), rounds), Rounds(h, o, Start(h, o), rounds);
    StartFollows(h, f, g, o);
    RoundsFollow(h, f, g, o, Start(h, g), Start(h, o), rounds);
    ReadsFollow(f, g, o, labels, others);
  }

  lemma ReadsFollow<I(!new), J(!new), C>(
      f: I -> J, g: Graph<I, C>, o: Graph<J, C>, labels: Labels<I>, others: Labels<J>)
    requires Isomorphic(f, g, o) && Follows(f, labels, others)
    ensures multiset(Mapped(ReadLabel(others), o.ids)) == multiset(Mapped(ReadLabel(labels), g.ids))
    ensures Present(Mapped(Signature(others), o.edges)) == Present(Mapped(Signature(labels), g.edges))
  {
    forall i: I ensures ReadLabel(others)(f(i)) == ReadLabel(labels)(i) {
      LabelFollows(f, labels, others, i);
    }
    forall e | e in g.edges ensures Signature(others)(MovedEdge(f)(e)) == Signature(labels)(e) {
      LabelFollows(f, labels, others, e.source);
      LabelFollows(f, labels, others, e.target);
    }
    hide ReadLabel, Signature, MovedEdge, Follows, Mapped, Present;
    ComposesIf(ReadLabel(others), f, ReadLabel(labels), g.ids);
    MappedTwice(ReadLabel(others), f, ReadLabel(labels), g.ids, o.ids);
    ComposesIf(Signature(others), MovedEdge(f), Signature(labels), g.edges);
    MappedTwice(Signature(others), MovedEdge(f), Signature(labels), g.edges, o.edges);
    PresentAlike(Mapped(Signature(others), o.edges), Mapped(Signature(labels), g.edges));
  }

  // ---------- refinement ----------

  /** A hash that separates its inputs: SHA-256 without collisions. */
  ghost predicate Separating<C(!new)>(h: Hash<C>) {
    && (forall x, y {:trigger h.start(x), h.start(y)} :: h.start(x) == h.start(y) ==> x == y)
    && (forall a, b, m, n, p, q {:trigger h.step(a, m, p), h.step(b, n, q)} :: h.step(a, m, p) == h.step(b, n, q) ==>
        a == b && m == n && p == q)
  }

  lemma RefinedRefines<I(!new), C(!new)>(h: Hash<C>, g: Graph<I, C>, labels: Labels<I>, i: I, j: I)
    requires Separating(h) && i in labels && j in labels
    ensures i in Refined(h, g, labels) && j in Refined(h, g, labels)
    ensures Refined(h, g, labels)[i] == Refined(h, g, labels)[j] ==> labels[i] == labels[j]
  {
    hide Present, Mapped, SeenIn, SeenOut;
  }

  /** Without collisions the rounds only ever split classes: nodes that end up with equal labels had
      equal labels before. */
  lemma {:induction false} RoundsRefine<I(!new), C(!new)>(h: Hash<C>, g: Graph<I, C>, labels: Labels<I>, rounds: nat,
        i: I, j: I)
    requires Separating(h) && i in labels && j in labels
    ensures i in Rounds(h, g, labels, rounds) && j in Rounds(h, g, labels, rounds)
    ensures Rounds(h, g, labels, rounds)[i] == Rounds(h, g, labels, rounds)[j] ==> labels[i] == labels[j]
    decreases rounds
  {
    hide Separating, Refined;
    if rounds > 0 && Refined(h, g, labels) != labels {
      RefinedRefines(h, g, labels, i, j);
      RoundsRefine(h, g, Refined(h, g, labels), rounds - 1, i, j);
    }
  }

  // ---------- exactly what a round sees ----------

  /** The positions of a list that hold `x`. */
  ghost function Places<T(!new)>(s: seq<Option<T>>, x: T): set<nat> {
    set k: nat | 0 <= k < |s| && s[k] == Some(x)
  }

  lemma PlacesLast<T(!new)>(s: seq<Option<T>>, x: T)
    ensures s == [] ==> |Places(s, x)| == 0
    ensures s != [] ==> |Places(s, x)| == |Places(s[..|s| - 1], x)| + if s[|s| - 1] == Some(x) then 1 else 0
  {
    if s == [] {
      assert Places(s, x) == {};
    } else {
      var n: nat := |s| - 1;
      var before := Places(s[..n], x);
      assert n !in before;
      if s[n] == Some(x) {
        assert Places(s, x) == before + {n};
      } else {
        assert Places(s, x) == before;
      }
    }
  }

  lemma {:induction false} PresentCounts<T(!new)>(s: seq<Option<T>>, x: T)
    ensures Present(s)[x] == |Places(s, x)|
    decreases |s|
  {
    hide Places;
    PlacesLast(s, x);
    if s != [] {
      PresentCounts(s[..|s| - 1], x);
    }
  }

  /** The label at the other end of an edge is the one seen; no label if that end is not a node, and then the
      edge is seen only if dangling edges are. */
  ghost predicate Shows<I(!new), C(!new)>(h: Hash<C>, labels: Labels<I>, other: I, s: Sight) {
    match s.other
    case Some(l) => other in labels && labels[other] == l
    case None => other !in labels && h.dangling
  }

  /** The edges into `i` that are seen as `s`, by their positions. */
  ghost function Entering<I(!new), C(!new)>(h: Hash<C>, g: Graph<I, C>, labels: Labels<I>, i: I, s: Sight): set<nat> {
    set k: nat | 0 <= k < |g.edges| && g.edges[k].target == i && g.edges[k].kind == s.kind
                 && Shows(h, labels, g.edges[k].source, s)
  }

  /** The edges out of `i` that are seen as `s`. */
  ghost function Leaving<I(!new), C(!new)>(h: Hash<C>, g: Graph<I, C>, labels: Labels<I>, i: I, s: Sight): set<nat> {
    set k: nat | 0 <= k < |g.edges| && g.edges[k].source == i && g.edges[k].kind == s.kind
                 && Shows(h, labels, g.edges[k].target, s)
  }

  lemma SightsCounted<I(!new), C(!new)>(h: Hash<C>, g: Graph<I, C>, labels: Labels<I>, i: I, s: Sight)
    ensures Present(Mapped(SeenIn(h, labels, i), g.edges))[s] == |Entering(h, g, labels, i, s)|
    ensures Present(Mapped(SeenOut(h, labels, i), g.edges))[s] == |Leaving(h, g, labels, i, s)|
  {
    PresentCounts(Mapped(SeenIn(h, labels, i), g.edges), s);
    PresentCounts(Mapped(SeenOut(h, labels, i), g.edges), s);
    hide Present;
    assert Places(Mapped(SeenIn(h, labels, i), g.edges), s) == Entering(h, g, labels, i, s);
    assert Places(Mapped(SeenOut(h, labels, i), g.edges), s) == Leaving(h, g, labels, i, s);
  }

  /** Both nodes see every sight equally often, along incoming and along outgoing edges. */
  ghost predicate SeeAlike<I(!new), C(!new)>(h: Hash<C>, g: Graph<I, C>, labels: Labels<I>, i: I, j: I) {
    forall s ::
      && |Entering(h, g, labels, i, s)| == |Entering(h, g, labels, j, s)|
      && |Leaving(h, g, labels, i, s)| == |Leaving(h, g, labels, j, s)|
  }

  lemma SameSights<I(!new), C(!new)>(h: Hash<C>, g: Graph<I, C>, labels: Labels<I>, i: I, j: I)
    ensures SeeAlike(h, g, labels, i, j) <==>
      && Present(Mapped(SeenIn(h, labels, i), g.edges)) == Present(Mapped(SeenIn(h, labels, j), g.edges))
      && Present(Mapped(SeenOut(h, labels, i), g.edges)) == Present(Mapped(SeenOut(h, labels, j), g.edges))
  {
    var (a, b) := (Present(Mapped(SeenIn(h, labels, i), g.edges)), Present(Mapped(SeenIn(h, labels, j), g.edges)));
    var (c, d) := (Present(Mapped(SeenOut(h, labels, i), g.edges)), Present(Mapped(SeenOut(h, labels, j), g.edges)));
    hide Present, Mapped, SeenIn, SeenOut, Entering, Leaving;
    forall s
      ensures a[s] == |Entering(h, g, labels, i, s)| && b[s] == |Entering(h, g, labels, j, s)|
      ensures c[s] == |Leaving(h, g, labels, i, s)| && d[s] == |Leaving(h, g, labels, j, s)|
    {
      SightsCounted(h, g, labels, i, s);
      SightsCounted(h, g, labels, j, s);
    }
    if SeeAlike(h, g, labels, i, j) {
      assert forall s :: a[s] == b[s] && c[s] == d[s];
    }
  }

  /** With a collision-free hash two nodes have equal labels after a round exactly if they had equal labels
      before and see alike along incoming and along outgoing edges. */
  lemma RoundSplitsExactly<I(!new), C(!new)>(h: Hash<C>, g: Graph<I, C>, labels: Labels<I>, i: I, j: I)
    requires Separating(h) && i in labels && j in labels
    ensures i in Refined(h, g, labels) && j in Refined(h, g, labels)
    ensures Refined(h, g, labels)[i] == Refined(h, g, labels)[j] <==>
              labels[i] == labels[j] && SeeAlike(h, g, labels, i, j)
  {
    SameSights(h, g, labels, i, j);
    hide Present, Mapped, SeenIn, SeenOut, SeeAlike;
  }

  /** And before the first round exactly if they have the same content. */
  lemma StartSplitsExactly<I(!new), C(!new)>(h: Hash<C>, g: Graph<I, C>, i: I, j: I)
    requires Separating(h) && i in g.ids && j in g.ids
    ensures Start(h, g)[i] == Start(h, g)[j] <==> g.content(i) == g.content(j)
  {
  }

  /** The nodes with this label, by their positions. */
  ghost function NodesWith<I(!new), C(!new)>(g: Graph<I, C>, labels: Labels<I>, a: Label): set<nat> {
    set k: nat | 0 <= k < |g.ids| && g.ids[k] in labels && labels[g.ids[k]] == a
  }

  /** The edges of this kind between nodes with these labels. */
  ghost function EdgesBetween<I(!new), C(!new)>(g: Graph<I, C>, labels: Labels<I>, a: Label, kind: string,
                                                b: Label): set<nat> {
    set k: nat | 0 <= k < |g.edges| && g.edges[k].kind == kind
                 && g.edges[k].source in labels && labels[g.edges[k].source] == a
                 && g.edges[k].target in labels && labels[g.edges[k].target] == b
  }

  lemma NodesCounted<I(!new), C(!new)>(g: Graph<I, C>, labels: Labels<I>, a: Label)
    ensures multiset(Mapped(ReadLabel(labels), g.ids))[Some(a)] == |NodesWith(g, labels, a)|
  {
    ListCounts(Mapped(ReadLabel(labels), g.ids), Some(a));
    assert Holding(Mapped(ReadLabel(labels), g.ids), Some(a)) == NodesWith(g, labels, a);
  }

  lemma EdgesCounted<I(!new), C(!new)>(g: Graph<I, C>, labels: Labels<I>, a: Label, kind: string, b: Label)
    ensures Present(Mapped(Signature(labels), g.edges))[(a, kind, b)] == |EdgesBetween(g, labels, a, kind, b)|
  {
    hide Present;
    PresentCounts(Mapped(Signature(labels), g.edges), (a, kind, b));
    assert Places(Mapped(Signature(labels), g.edges), (a, kind, b)) == EdgesBetween(g, labels, a, kind, b);
  }

  ghost function Holding<T(!new)>(s: seq<T>, x: T): set<nat> {
    set k: nat | 0 <= k < |s| && s[k] == x
  }

  lemma {:induction false} ListCounts<T(!new)>(s: seq<T>, x: T)
    ensures multiset(s)[x] == |Holding(s, x)|
    decreases |s|
  {
    if s == [] {
      assert Holding(s, x) == {};
    } else {
      var init, n: nat := s[..|s| - 1], |s| - 1;
      ListCounts(init, x);
      assert s == init + [s[n]];
      assert Holding(s, x) == Holding(init, x) + if s[n] == x then {n} else {};
    }
  }

  /** The topology that is hashed says how many nodes have each label, and how many edges of each kind lead
      between nodes with any two labels: equal topologies agree on all of these. */
  lemma TopologyCounts<I(!new), C(!new)>(h: Hash<C>, g: Graph<I, C>, a: Label, kind: string, b: Label)
    ensures var labels := AllRounds(h, g, Start(h, g), Max(1, Min(8, |g.ids|)));
            && TopologyOf(h, g).labels[Some(a)] == |NodesWith(g, labels, a)|
            && TopologyOf(h, g).edges[(a, kind, b)] == |EdgesBetween(g, labels, a, kind, b)|
  {
    var rounds := Max(1, Min(8, |g.ids|));
    EarlyExitIsExact(h, g, Start(h, g), rounds);
    var labels := AllRounds(h, g, Start(h, g), rounds);
    hide AllRounds, Rounds, Start, NodesWith, EdgesBetween, Mapped, Present, Signature, ReadLabel;
    NodesCounted(g, labels, a);
    EdgesCounted(g, labels, a, kind, b);
  }
}

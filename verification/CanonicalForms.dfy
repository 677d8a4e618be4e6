/** Canonical forms of states: the least encoding over all ways to rename the identities declared
    non-observable and the interchangeable nodes of a graph. */
module CanonicalForms {
  import opened Grammars
  import opened Lists

  /** A string of the state, or one of the names the canonicaliser makes up. Keeping them apart
      models that no input string starts with either reserved prefix. */
  datatype Name = Plain(text: string) | Alpha(index: nat) | Sym(cls: string, place: nat)

  datatype Value =
    | Text(name: Name)
    | Scalar(code: int)
    | Items(items: seq<Value>)
    | Fields(entries: seq<(string, Value)>)

  /** Keys are never renamed. */
  function RenameBy(f: Name -> Name, v: Value): Value {
    match v
    case Text(n) => Text(f(n))
    case Scalar(_) => v
    case Items(items) => Items(seq(|items|, i requires 0 <= i < |items| => RenameBy(f, items[i])))
    case Fields(entries) => Fields(seq(|entries|, i
      requires 0 <= i < |entries| => (entries[i].0, RenameBy(f, entries[i].1))))
  }

  ghost function Names(v: Value): set<Name> {
    match v
    case Text(n) => {n}
    case Scalar(_) => {}
    case Items(items) => set i, n | 0 <= i < |items| && n in Names(items[i]) :: n
    case Fields(entries) => set i, n | 0 <= i < |entries| && n in Names(entries[i].1) :: n
  }

  /** Renaming in two steps is renaming in one. */
  lemma {:induction false} RenameTwice(f: Name -> Name, g: Name -> Name, h: Name -> Name, v: Value)
    requires forall n <- Names(v) :: f(g(n)) == h(n)
    ensures RenameBy(f, RenameBy(g, v)) == RenameBy(h, v)
    decreases v
  {
    match v
    case Text(_) =>
    case Scalar(_) =>
    case Items(items) =>
      forall i | 0 <= i < |items| ensures RenameBy(f, RenameBy(g, items[i])) == RenameBy(h, items[i]) {
        assert Names(items[i]) <= Names(v);
        RenameTwice(f, g, h, items[i]);
      }
    case Fields(entries) =>
      forall i | 0 <= i < |entries| ensures RenameBy(f, RenameBy(g, entries[i].1)) == RenameBy(h, entries[i].1) {
        assert Names(entries[i].1) <= Names(v);
        RenameTwice(f, g, h, entries[i].1);
      }
  }

  lemma RenameAlike(f: Name -> Name, g: Name -> Name, h: Name -> Name, p: Name -> Name, q: Name -> Name, v: Value)
    requires forall n <- Names(v) :: f(g(h(n))) == p(q(n))
    ensures RenameBy(f, RenameBy(g, RenameBy(h, v))) == RenameBy(p, RenameBy(q, v))
  {
    hide RenameBy, Names;
    RenameTwice(g, h, Then(g, h), v);
    RenameTwice(p, q, Then(p, q), v);
    RenameTwice(f, Then(g, h), Then(p, q), v);
  }

  function Then(f: Name -> Name, g: Name -> Name): Name -> Name {
    n => f(g(n))
  }

  lemma {:induction false} RenameNothing(f: Name -> Name, v: Value)
    requires forall n <- Names(v) :: f(n) == n
    ensures RenameBy(f, v) == v
    decreases v
  {
    match v
    case Text(_) =>
    case Scalar(_) =>
    case Items(items) =>
      forall i | 0 <= i < |items| ensures RenameBy(f, items[i]) == items[i] {
        assert Names(items[i]) <= Names(v);
        RenameNothing(f, items[i]);
      }
      assert RenameBy(f, v).items == items;
    case Fields(entries) =>
      forall i | 0 <= i < |entries| ensures RenameBy(f, entries[i].1) == entries[i].1 {
        assert Names(entries[i].1) <= Names(v);
        RenameNothing(f, entries[i].1);
      }
      assert RenameBy(f, v).entries == entries;
  }

  // ---------- states and their renamed forms ----------

  /** `cls` is set when the node is interchangeable with others of its class. */
  datatype GraphNode = GraphNode(id: Name, cls: Option<string>, body: Value)

  datatype Graph = Graph(rest: Value, nodes: seq<GraphNode>, edges: seq<Value>)

  datatype Doc = Doc(plain: Value, graph: Graph)

  /** Node and edge lists are sorted by their encodings, so they are multisets. */
  datatype GraphForm = GraphForm(rest: Value, nodes: multiset<GraphNode>, edges: multiset<Value>)

  datatype Form = Form(plain: Value, graph: GraphForm)

  function Along(m: map<Name, Name>): Name -> Name {
    n => if n in m then m[n] else n
  }

  /** Interchangeable nodes are renamed by `sigma` in their `id` and in the edges only; then `alpha`
      renames everywhere. */
  function NodeBy(alpha: Name -> Name, sigma: Name -> Name): GraphNode -> GraphNode {
    (v: GraphNode) => GraphNode(alpha(if v.cls.Some? then sigma(v.id) else v.id), v.cls, RenameBy(alpha, v.body))
  }

  function EdgeBy(alpha: Name -> Name, sigma: Name -> Name): Value -> Value {
    (e: Value) => RenameBy(alpha, RenameBy(sigma, e))
  }

  function GraphBy(alpha: Name -> Name, sigma: Name -> Name, g: Graph): GraphForm {
    GraphForm(RenameBy(alpha, g.rest),
              multiset(Mapped(NodeBy(alpha, sigma), g.nodes)),
              multiset(Mapped(EdgeBy(alpha, sigma), g.edges)))
  }

  // ---------- the choices ----------

  predicate Injective(m: map<Name, Name>) {
    forall x, y :: x in m && y in m ==> m[x] == m[y] ==> x == y
  }

  /** A numbering of the declared identities. */
  ghost predicate Assignment(ids: set<Name>, m: map<Name, Name>) {
    && m.Keys == ids && Injective(m)
    && forall n <- m :: m[n].Alpha? && m[n].index < |ids|
  }

  ghost predicate Member(g: Graph, n: Name, c: string) {
    exists i :: 0 <= i < |g.nodes| && g.nodes[i].id == n && g.nodes[i].cls == Some(c)
  }

  function ClassMembers(g: Graph, c: string): set<Name> {
    set i | 0 <= i < |g.nodes| && g.nodes[i].cls == Some(c) :: g.nodes[i].id
  }

  ghost function Movable(g: Graph): set<Name> {
    set i | 0 <= i < |g.nodes| && g.nodes[i].cls.Some? :: g.nodes[i].id
  }

  /** A numbering of the interchangeable nodes, class by class. */
  ghost predicate Choice(g: Graph, m: map<Name, Name>) {
    && m.Keys == Movable(g) && Injective(m)
    && forall n, c :: n in m && Member(g, n, c) ==> m[n].Sym? && m[n].cls == c && m[n].place < |ClassMembers(g, c)|
  }

  ghost predicate TotalOrder<T(!new)>(less: (T, T) -> bool) {
    && (forall x, y :: x != y ==> less(x, y) || less(y, x))
    && (forall x, y :: less(x, y) ==> !less(y, x))
    && (forall x, y, z {:trigger less(x, y), less(y, z)} :: less(x, y) && less(y, z) ==> less(x, z))
  }

  // ---------- the canonical form ----------

  function Factorial(n: nat): nat {
    if n == 0 then 1 else n * Factorial(n - 1)
  }

  /** `maximum` bounds the numberings of identities tried; `small` stands for the same bound on the
      permutations of a graph, which depends on how many nodes each class has. `first` is the one
      numbering used beyond the bound. The orders compare encodings. */
  datatype Policy = Policy(
    maximum: nat,
    small: multiset<string> -> bool,
    first: set<Name> -> map<Name, Name>,
    lessGraph: (GraphForm, GraphForm) -> bool,
    less: (Form, Form) -> bool)

  ghost predicate SoundPolicy(p: Policy) {
    && TotalOrder(p.lessGraph) && TotalOrder(p.less)
    && forall ids :: Assignment(ids, p.first(ids))
  }

  function ClassLabels(nodes: seq<GraphNode>): multiset<string> {
    if nodes == [] then multiset{}
    else ClassLabels(nodes[..|nodes| - 1]) + LabelOf(nodes[|nodes| - 1])
  }

  ghost predicate Tried(p: Policy, ids: set<Name>, m: map<Name, Name>) {
    if Factorial(|ids|) <= p.maximum then Assignment(ids, m) else m == p.first(ids)
  }

  ghost predicate GraphCandidate(p: Policy, alpha: map<Name, Name>, g: Graph, f: GraphForm) {
    if p.small(ClassLabels(g.nodes)) then exists s :: Chosen(alpha, g, s, f)
    else f == GraphBy(Along(alpha), Along(map[]), g)
  }

  /** The form under one numbering of identities: the graph is the least over its own choices. */
  ghost predicate FormFor(p: Policy, alpha: map<Name, Name>, d: Doc, f: Form) {
    && f.plain == RenameBy(Along(alpha), d.plain)
    && GraphCandidate(p, alpha, d.graph, f.graph)
    && forall o :: GraphCandidate(p, alpha, d.graph, o) ==> !p.lessGraph(o, f.graph)
  }

  ghost predicate Canonical(p: Policy, ids: set<Name>, d: Doc, f: Form) {
    && (exists m :: Tried(p, ids, m) && FormFor(p, m, d, f))
    && forall m, o :: Tried(p, ids, m) && FormFor(p, m, d, o) ==> !p.less(o, f)
  }

  // ---------- states that differ in names only ----------

  function VariantNode(pi: Name -> Name, tau: Name -> Name): GraphNode -> GraphNode {
    (v: GraphNode) => GraphNode(if v.cls.Some? then tau(v.id) else pi(v.id), v.cls, RenameBy(pi, v.body))
  }

  ghost predicate Bijection(m: map<Name, Name>, from: set<Name>, to: set<Name>) {
    m.Keys == from && Injective(m) && Into(m, to) && Onto(m, to)
  }

  ghost predicate Into(m: map<Name, Name>, to: set<Name>) {
    forall n <- m :: m[n] in to
  }

  ghost predicate Onto(m: map<Name, Name>, to: set<Name>) {
    forall x <- to :: Hit(m, x)
  }

  ghost predicate Hit(m: map<Name, Name>, x: Name) {
    exists n :: n in m && m[n] == x
  }

  ghost function NodeNames(v: GraphNode): set<Name> {
    Names(v.body) + (if v.cls.Some? then {} else {v.id})
  }

  /** What renaming must not run into: a name is renamed, or it is none of the new names. */
  ghost predicate Apart(names: set<Name>, from: set<Name>, to: set<Name>) {
    forall n <- names :: n.Plain? && (n in from || n !in to)
  }

  /** `from` and `to` are apart on everything in the state the respective renaming touches. */
  ghost predicate GraphApart(g: Graph, ids: set<Name>, newIds: set<Name>, moved: set<Name>, newMoved: set<Name>) {
    && Apart(Names(g.rest), ids, newIds)
    && (forall v <- g.nodes :: Apart(NodeNames(v), ids, newIds))
    && (forall e <- g.edges :: Apart(Names(e), ids + moved, newIds + newMoved))
  }

  ghost predicate PlainNames(s: set<Name>) {
    forall n <- s :: n.Plain?
  }

  ghost predicate SameClasses(tau: map<Name, Name>, g: Graph, h: Graph) {
    && (forall n, c :: n in tau && Member(g, n, c) ==> Member(h, tau[n], c))
    && (forall n, c :: n in tau && Member(h, tau[n], c) ==> Member(g, n, c))
  }

  /** Both renamings at once. */
  ghost function Both(pi: map<Name, Name>, tau: map<Name, Name>): Name -> Name {
    n => if n in tau then tau[n] else if n in pi then pi[n] else n
  }

  function RenameValue(f: Name -> Name): Value -> Value {
    (v: Value) => RenameBy(f, v)
  }

  /** The second state is the first with its identities renamed by the bijection `pi` and its
      interchangeable nodes permuted or renamed within their classes by `tau`. New names may be old
      names of either kind; only a name that is not renamed must be none of the new ones. */
  ghost predicate Variant(pi: map<Name, Name>, tau: map<Name, Name>, ids: set<Name>, d: Doc, newIds: set<Name>,
        e: Doc) {
    var (g, h) := (d.graph, e.graph);
    && Bijection(pi, ids, newIds) && Bijection(tau, Movable(g), Movable(h)) && SameClasses(tau, g, h)
    && PlainNames(newIds) && PlainNames(Movable(h)) && PlainNames(ids) && PlainNames(Movable(g))
    && ids !! Movable(g) && newIds !! Movable(h)
    && Apart(Names(d.plain), ids, newIds) && GraphApart(g, ids, newIds, Movable(g), Movable(h))
    && e.plain == RenameBy(Along(pi), d.plain) && h.rest == RenameBy(Along(pi), g.rest)
    && multiset(h.nodes) == multiset(Mapped(VariantNode(Along(pi), Along(tau)), g.nodes))
    && multiset(h.edges) == multiset(Mapped(RenameValue(Both(pi, tau)), g.edges))
  }

  // ---------- numberings of variants correspond ----------

  /** `first` numbers a name as `second` numbers its image. */
  ghost predicate Pulled(tau: map<Name, Name>, second: map<Name, Name>, first: map<Name, Name>, to: set<Name>) {
    && first.Keys == tau.Keys && second.Keys == to
    && forall n <- tau :: tau[n] in second && first[n] == second[tau[n]]
  }

  lemma PullBack(tau: map<Name, Name>, from: set<Name>, to: set<Name>, second: map<Name, Name>)
        returns (first: map<Name, Name>)
    requires Bijection(tau, from, to) && second.Keys == to
    ensures Pulled(tau, second, first, to)
  {
    first := map n | n in tau :: second[tau[n]];
  }

  lemma PushForward(tau: map<Name, Name>, from: set<Name>, to: set<Name>, first: map<Name, Name>)
        returns (second: map<Name, Name>)
    requires Bijection(tau, from, to) && first.Keys == from
    ensures Pulled(tau, second, first, to)
  {
    second := map n | n in tau :: tau[n] := first[n];
    assert second.Keys == to;
  }

  lemma {:induction false} ImageSize(tau: map<Name, Name>, s: set<Name>, t: set<Name>)
    requires s <= tau.Keys && Injective(tau)
    requires (forall n <- s :: tau[n] in t) && forall x <- t :: exists n :: n in s && tau[n] == x
    ensures |s| == |t|
    decreases |s|
  {
    if s == {} {
      assert t == {};
    } else {
      var n :| n in s;
      ImageSize(tau, s - {n}, t - {tau[n]});
    }
  }

  lemma PulledAssignment(pi: map<Name, Name>, ids: set<Name>, newIds: set<Name>, second: map<Name, Name>,
        first: map<Name, Name>)
    requires Bijection(pi, ids, newIds) && Pulled(pi, second, first, newIds)
    ensures Assignment(ids, first) <==> Assignment(newIds, second)
    ensures |ids| == |newIds|
  {
    ImageSize(pi, ids, newIds);
    if Assignment(ids, first) {
      forall x, y | x in second && y in second && second[x] == second[y] ensures x == y {
        var n :| n in pi && pi[n] == x;
        var k :| k in pi && pi[k] == y;
        assert first[n] == first[k];
      }
      forall x | x in second ensures second[x].Alpha? && second[x].index < |newIds| {
        var n :| n in pi && pi[n] == x;
        assert first[n] == second[x];
      }
    }
    if Assignment(newIds, second) {
      assert Injective(first);
    }
  }

  lemma MemberIs(g: Graph, n: Name, c: string)
    ensures n in ClassMembers(g, c) <==> Member(g, n, c)
    ensures Member(g, n, c) ==> n in Movable(g)
  {
    if Member(g, n, c) {
      var i :| 0 <= i < |g.nodes| && g.nodes[i].id == n && g.nodes[i].cls == Some(c);
    }
  }

  lemma ClassSize(tau: map<Name, Name>, g: Graph, h: Graph, c: string)
    requires Bijection(tau, Movable(g), Movable(h)) && SameClasses(tau, g, h)
    ensures |ClassMembers(g, c)| == |ClassMembers(h, c)|
  {
    hide ClassMembers, Movable, Member;
    forall n ensures (n in ClassMembers(g, c) ==> n in tau && tau[n] in ClassMembers(h, c)) {
      MemberIs(g, n, c);
      if n in tau {
        MemberIs(h, tau[n], c);
      }
    }
    forall x | x in ClassMembers(h, c) ensures exists n :: n in ClassMembers(g, c) && tau[n] == x {
      MemberIs(h, x, c);
      var n :| n in tau && tau[n] == x;
      MemberIs(g, n, c);
    }
    ImageSize(tau, ClassMembers(g, c), ClassMembers(h, c));
  }

  lemma PulledChoice(tau: map<Name, Name>, g: Graph, h: Graph, second: map<Name, Name>, first: map<Name, Name>)
    requires Bijection(tau, Movable(g), Movable(h)) && SameClasses(tau, g, h) && Pulled(tau, second, first, Movable(h))
    ensures Choice(g, first) <==> Choice(h, second)
  {
    hide ClassMembers, Movable, Member;
    if Choice(g, first) {
      forall x, y | x in second && y in second && second[x] == second[y] ensures x == y {
        var n :| n in tau && tau[n] == x;
        var k :| k in tau && tau[k] == y;
        assert first[n] == first[k];
      }
      forall x, c | x in second && Member(h, x, c)
        ensures second[x].Sym? && second[x].cls == c && second[x].place < |ClassMembers(h, c)|
      {
        var n :| n in tau && tau[n] == x;
        assert Member(h, tau[n], c) && Member(g, n, c) && first[n] == second[x];
        ClassSize(tau, g, h, c);
      }
    }
    if Choice(h, second) {
      forall n, c | n in first && Member(g, n, c)
        ensures first[n].Sym? && first[n].cls == c && first[n].place < |ClassMembers(g, c)|
      {
        assert Member(h, tau[n], c);
        ClassSize(tau, g, h, c);
      }
      assert Injective(first);
    }
  }

  lemma ChoiceIsSym(g: Graph, s: map<Name, Name>, n: Name)
    requires Choice(g, s) && n in s
    ensures s[n].Sym?
  {
    var i :| 0 <= i < |g.nodes| && g.nodes[i].cls.Some? && g.nodes[i].id == n;
    assert Member(g, n, g.nodes[i].cls.value);
  }

  /** The parties to a comparison of two variants under corresponding numberings. */
  ghost predicate Paired(pi: map<Name, Name>, tau: map<Name, Name>, ids: set<Name>, d: Doc, newIds: set<Name>, e: Doc,
                         m: map<Name, Name>, n: map<Name, Name>, s: map<Name, Name>, t: map<Name, Name>)
  {
    && Variant(pi, tau, ids, d, newIds, e)
    && Pulled(pi, n, m, newIds) && Pulled(tau, t, s, Movable(e.graph)) && Choice(e.graph, t)
  }

  /** A name takes the same way through the variant and its numbering as through the original's. */
  lemma NameWay(pi: map<Name, Name>, tau: map<Name, Name>, ids: set<Name>, newIds: set<Name>, moved: set<Name>,
        newMoved: set<Name>,
                m: map<Name, Name>, n: map<Name, Name>, s: map<Name, Name>, t: map<Name, Name>, x: Name)
    requires Bijection(pi, ids, newIds) && Pulled(pi, n, m, newIds) && Bijection(tau, moved, newMoved)
        && Pulled(tau, t, s, newMoved)
    requires PlainNames(newIds) && PlainNames(ids) && (x in tau ==> s[x].Sym?)
    requires ids !! moved && newIds !! newMoved
    requires x.Plain? && (x in ids + moved || x !in newIds + newMoved)
    ensures Along(n)(Along(t)(Both(pi, tau)(x))) == Along(m)(Along(s)(x))
  {
    if x in tau {
      assert tau[x] in newMoved && s[x] !in n && s[x] !in m;
    } else if x in pi {
      assert pi[x] in newIds && pi[x] !in t && x !in s;
    } else {
      assert x !in t && x !in n && x !in m && x !in s;
    }
  }

  lemma NameAlike(pi: map<Name, Name>, tau: map<Name, Name>, ids: set<Name>, d: Doc, newIds: set<Name>, e: Doc,
                  m: map<Name, Name>, n: map<Name, Name>, s: map<Name, Name>, t: map<Name, Name>, x: Name)
    requires Paired(pi, tau, ids, d, newIds, e, m, n, s, t)
    requires x.Plain? && (x in ids + Movable(d.graph) || x !in newIds + Movable(e.graph))
    ensures Along(n)(Along(t)(Both(pi, tau)(x))) == Along(m)(Along(s)(x))
  {
    hide Along, Movable, SameClasses, Choice, Apart, GraphApart, Mapped, RenameBy, Names, EdgeBy, VariantNode,
        PlainNames, Injective, Both;
    if x in tau {
      ChoiceIsSym(e.graph, t, tau[x]);
    }
    NameWay(pi, tau, ids, newIds, Movable(d.graph), Movable(e.graph), m, n, s, t, x);
  }

  lemma ValueAlike(pi: map<Name, Name>, ids: set<Name>, newIds: set<Name>, m: map<Name, Name>, n: map<Name, Name>,
        v: Value)
    requires Bijection(pi, ids, newIds) && Pulled(pi, n, m, newIds) && Apart(Names(v), ids, newIds)
    ensures RenameBy(Along(n), RenameBy(Along(pi), v)) == RenameBy(Along(m), v)
  {
    RenameTwice(Along(n), Along(pi), Along(m), v);
  }

  lemma EdgeNameAlike(pi: map<Name, Name>, tau: map<Name, Name>, ids: set<Name>, d: Doc, newIds: set<Name>, e: Doc,
                  m: map<Name, Name>, n: map<Name, Name>, s: map<Name, Name>, t: map<Name, Name>, x: Value, y: Name)
    requires Paired(pi, tau, ids, d, newIds, e, m, n, s, t) && x in d.graph.edges && y in Names(x)
    ensures Along(n)(Along(t)(Both(pi, tau)(y))) == Along(m)(Along(s)(y))
  {
    assert Apart(Names(x), ids + Movable(d.graph), newIds + Movable(e.graph));
    hide Along, Names, Movable, Both;
    NameAlike(pi, tau, ids, d, newIds, e, m, n, s, t, y);
  }

  lemma EdgeAlike(pi: map<Name, Name>, tau: map<Name, Name>, ids: set<Name>, d: Doc, newIds: set<Name>, e: Doc,
                  m: map<Name, Name>, n: map<Name, Name>, s: map<Name, Name>, t: map<Name, Name>, x: Value)
    requires Paired(pi, tau, ids, d, newIds, e, m, n, s, t) && x in d.graph.edges
    ensures EdgeBy(Along(n), Along(t))(RenameValue(Both(pi, tau))(x)) == EdgeBy(Along(m), Along(s))(x)
  {
    hide Paired, Along, Names, RenameBy, Both;
    forall y | y in Names(x) ensures Along(n)(Along(t)(Both(pi, tau)(y))) == Along(m)(Along(s)(y)) {
      EdgeNameAlike(pi, tau, ids, d, newIds, e, m, n, s, t, x, y);
    }
    RenameAlike(Along(n), Along(t), Both(pi, tau), Along(m), Along(s), x);
  }

  lemma NodeApart(g: Graph, ids: set<Name>, newIds: set<Name>, moved: set<Name>, newMoved: set<Name>, v: GraphNode)
    requires GraphApart(g, ids, newIds, moved, newMoved) && v in g.nodes
    ensures Apart(Names(v.body), ids, newIds)
    ensures v.cls.None? ==> v.id.Plain? && (v.id in ids || v.id !in newIds)
    ensures v.cls.Some? ==> v.id in Movable(g)
  {
    assert Apart(NodeNames(v), ids, newIds);
    if v.cls.Some? {
      var i :| 0 <= i < |g.nodes| && g.nodes[i] == v;
    }
  }

  lemma NodeNameAlike(pi: map<Name, Name>, tau: map<Name, Name>, ids: set<Name>, d: Doc, newIds: set<Name>, e: Doc,
                  m: map<Name, Name>, n: map<Name, Name>, s: map<Name, Name>, t: map<Name, Name>, v: GraphNode)
    requires Paired(pi, tau, ids, d, newIds, e, m, n, s, t) && v in d.graph.nodes
    ensures if v.cls.Some? then Along(n)(Along(t)(Along(tau)(v.id))) == Along(m)(Along(s)(v.id))
            else Along(n)(Along(pi)(v.id)) == Along(m)(v.id)
  {
    hide Movable, SameClasses, Choice, GraphApart, RenameBy, Names, Mapped, Apart, EdgeBy, VariantNode, Injective;
    NodeApart(d.graph, ids, newIds, Movable(d.graph), Movable(e.graph), v);
    if v.cls.Some? {
      NameAlike(pi, tau, ids, d, newIds, e, m, n, s, t, v.id);
    }
  }

  lemma NodeAlike(pi: map<Name, Name>, tau: map<Name, Name>, ids: set<Name>, d: Doc, newIds: set<Name>, e: Doc,
                  m: map<Name, Name>, n: map<Name, Name>, s: map<Name, Name>, t: map<Name, Name>, v: GraphNode)
    requires Paired(pi, tau, ids, d, newIds, e, m, n, s, t) && v in d.graph.nodes
    ensures NodeBy(Along(n), Along(t))(VariantNode(Along(pi), Along(tau))(v)) == NodeBy(Along(m), Along(s))(v)
  {
    hide Paired, RenameBy, Along;
    NodeNameAlike(pi, tau, ids, d, newIds, e, m, n, s, t, v);
    BodyAlike(pi, tau, ids, d, newIds, e, m, n, s, t, v);
  }

  lemma BodyAlike(pi: map<Name, Name>, tau: map<Name, Name>, ids: set<Name>, d: Doc, newIds: set<Name>, e: Doc,
                  m: map<Name, Name>, n: map<Name, Name>, s: map<Name, Name>, t: map<Name, Name>, v: GraphNode)
    requires Paired(pi, tau, ids, d, newIds, e, m, n, s, t) && v in d.graph.nodes
    ensures RenameBy(Along(n), RenameBy(Along(pi), v.body)) == RenameBy(Along(m), v.body)
  {
    hide Movable, SameClasses, Choice, GraphApart, RenameBy, Names, Mapped, Along, Pulled, Apart, Bijection, EdgeBy;
    NodeApart(d.graph, ids, newIds, Movable(d.graph), Movable(e.graph), v);
    ValueAlike(pi, ids, newIds, m, n, v.body);
  }

  lemma VariantParts(pi: map<Name, Name>, tau: map<Name, Name>, ids: set<Name>, d: Doc, newIds: set<Name>, e: Doc)
    requires Variant(pi, tau, ids, d, newIds, e)
    ensures Bijection(pi, ids, newIds) && Bijection(tau, Movable(d.graph), Movable(e.graph))
        && SameClasses(tau, d.graph, e.graph)
    ensures Apart(Names(d.plain), ids, newIds) && Apart(Names(d.graph.rest), ids, newIds)
    ensures e.plain == RenameBy(Along(pi), d.plain) && e.graph.rest == RenameBy(Along(pi), d.graph.rest)
    ensures multiset(e.graph.nodes) == multiset(Mapped(VariantNode(Along(pi), Along(tau)), d.graph.nodes))
    ensures multiset(e.graph.edges) == multiset(Mapped(RenameValue(Both(pi, tau)), d.graph.edges))
  {
    hide EdgeBy, VariantNode, Along, Mapped, Movable, Apart, SameClasses, Bijection, RenameBy;
  }

  lemma NodesCompose(pi: map<Name, Name>, tau: map<Name, Name>, ids: set<Name>, d: Doc, newIds: set<Name>, e: Doc,
                      m: map<Name, Name>, n: map<Name, Name>, s: map<Name, Name>, t: map<Name, Name>)
    requires Paired(pi, tau, ids, d, newIds, e, m, n, s, t)
    ensures Composes(NodeBy(Along(n), Along(t)), VariantNode(Along(pi), Along(tau)), NodeBy(Along(m), Along(s)),
        d.graph.nodes)
  {
    hide *;
    forall x | x in d.graph.nodes
      ensures NodeBy(Along(n), Along(t))(VariantNode(Along(pi), Along(tau))(x)) == NodeBy(Along(m), Along(s))(x)
    {
      NodeAlike(pi, tau, ids, d, newIds, e, m, n, s, t, x);
    }
    ComposesIf(NodeBy(Along(n), Along(t)), VariantNode(Along(pi), Along(tau)), NodeBy(Along(m), Along(s)),
      d.graph.nodes);
  }

  lemma NodesAlike(pi: map<Name, Name>, tau: map<Name, Name>, ids: set<Name>, d: Doc, newIds: set<Name>, e: Doc,
                      m: map<Name, Name>, n: map<Name, Name>, s: map<Name, Name>, t: map<Name, Name>)
    requires Paired(pi, tau, ids, d, newIds, e, m, n, s, t)
    ensures multiset(Mapped(NodeBy(Along(n), Along(t)), e.graph.nodes)) ==
        multiset(Mapped(NodeBy(Along(m), Along(s)), d.graph.nodes))
  {
    NodesCompose(pi, tau, ids, d, newIds, e, m, n, s, t);
    VariantParts(pi, tau, ids, d, newIds, e);
    hide *;
    MappedTwice(NodeBy(Along(n), Along(t)), VariantNode(Along(pi), Along(tau)), NodeBy(Along(m), Along(s)),
      d.graph.nodes, e.graph.nodes);
  }

  lemma EdgesCompose(pi: map<Name, Name>, tau: map<Name, Name>, ids: set<Name>, d: Doc, newIds: set<Name>, e: Doc,
                      m: map<Name, Name>, n: map<Name, Name>, s: map<Name, Name>, t: map<Name, Name>)
    requires Paired(pi, tau, ids, d, newIds, e, m, n, s, t)
    ensures Composes(EdgeBy(Along(n), Along(t)), RenameValue(Both(pi, tau)), EdgeBy(Along(m), Along(s)),
        d.graph.edges)
  {
    hide *;
    forall x | x in d.graph.edges
      ensures EdgeBy(Along(n), Along(t))(RenameValue(Both(pi, tau))(x)) == EdgeBy(Along(m), Along(s))(x)
    {
      EdgeAlike(pi, tau, ids, d, newIds, e, m, n, s, t, x);
    }
    ComposesIf(EdgeBy(Along(n), Along(t)), RenameValue(Both(pi, tau)), EdgeBy(Along(m), Along(s)), d.graph.edges);
  }

  lemma EdgesAlike(pi: map<Name, Name>, tau: map<Name, Name>, ids: set<Name>, d: Doc, newIds: set<Name>, e: Doc,
                      m: map<Name, Name>, n: map<Name, Name>, s: map<Name, Name>, t: map<Name, Name>)
    requires Paired(pi, tau, ids, d, newIds, e, m, n, s, t)
    ensures multiset(Mapped(EdgeBy(Along(n), Along(t)), e.graph.edges)) ==
        multiset(Mapped(EdgeBy(Along(m), Along(s)), d.graph.edges))
  {
    EdgesCompose(pi, tau, ids, d, newIds, e, m, n, s, t);
    VariantParts(pi, tau, ids, d, newIds, e);
    hide *;
    MappedTwice(EdgeBy(Along(n), Along(t)), RenameValue(Both(pi, tau)), EdgeBy(Along(m), Along(s)), d.graph.edges,
      e.graph.edges);
  }

  /** Corresponding numberings give variants the same form. */
  lemma GraphAlike(pi: map<Name, Name>, tau: map<Name, Name>, ids: set<Name>, d: Doc, newIds: set<Name>, e: Doc,
                   m: map<Name, Name>, n: map<Name, Name>, s: map<Name, Name>, t: map<Name, Name>)
    requires Paired(pi, tau, ids, d, newIds, e, m, n, s, t)
    ensures GraphBy(Along(n), Along(t), e.graph) == GraphBy(Along(m), Along(s), d.graph)
  {
    VariantParts(pi, tau, ids, d, newIds, e);
    hide Variant, EdgeBy, NodeBy, Along, Mapped, VariantNode, Apart, Bijection, Pulled, Choice, RenameBy, Names,
        Movable;
    ValueAlike(pi, ids, newIds, m, n, d.graph.rest);
    NodesAlike(pi, tau, ids, d, newIds, e, m, n, s, t);
    EdgesAlike(pi, tau, ids, d, newIds, e, m, n, s, t);
  }

  // ---------- complete below the bounds ----------

  /** Class sizes, and with them the test against the bound, survive renaming. */
  function ClassOf(): GraphNode -> Option<string> {
    (v: GraphNode) => v.cls
  }

  function LabelOf(v: GraphNode): multiset<string> {
    if v.cls.None? then multiset{} else multiset{v.cls.value}
  }

  lemma OneLabel(v: GraphNode, c: string)
    ensures LabelOf(v)[c] == multiset{v.cls}[Some(c)]
  {}

  lemma {:induction false} LabelsOf(nodes: seq<GraphNode>, c: string)
    ensures ClassLabels(nodes)[c] == multiset(Mapped(ClassOf(), nodes))[Some(c)]
    decreases |nodes|
  {
    if nodes != [] {
      var init, last := nodes[..|nodes| - 1], nodes[|nodes| - 1];
      LabelsOf(init, c);
      MappedLast(ClassOf(), nodes);
      assert ClassLabels(nodes) == ClassLabels(init) + LabelOf(last);
      hide Mapped, ClassLabels;
      assert multiset(Mapped(ClassOf(), nodes)) == multiset(Mapped(ClassOf(), init)) + multiset{last.cls};
      OneLabel(last, c);
      hide LabelOf;
    }
  }

  lemma LabelsAlike(pi: Name -> Name, tau: Name -> Name, nodes: seq<GraphNode>, others: seq<GraphNode>)
    requires multiset(others) == multiset(Mapped(VariantNode(pi, tau), nodes))
    ensures ClassLabels(others) == ClassLabels(nodes)
  {
    ComposesIf(ClassOf(), VariantNode(pi, tau), ClassOf(), nodes);
    MappedTwice(ClassOf(), VariantNode(pi, tau), ClassOf(), nodes, others);
    forall c ensures ClassLabels(others)[c] == ClassLabels(nodes)[c] {
      LabelsOf(nodes, c);
      LabelsOf(others, c);
    }
  }

  ghost predicate Chosen(alpha: map<Name, Name>, g: Graph, s: map<Name, Name>, f: GraphForm) {
    Choice(g, s) && f == GraphBy(Along(alpha), Along(s), g)
  }

  lemma CandidateForward(pi: map<Name, Name>, tau: map<Name, Name>, ids: set<Name>, d: Doc, newIds: set<Name>, e: Doc,
                         m: map<Name, Name>, n: map<Name, Name>, s: map<Name, Name>, f: GraphForm)
                           returns (t: map<Name, Name>)
    requires Variant(pi, tau, ids, d, newIds, e) && Pulled(pi, n, m, newIds) && Chosen(m, d.graph, s, f)
    ensures Chosen(n, e.graph, t, f)
  {
    hide Variant, Pulled, Choice, GraphBy;
    VariantParts(pi, tau, ids, d, newIds, e);
    t := Forward(tau, d.graph, e.graph, s);
    GraphAlike(pi, tau, ids, d, newIds, e, m, n, s, t);
  }

  lemma CandidateBack(pi: map<Name, Name>, tau: map<Name, Name>, ids: set<Name>, d: Doc, newIds: set<Name>, e: Doc,
                      m: map<Name, Name>, n: map<Name, Name>, t: map<Name, Name>, f: GraphForm)
                        returns (s: map<Name, Name>)
    requires Variant(pi, tau, ids, d, newIds, e) && Pulled(pi, n, m, newIds) && Chosen(n, e.graph, t, f)
    ensures Chosen(m, d.graph, s, f)
  {
    hide Variant, Pulled, Choice, GraphBy;
    VariantParts(pi, tau, ids, d, newIds, e);
    s := Back(tau, d.graph, e.graph, t);
    GraphAlike(pi, tau, ids, d, newIds, e, m, n, s, t);
  }

  lemma VariantLabels(pi: map<Name, Name>, tau: map<Name, Name>, ids: set<Name>, d: Doc, newIds: set<Name>, e: Doc)
    requires Variant(pi, tau, ids, d, newIds, e)
    ensures ClassLabels(e.graph.nodes) == ClassLabels(d.graph.nodes)
  {
    hide *;
    VariantParts(pi, tau, ids, d, newIds, e);
    LabelsAlike(Along(pi), Along(tau), d.graph.nodes, e.graph.nodes);
  }

  /** Under corresponding numberings of identities, variants have the same candidate graphs. */
  lemma CandidatesAlike(p: Policy, pi: map<Name, Name>, tau: map<Name, Name>, ids: set<Name>, d: Doc,
        newIds: set<Name>, e: Doc,
                        m: map<Name, Name>, n: map<Name, Name>, f: GraphForm)
    requires Variant(pi, tau, ids, d, newIds, e) && Pulled(pi, n, m, newIds) && p.small(ClassLabels(d.graph.nodes))
    ensures GraphCandidate(p, m, d.graph, f) <==> GraphCandidate(p, n, e.graph, f)
  {
    hide Variant, Pulled, Chosen, ClassLabels;
    VariantLabels(pi, tau, ids, d, newIds, e);
    if GraphCandidate(p, m, d.graph, f) {
      var s :| Chosen(m, d.graph, s, f);
      var t := CandidateForward(pi, tau, ids, d, newIds, e, m, n, s, f);
    }
    if GraphCandidate(p, n, e.graph, f) {
      var t :| Chosen(n, e.graph, t, f);
      var s := CandidateBack(pi, tau, ids, d, newIds, e, m, n, t, f);
    }
  }

  lemma Forward(tau: map<Name, Name>, g: Graph, h: Graph, s: map<Name, Name>) returns (t: map<Name, Name>)
    requires Bijection(tau, Movable(g), Movable(h)) && SameClasses(tau, g, h) && Choice(g, s)
    ensures Choice(h, t) && Pulled(tau, t, s, Movable(h))
  {
    t := PushForward(tau, Movable(g), Movable(h), s);
    PulledChoice(tau, g, h, t, s);
  }

  lemma Back(tau: map<Name, Name>, g: Graph, h: Graph, t: map<Name, Name>) returns (s: map<Name, Name>)
    requires Bijection(tau, Movable(g), Movable(h)) && SameClasses(tau, g, h) && Choice(h, t)
    ensures Choice(g, s) && Pulled(tau, t, s, Movable(h))
  {
    s := PullBack(tau, Movable(g), Movable(h), t);
    PulledChoice(tau, g, h, t, s);
  }

  lemma FormsAlike(p: Policy, pi: map<Name, Name>, tau: map<Name, Name>, ids: set<Name>, d: Doc, newIds: set<Name>,
        e: Doc,
                   m: map<Name, Name>, n: map<Name, Name>, f: Form)
    requires Variant(pi, tau, ids, d, newIds, e) && Pulled(pi, n, m, newIds) && p.small(ClassLabels(d.graph.nodes))
    ensures FormFor(p, m, d, f) <==> FormFor(p, n, e, f)
  {
    hide Variant, Along, Pulled, RenameBy, GraphCandidate;
    PlainAlike(pi, tau, ids, d, newIds, e, m, n);
    forall o ensures GraphCandidate(p, m, d.graph, o) <==> GraphCandidate(p, n, e.graph, o) {
      CandidatesAlike(p, pi, tau, ids, d, newIds, e, m, n, o);
    }
  }

  lemma PlainAlike(pi: map<Name, Name>, tau: map<Name, Name>, ids: set<Name>, d: Doc, newIds: set<Name>, e: Doc,
        m: map<Name, Name>, n: map<Name, Name>)
    requires Variant(pi, tau, ids, d, newIds, e) && Pulled(pi, n, m, newIds)
    ensures RenameBy(Along(n), e.plain) == RenameBy(Along(m), d.plain)
  {
    hide *;
    VariantParts(pi, tau, ids, d, newIds, e);
    ValueAlike(pi, ids, newIds, m, n, d.plain);
  }

  ghost predicate SameForms(p: Policy, m: map<Name, Name>, d: Doc, n: map<Name, Name>, e: Doc) {
    forall o :: FormFor(p, m, d, o) <==> FormFor(p, n, e, o)
  }

  /** Every numbering tried for `d` gives the forms some numbering tried for `e` gives. */
  ghost predicate Matched(p: Policy, ids: set<Name>, d: Doc, newIds: set<Name>, e: Doc) {
    forall m :: Tried(p, ids, m) ==> exists n :: Tried(p, newIds, n) && SameForms(p, m, d, n, e)
  }

  lemma MatchForward(p: Policy, pi: map<Name, Name>, tau: map<Name, Name>, ids: set<Name>, d: Doc, newIds: set<Name>,
        e: Doc, m: map<Name, Name>)
    returns (n: map<Name, Name>)
    requires Variant(pi, tau, ids, d, newIds, e) && Assignment(ids, m) && p.small(ClassLabels(d.graph.nodes))
    ensures Assignment(newIds, n) && SameForms(p, m, d, n, e)
  {
    hide Variant, Assignment, Pulled, FormFor, Bijection, ClassLabels;
    VariantParts(pi, tau, ids, d, newIds, e);
    AssignmentKeys(ids, m);
    n := PushForward(pi, ids, newIds, m);
    PulledAssignment(pi, ids, newIds, n, m);
    forall o ensures FormFor(p, m, d, o) <==> FormFor(p, n, e, o) {
      FormsAlike(p, pi, tau, ids, d, newIds, e, m, n, o);
    }
  }

  lemma MatchBack(p: Policy, pi: map<Name, Name>, tau: map<Name, Name>, ids: set<Name>, d: Doc, newIds: set<Name>,
        e: Doc, n: map<Name, Name>)
    returns (m: map<Name, Name>)
    requires Variant(pi, tau, ids, d, newIds, e) && Assignment(newIds, n) && p.small(ClassLabels(d.graph.nodes))
    ensures Assignment(ids, m) && SameForms(p, n, e, m, d)
  {
    hide Variant, Assignment, Pulled, FormFor, Bijection, ClassLabels;
    VariantParts(pi, tau, ids, d, newIds, e);
    AssignmentKeys(newIds, n);
    m := PullBack(pi, ids, newIds, n);
    PulledAssignment(pi, ids, newIds, n, m);
    forall o ensures FormFor(p, n, e, o) <==> FormFor(p, m, d, o) {
      FormsAlike(p, pi, tau, ids, d, newIds, e, m, n, o);
    }
  }

  lemma AssignmentKeys(ids: set<Name>, m: map<Name, Name>)
    requires Assignment(ids, m)
    ensures m.Keys == ids
  {
  }

  lemma BothMatched(p: Policy, pi: map<Name, Name>, tau: map<Name, Name>, ids: set<Name>, d: Doc, newIds: set<Name>,
        e: Doc)
    requires Variant(pi, tau, ids, d, newIds, e)
    requires Factorial(|ids|) <= p.maximum && p.small(ClassLabels(d.graph.nodes))
    ensures Matched(p, ids, d, newIds, e) && Matched(p, newIds, e, ids, d)
  {
    hide Variant, Assignment, SameForms, ClassLabels, Factorial;
    SameSize(pi, tau, ids, d, newIds, e);
    forall m | Tried(p, ids, m) ensures exists n :: Tried(p, newIds, n) && SameForms(p, m, d, n, e) {
      var n := MatchForward(p, pi, tau, ids, d, newIds, e, m);
      assert Tried(p, newIds, n);
    }
    forall n | Tried(p, newIds, n) ensures exists m :: Tried(p, ids, m) && SameForms(p, n, e, m, d) {
      var m := MatchBack(p, pi, tau, ids, d, newIds, e, n);
      assert Tried(p, ids, m);
    }
  }

  lemma SameSize(pi: map<Name, Name>, tau: map<Name, Name>, ids: set<Name>, d: Doc, newIds: set<Name>, e: Doc)
    requires Variant(pi, tau, ids, d, newIds, e)
    ensures |ids| == |newIds|
  {
    hide Variant;
    VariantParts(pi, tau, ids, d, newIds, e);
    ImageSize(pi, ids, newIds);
  }

  lemma MatchedCanonical(p: Policy, ids: set<Name>, d: Doc, newIds: set<Name>, e: Doc, f: Form)
    requires Matched(p, ids, d, newIds, e) && Matched(p, newIds, e, ids, d)
    requires Canonical(p, ids, d, f)
    ensures Canonical(p, newIds, e, f)
  {
    hide Tried, FormFor, Matched;
    var m :| Tried(p, ids, m) && FormFor(p, m, d, f);
    var n := MatchOf(p, ids, d, newIds, e, m, f);
    forall n, o | Tried(p, newIds, n) && FormFor(p, n, e, o) ensures !p.less(o, f) {
      var k := MatchOf(p, newIds, e, ids, d, n, o);
    }
  }

  lemma MatchOf(p: Policy, ids: set<Name>, d: Doc, newIds: set<Name>, e: Doc, m: map<Name, Name>, f: Form)
        returns (n: map<Name, Name>)
    requires Matched(p, ids, d, newIds, e) && Tried(p, ids, m) && FormFor(p, m, d, f)
    ensures Tried(p, newIds, n) && FormFor(p, n, e, f)
  {
    hide Tried, FormFor;
    n :| Tried(p, newIds, n) && SameForms(p, m, d, n, e);
  }

  /** Below both bounds, states that differ in the names of their identities and in the arrangement
      of their interchangeable nodes have the same canonical form. */
  lemma VariantsAgree(p: Policy, pi: map<Name, Name>, tau: map<Name, Name>, ids: set<Name>, d: Doc, newIds: set<Name>,
        e: Doc, f: Form)
    requires Variant(pi, tau, ids, d, newIds, e)
    requires Factorial(|ids|) <= p.maximum && p.small(ClassLabels(d.graph.nodes))
    ensures Canonical(p, ids, d, f) <==> Canonical(p, newIds, e, f)
  {
    hide *;
    BothMatched(p, pi, tau, ids, d, newIds, e);
    if Canonical(p, ids, d, f) {
      MatchedCanonical(p, ids, d, newIds, e, f);
    }
    if Canonical(p, newIds, e, f) {
      MatchedCanonical(p, newIds, e, ids, d, f);
    }
  }

  // ---------- sound always ----------

  /** An input state: made-up names occur nowhere, and no identity is an interchangeable node. */
  ghost predicate Input(ids: set<Name>, d: Doc) {
    && PlainNames(Names(d.plain)) && PlainNames(Names(d.graph.rest)) && PlainNames(ids) && PlainNames(Movable(d.graph))
    && (forall v <- d.graph.nodes ::
        PlainNames(Names(v.body)) && v.id.Plain? && (v.cls.None? ==> v.id !in Movable(d.graph)))
    && (forall e <- d.graph.edges :: PlainNames(Names(e)))
    && ids !! Movable(d.graph)
  }

  /** A numbering whose numbers can be told from the names of an input and from those of the other
      kind of numbering. */
  ghost predicate Numbers(m: map<Name, Name>, from: set<Name>, alpha: bool) {
    Injective(m) && m.Keys <= from && forall x <- m :: x.Plain? && (if alpha then m[x].Alpha? else m[x].Sym?)
  }

  ghost function Inverse(m: map<Name, Name>): map<Name, Name>
    requires Injective(m)
  {
    map x | x in m :: m[x] := x
  }

  lemma InverseUndoes(m: map<Name, Name>, from: set<Name>, alpha: bool, x: Name)
    requires Numbers(m, from, alpha) && (x.Plain? || (if alpha then x.Sym? else x.Alpha?))
    ensures Along(Inverse(m))(Along(m)(x)) == x
    ensures Along(Inverse(m))(x) == x
  {
    if x in m {
      assert m[x] in Inverse(m);
    }
  }

  /** Taking the numbers of `n` and `t` off again. */
  lemma UndoValue(n: map<Name, Name>, from: set<Name>, alpha: bool, v: Value)
    requires Numbers(n, from, alpha) && PlainNames(Names(v))
    ensures RenameBy(Along(Inverse(n)), RenameBy(Along(n), v)) == v
  {
    forall x | x in Names(v) ensures Along(Inverse(n))(Along(n)(x)) == Id()(x) {
      InverseUndoes(n, from, alpha, x);
    }
    RenameTwice(Along(Inverse(n)), Along(n), Id(), v);
    RenameNothing(Id(), v);
  }

  function Id(): Name -> Name {
    n => n
  }

  ghost function Undone(n: map<Name, Name>, t: map<Name, Name>): Name -> Name
    requires Injective(n) && Injective(t)
  {
    Then(Along(Inverse(t)), Along(Inverse(n)))
  }

  lemma UndoName(n: map<Name, Name>, ids: set<Name>, t: map<Name, Name>, moved: set<Name>, x: Name)
    requires Numbers(n, ids, true) && Numbers(t, moved, false) && ids !! moved && x.Plain?
    ensures Undone(n, t)(Along(n)(Along(t)(x))) == x
    ensures x !in moved ==> Undone(n, t)(Along(n)(x)) == x && Along(Inverse(n))(Along(n)(x)) == x
  {
    InverseUndoes(n, ids, true, Along(t)(x));
    InverseUndoes(n, ids, true, x);
    InverseUndoes(t, moved, false, x);
  }

  function Same<A>(): A -> A {
    x => x
  }

  /** Two lists with the same image are images of one another, if the first mapping can be undone. */
  lemma MappedBack<A(!new), B, C(!new)>(undo: B -> C, back: C -> B, from: A -> B, whole: A -> C, s: seq<A>, t: seq<C>)
    requires multiset(Mapped(back, t)) == multiset(Mapped(from, s))
    requires Composes(undo, back, Same(), t) && Composes(undo, from, whole, s)
    ensures multiset(t) == multiset(Mapped(whole, s))
  {
    MappedTwice(undo, back, Same(), t, Mapped(from, s));
    MappedTwice(undo, from, whole, s, Mapped(from, s));
    assert Mapped(Same(), t) == t;
  }

  /** How the numbers of one state read in the other. */
  ghost function Across(m: map<Name, Name>, n: map<Name, Name>): Name -> Name
    requires Injective(n)
  {
    Then(Along(Inverse(n)), Along(m))
  }

  ghost function AcrossBoth(m: map<Name, Name>, s: map<Name, Name>, n: map<Name, Name>, t: map<Name,
        Name>): Name -> Name
    requires Injective(n) && Injective(t)
  {
    Then(Undone(n, t), Then(Along(m), Along(s)))
  }

  /** Both kinds of numbering of an input. */
  ghost predicate Numbered(ids: set<Name>, d: Doc, m: map<Name, Name>, s: map<Name, Name>) {
    Input(ids, d) && Numbers(m, ids, true) && Numbers(s, Movable(d.graph), false)
  }

  lemma EdgeUndo(ids: set<Name>, d: Doc, m: map<Name, Name>, s: map<Name, Name>, e: Value)
    requires Numbered(ids, d, m, s) && e in d.graph.edges
    ensures Injective(m) && Injective(s) && RenameBy(Undone(m, s), RenameBy(Along(m), RenameBy(Along(s), e))) == e
  {
    assert PlainNames(Names(e)) && Injective(m) && Injective(s);
    hide RenameBy, Names, Along, Undone, Input, Injective, Movable;
    forall x | x in Names(e) ensures Undone(m, s)(Along(m)(Along(s)(x))) == Id()(Id()(x)) {
      UndoName(m, ids, s, Movable(d.graph), x);
    }
    RenameThree(Undone(m, s), Along(m), Along(s), e);
  }

  lemma RenameThree(f: Name -> Name, g: Name -> Name, h: Name -> Name, v: Value)
    requires forall n <- Names(v) :: f(g(h(n))) == n
    ensures RenameBy(f, RenameBy(g, RenameBy(h, v))) == v
  {
    hide RenameBy, Names;
    RenameTwice(g, h, Then(g, h), v);
    RenameTwice(f, Then(g, h), Id(), v);
    RenameNothing(Id(), v);
  }

  lemma EdgesUndo(ids: set<Name>, d: Doc, m: map<Name, Name>, s: map<Name, Name>)
    requires Numbered(ids, d, m, s)
    ensures Injective(m) && Injective(s)
    ensures Composes(RenameValue(Undone(m, s)), EdgeBy(Along(m), Along(s)), Same(), d.graph.edges)
  {
    assert Injective(m) && Injective(s);
    hide RenameBy, Numbered, Along, Undone, Injective;
    forall e | e in d.graph.edges ensures RenameBy(Undone(m, s), RenameBy(Along(m), RenameBy(Along(s), e))) == e {
      EdgeUndo(ids, d, m, s, e);
    }
  }

  lemma EdgesAcross(m: map<Name, Name>, s: map<Name, Name>, n: map<Name, Name>, t: map<Name, Name>, edges: seq<Value>)
    requires Injective(n) && Injective(t)
    ensures Composes(RenameValue(Undone(n, t)), EdgeBy(Along(m), Along(s)), RenameValue(AcrossBoth(m, s, n, t)), edges)
  {
    var both := Then(Along(m), Along(s));
    forall e | e in edges
      ensures RenameBy(Undone(n, t), RenameBy(Along(m), RenameBy(Along(s), e))) == RenameBy(AcrossBoth(m, s, n, t), e)
    {
      RenameTwice(Along(m), Along(s), both, e);
      RenameTwice(Undone(n, t), both, AcrossBoth(m, s, n, t), e);
    }
  }

  lemma NodesUndo(ids: set<Name>, d: Doc, m: map<Name, Name>, s: map<Name, Name>)
    requires Numbered(ids, d, m, s)
    ensures Composes(VariantNode(Along(Inverse(m)), Undone(m, s)), NodeBy(Along(m), Along(s)), Same(), d.graph.nodes)
  {
    forall v | v in d.graph.nodes
        ensures VariantNode(Along(Inverse(m)), Undone(m, s))(NodeBy(Along(m), Along(s))(v)) == v {
      UndoValue(m, ids, true, v.body);
      UndoName(m, ids, s, Movable(d.graph), v.id);
      hide Names, Movable, Mapped;
    }
  }

  lemma NodeTwice(undo: Name -> Name, undoBoth: Name -> Name, alpha: Name -> Name, sigma: Name -> Name, v: GraphNode)
    ensures VariantNode(undo, undoBoth)(NodeBy(alpha, sigma)(v)) ==
        VariantNode(Then(undo, alpha), Then(undoBoth, Then(alpha, sigma)))(v)
  {
    hide RenameBy;
    RenameThen(undo, alpha, v.body);
  }

  lemma RenameThen(f: Name -> Name, g: Name -> Name, v: Value)
    ensures RenameBy(f, RenameBy(g, v)) == RenameBy(Then(f, g), v)
  {
    RenameTwice(f, g, Then(f, g), v);
  }

  lemma NodesAcross(m: map<Name, Name>, s: map<Name, Name>, n: map<Name, Name>, t: map<Name, Name>,
        nodes: seq<GraphNode>)
    requires Injective(n) && Injective(t)
    ensures Composes(VariantNode(Along(Inverse(n)), Undone(n, t)), NodeBy(Along(m), Along(s)),
                     VariantNode(Across(m, n), AcrossBoth(m, s, n, t)), nodes)
  {
    hide Along, Inverse, Undone, VariantNode, NodeBy, Injective, Then, Composes;
    var undo, both := Along(Inverse(n)), Undone(n, t);
    forall v | v in nodes
      ensures VariantNode(undo, both)(NodeBy(Along(m), Along(s))(v)) ==
          VariantNode(Across(m, n), AcrossBoth(m, s, n, t))(v)
    {
      NodeTwice(undo, both, Along(m), Along(s), v);
    }
    ComposesIf(VariantNode(undo, both), NodeBy(Along(m), Along(s)), VariantNode(Across(m, n), AcrossBoth(m, s, n, t)),
      nodes);
  }

  /** `e` is `d` renamed, by `phi` everywhere and by `psi` in edges and on interchangeable nodes. */
  ghost predicate Renamed(phi: Name -> Name, psi: Name -> Name, d: Doc, e: Doc) {
    && e.plain == RenameBy(phi, d.plain) && e.graph.rest == RenameBy(phi, d.graph.rest)
    && multiset(e.graph.nodes) == multiset(Mapped(VariantNode(phi, psi), d.graph.nodes))
    && multiset(e.graph.edges) == multiset(Mapped(RenameValue(psi), d.graph.edges))
  }

  lemma NumberedParts(ids: set<Name>, d: Doc, m: map<Name, Name>, s: map<Name, Name>)
    requires Numbered(ids, d, m, s)
    ensures Injective(m) && Injective(s) && Numbers(m, ids, true)
    ensures PlainNames(Names(d.plain)) && PlainNames(Names(d.graph.rest))
  {
  }

  lemma SameNodes(ids: set<Name>, d: Doc, m: map<Name, Name>, s: map<Name, Name>,
                  newIds: set<Name>, e: Doc, n: map<Name, Name>, t: map<Name, Name>)
    requires Numbered(ids, d, m, s) && Numbered(newIds, e, n, t)
    requires multiset(Mapped(NodeBy(Along(n), Along(t)), e.graph.nodes)) ==
        multiset(Mapped(NodeBy(Along(m), Along(s)), d.graph.nodes))
    ensures Injective(n) && Injective(t)
    ensures multiset(e.graph.nodes) == multiset(Mapped(VariantNode(Across(m, n), AcrossBoth(m, s, n, t)),
        d.graph.nodes))
  {
    hide *;
    NumberedParts(newIds, e, n, t);
    NodesUndo(newIds, e, n, t);
    NodesAcross(m, s, n, t, d.graph.nodes);
    MappedBack(VariantNode(Along(Inverse(n)), Undone(n, t)), NodeBy(Along(n), Along(t)), NodeBy(Along(m), Along(s)),
      VariantNode(Across(m, n), AcrossBoth(m, s, n, t)), d.graph.nodes, e.graph.nodes);
  }

  lemma SameEdges(ids: set<Name>, d: Doc, m: map<Name, Name>, s: map<Name, Name>,
                  newIds: set<Name>, e: Doc, n: map<Name, Name>, t: map<Name, Name>)
    requires Numbered(ids, d, m, s) && Numbered(newIds, e, n, t)
    requires multiset(Mapped(EdgeBy(Along(n), Along(t)), e.graph.edges)) ==
        multiset(Mapped(EdgeBy(Along(m), Along(s)), d.graph.edges))
    ensures Injective(n) && Injective(t)
    ensures multiset(e.graph.edges) == multiset(Mapped(RenameValue(AcrossBoth(m, s, n, t)), d.graph.edges))
  {
    hide *;
    NumberedParts(newIds, e, n, t);
    EdgesUndo(newIds, e, n, t);
    EdgesAcross(m, s, n, t, d.graph.edges);
    MappedBack(RenameValue(Undone(n, t)), EdgeBy(Along(n), Along(t)), EdgeBy(Along(m), Along(s)),
      RenameValue(AcrossBoth(m, s, n, t)), d.graph.edges, e.graph.edges);
  }

  /** Equal forms under any two numberings: one state is the other renamed. */
  lemma SameGraph(ids: set<Name>, d: Doc, m: map<Name, Name>, s: map<Name, Name>,
                  newIds: set<Name>, e: Doc, n: map<Name, Name>, t: map<Name, Name>)
    requires Numbered(ids, d, m, s) && Numbered(newIds, e, n, t)
    requires GraphBy(Along(m), Along(s), d.graph) == GraphBy(Along(n), Along(t), e.graph)
    requires RenameBy(Along(m), d.plain) == RenameBy(Along(n), e.plain)
    ensures Injective(n) && Injective(t) && Renamed(Across(m, n), AcrossBoth(m, s, n, t), d, e)
  {
    hide Numbered, Numbers, EdgeBy, NodeBy, VariantNode, Along, Mapped, Across, AcrossBoth, RenameValue, RenameBy,
        Injective, Names;
    NumberedParts(newIds, e, n, t);
    SameValue(newIds, d.plain, m, e.plain, n);
    SameValue(newIds, d.graph.rest, m, e.graph.rest, n);
    SameNodes(ids, d, m, s, newIds, e, n, t);
    SameEdges(ids, d, m, s, newIds, e, n, t);
  }

  lemma SameValue(newIds: set<Name>, v: Value, m: map<Name, Name>, w: Value, n: map<Name, Name>)
    requires Numbers(n, newIds, true) && PlainNames(Names(w)) && RenameBy(Along(m), v) == RenameBy(Along(n), w)
    ensures w == RenameBy(Across(m, n), v)
  {
    UndoValue(n, newIds, true, w);
    RenameTwice(Along(Inverse(n)), Along(m), Across(m, n), v);
  }

  lemma TriedNumbers(p: Policy, ids: set<Name>, d: Doc, m: map<Name, Name>)
    requires SoundPolicy(p) && Input(ids, d) && Tried(p, ids, m)
    ensures Numbers(m, ids, true) && m.Keys == ids
  {
    assert Assignment(ids, m);
    hide Movable;
  }

  lemma CandidateNumbers(p: Policy, ids: set<Name>, d: Doc, m: map<Name, Name>, f: GraphForm)
        returns (s: map<Name, Name>)
    requires Input(ids, d) && GraphCandidate(p, m, d.graph, f)
    ensures Numbers(s, Movable(d.graph), false) && f == GraphBy(Along(m), Along(s), d.graph)
    ensures s.Keys == if p.small(ClassLabels(d.graph.nodes)) then Movable(d.graph) else {}
  {
    hide GraphBy, Along, ClassLabels;
    if p.small(ClassLabels(d.graph.nodes)) {
      s :| Chosen(m, d.graph, s, f);
      forall x | x in s ensures s[x].Sym? {
        ChoiceIsSym(d.graph, s, x);
      }
    } else {
      s := map[];
    }
  }

  /** The numberings behind a canonical form. */
  lemma NumbersOf(p: Policy, ids: set<Name>, d: Doc, f: Form) returns (m: map<Name, Name>, s: map<Name, Name>)
    requires SoundPolicy(p) && Input(ids, d) && Canonical(p, ids, d, f)
    ensures Numbered(ids, d, m, s) && m.Keys == ids
    ensures s.Keys == if p.small(ClassLabels(d.graph.nodes)) then Movable(d.graph) else {}
    ensures f.plain == RenameBy(Along(m), d.plain) && f.graph == GraphBy(Along(m), Along(s), d.graph)
  {
    hide SoundPolicy, Input, Tried, Numbers, GraphBy, RenameBy, Along, Movable, GraphCandidate, ClassLabels;
    m :| Tried(p, ids, m) && FormFor(p, m, d, f);
    TriedNumbers(p, ids, d, m);
    s := CandidateNumbers(p, ids, d, m, f.graph);
  }

  /** The canonical form is unique. */
  lemma CanonicalIsUnique(p: Policy, ids: set<Name>, d: Doc, f: Form, o: Form)
    requires SoundPolicy(p) && Canonical(p, ids, d, f) && Canonical(p, ids, d, o)
    ensures f == o
  {
    hide FormFor, Tried;
  }

  // ---------- finding it ----------

  function Elements(ids: seq<Name>): set<Name> {
    set n | n in ids
  }

  predicate Distinct(ids: seq<Name>) {
    forall i, j :: 0 <= i < j < |ids| ==> ids[i] != ids[j]
  }

  /** All ways to give each identity its own name among the free ones. */
  function Numberings(ids: seq<Name>, free: set<Name>): set<map<Name, Name>> {
    if ids == [] then {map[]}
    else
      var n := |ids| - 1;
      set m, t | m in Numberings(ids[..n], free) && t in free && t !in m.Values :: m[ids[n] := t]
  }

  ghost predicate Numbering(ids: seq<Name>, free: set<Name>, m: map<Name, Name>) {
    m.Keys == Elements(ids) && Injective(m) && forall x <- m :: m[x] in free
  }

  lemma {:induction false} NumberingsAre(ids: seq<Name>, free: set<Name>, m: map<Name, Name>)
    requires Distinct(ids)
    ensures m in Numberings(ids, free) <==> Numbering(ids, free, m)
    decreases |ids|, 1
  {
    hide Numbering;
    if ids == [] {
      EmptyNumbering(free, m);
    } else {
      var n := |ids| - 1;
      if m in Numberings(ids, free) {
        var k, t :| k in Numberings(ids[..n], free) && t in free && t !in k.Values && m == k[ids[n] := t];
        NumberingsAre(ids[..n], free, k);
        NumberingGrows(ids, free, k, t);
      }
      if Numbering(ids, free, m) {
        var k := NumberingShrinks(ids, free, m);
        NumberingsAre(ids[..n], free, k);
      }
    }
  }

  lemma EmptyNumbering(free: set<Name>, m: map<Name, Name>)
    ensures Numbering([], free, m) <==> m == map[]
  {
    if Numbering([], free, m) {
      assert m.Keys == {};
    }
  }

  lemma NumberingShrinks(ids: seq<Name>, free: set<Name>, m: map<Name, Name>) returns (k: map<Name, Name>)
    requires ids != [] && Distinct(ids) && Numbering(ids, free, m)
    ensures Numbering(ids[..|ids| - 1], free, k) && m == k[ids[|ids| - 1] := m[ids[|ids| - 1]]]
    ensures m[ids[|ids| - 1]] in free && m[ids[|ids| - 1]] !in k.Values
  {
    var init, last := ids[..|ids| - 1], ids[|ids| - 1];
    assert Elements(ids) == Elements(init) + {last} && last !in Elements(init);
    k := m - {last};
  }

  lemma NumberingGrows(ids: seq<Name>, free: set<Name>, k: map<Name, Name>, t: Name)
    requires ids != [] && Distinct(ids) && Numbering(ids[..|ids| - 1], free, k) && t in free && t !in k.Values
    ensures Numbering(ids, free, k[ids[|ids| - 1] := t])
  {
    var init, last := ids[..|ids| - 1], ids[|ids| - 1];
    assert Elements(ids) == Elements(init) + {last} && last !in Elements(init);
  }

  function AlphaNames(n: nat): set<Name> {
    set i | 0 <= i < n :: Alpha(i)
  }

  lemma {:induction false} ElementsSize(ids: seq<Name>)
    requires Distinct(ids)
    ensures |Elements(ids)| == |ids|
    decreases |ids|
  {
    if ids != [] {
      var init, last := ids[..|ids| - 1], ids[|ids| - 1];
      ElementsSize(init);
      assert last !in init;
      assert Elements(ids) == Elements(init) + {last};
    }
  }

  lemma NumberingIsAssignment(ids: seq<Name>, m: map<Name, Name>)
    requires Distinct(ids)
    ensures m in Numberings(ids, AlphaNames(|ids|)) <==> Assignment(Elements(ids), m)
  {
    NumberingsAre(ids, AlphaNames(|ids|), m);
    ElementsSize(ids);
  }

  // ---------- the choices of a graph ----------

  predicate DistinctNodes(g: Graph) {
    forall i, j :: 0 <= i < j < |g.nodes| && g.nodes[i].cls.Some? && g.nodes[j].cls.Some? ==>
        g.nodes[i].id != g.nodes[j].id
  }

  function Places(g: Graph, c: string): set<Name> {
    set i | 0 <= i < |ClassMembers(g, c)| :: Sym(c, i)
  }

  /** All ways to number the interchangeable ones among the first `k` nodes. */
  function Choices(g: Graph, k: nat): set<map<Name, Name>>
    requires k <= |g.nodes|
  {
    if k == 0 then {map[]}
    else
      var v := g.nodes[k - 1];
      if v.cls.None? then Choices(g, k - 1)
      else set m, t | m in Choices(g, k - 1) && t in Places(g, v.cls.value) && t !in m.Values :: m[v.id := t]
  }

  ghost function MovableUpto(g: Graph, k: nat): set<Name>
    requires k <= |g.nodes|
  {
    set i | 0 <= i < k && g.nodes[i].cls.Some? :: g.nodes[i].id
  }

  ghost predicate ChoiceUpto(g: Graph, k: nat, m: map<Name, Name>)
    requires k <= |g.nodes|
  {
    && m.Keys == MovableUpto(g, k) && Injective(m)
    && forall i :: 0 <= i < k && g.nodes[i].cls.Some? ==>
        g.nodes[i].id in m && m[g.nodes[i].id] in Places(g, g.nodes[i].cls.value)
  }

  lemma {:induction false} ChoicesAre(g: Graph, k: nat, m: map<Name, Name>)
    requires k <= |g.nodes| && DistinctNodes(g)
    ensures m in Choices(g, k) <==> ChoiceUpto(g, k, m)
    decreases k
  {
    hide Places, ChoiceUpto, DistinctNodes;
    if k == 0 {
      NoChoice(g, m);
    } else if g.nodes[k - 1].cls.None? {
      FixedNode(g, k, m);
      ChoicesAre(g, k - 1, m);
    } else {
      var v := g.nodes[k - 1];
      if m in Choices(g, k) {
        var b, t :| b in Choices(g, k - 1) && t in Places(g, v.cls.value) && t !in b.Values && m == b[v.id := t];
        ChoicesAre(g, k - 1, b);
        ChoiceGrows(g, k, b, t);
      }
      if ChoiceUpto(g, k, m) {
        var b := ChoiceShrinks(g, k, m);
        ChoicesAre(g, k - 1, b);
      }
    }
  }

  lemma NoChoice(g: Graph, m: map<Name, Name>)
    ensures ChoiceUpto(g, 0, m) <==> m == map[]
  {
    if ChoiceUpto(g, 0, m) {
      assert m.Keys == {};
    }
  }

  lemma FixedNode(g: Graph, k: nat, m: map<Name, Name>)
    requires 0 < k <= |g.nodes| && g.nodes[k - 1].cls.None?
    ensures ChoiceUpto(g, k, m) <==> ChoiceUpto(g, k - 1, m)
  {
    hide Places;
    assert MovableUpto(g, k) == MovableUpto(g, k - 1);
  }

  lemma NextMovable(g: Graph, k: nat)
    requires 0 < k <= |g.nodes| && DistinctNodes(g) && g.nodes[k - 1].cls.Some?
    ensures MovableUpto(g, k) == MovableUpto(g, k - 1) + {g.nodes[k - 1].id}
        && g.nodes[k - 1].id !in MovableUpto(g, k - 1)
  {
  }

  lemma ChoiceShrinks(g: Graph, k: nat, m: map<Name, Name>) returns (b: map<Name, Name>)
    requires 0 < k <= |g.nodes| && DistinctNodes(g) && g.nodes[k - 1].cls.Some? && ChoiceUpto(g, k, m)
    ensures ChoiceUpto(g, k - 1, b) && g.nodes[k - 1].id in m && m == b[g.nodes[k - 1].id := m[g.nodes[k - 1].id]]
    ensures m[g.nodes[k - 1].id] in Places(g, g.nodes[k - 1].cls.value) && m[g.nodes[k - 1].id] !in b.Values
  {
    hide Places, MovableUpto;
    NextMovable(g, k);
    b := m - {g.nodes[k - 1].id};
  }

  lemma ChoiceGrows(g: Graph, k: nat, b: map<Name, Name>, t: Name)
    requires 0 < k <= |g.nodes| && DistinctNodes(g) && g.nodes[k - 1].cls.Some? && ChoiceUpto(g, k - 1, b)
    requires t in Places(g, g.nodes[k - 1].cls.value) && t !in b.Values
    ensures ChoiceUpto(g, k, b[g.nodes[k - 1].id := t])
  {
    hide Places, MovableUpto;
    NextMovable(g, k);
  }

  lemma ChoicesComplete(g: Graph, m: map<Name, Name>)
    requires DistinctNodes(g)
    ensures m in Choices(g, |g.nodes|) <==> Choice(g, m)
  {
    ChoicesAre(g, |g.nodes|, m);
    assert MovableUpto(g, |g.nodes|) == Movable(g);
    hide ClassMembers, Choices, MovableUpto, Movable;
    if Choice(g, m) {
      forall i | 0 <= i < |g.nodes| && g.nodes[i].cls.Some?
        ensures g.nodes[i].id in m && m[g.nodes[i].id] in Places(g, g.nodes[i].cls.value)
      {
        MemberIs(g, g.nodes[i].id, g.nodes[i].cls.value);
        assert Member(g, g.nodes[i].id, g.nodes[i].cls.value);
      }
    }
  }

  ghost function MembersUpto(g: Graph, k: nat, c: string): set<Name>
    requires k <= |g.nodes|
  {
    set i | 0 <= i < k && g.nodes[i].cls == Some(c) :: g.nodes[i].id
  }

  /** The numbers given so far to a class are the first ones. */
  ghost predicate Compact(g: Graph, k: nat, m: map<Name, Name>)
    requires k <= |g.nodes|
  {
    forall x :: x in m ==> m[x].Sym? && m[x].place < |MembersUpto(g, k, m[x].cls)|
  }

  lemma MembersGrow(g: Graph, k: nat, c: string)
    requires 0 < k <= |g.nodes|
    ensures |MembersUpto(g, k - 1, c)| <= |MembersUpto(g, k, c)|
    ensures DistinctNodes(g) && g.nodes[k - 1].cls == Some(c) ==>
      |MembersUpto(g, k - 1, c)| < |MembersUpto(g, k, c)| && |MembersUpto(g, k - 1, c)| < |ClassMembers(g, c)|
  {
    var before, after, all := MembersUpto(g, k - 1, c), MembersUpto(g, k, c), ClassMembers(g, c);
    hide MembersUpto, ClassMembers, DistinctNodes;
    MembersNest(g, k, c);
    Subsets(before, after);
    Subsets(after, all);
    if DistinctNodes(g) && g.nodes[k - 1].cls == Some(c) {
      MemberIsNew(g, k, c);
      Subsets(before + {g.nodes[k - 1].id}, after);
    }
  }

  lemma MembersNest(g: Graph, k: nat, c: string)
    requires 0 < k <= |g.nodes|
    ensures MembersUpto(g, k - 1, c) <= MembersUpto(g, k, c) <= ClassMembers(g, c)
  {
    forall x | x in MembersUpto(g, k - 1, c) ensures x in MembersUpto(g, k, c) {}
    forall x | x in MembersUpto(g, k, c) ensures x in ClassMembers(g, c) {}
  }

  lemma MemberIsNew(g: Graph, k: nat, c: string)
    requires 0 < k <= |g.nodes| && DistinctNodes(g) && g.nodes[k - 1].cls == Some(c)
    ensures g.nodes[k - 1].id in MembersUpto(g, k, c) && g.nodes[k - 1].id !in MembersUpto(g, k - 1, c)
  {
    var id := g.nodes[k - 1].id;
    forall i | 0 <= i < k - 1 && g.nodes[i].cls == Some(c) ensures g.nodes[i].id != id {}
  }

  lemma Subsets<T>(s: set<T>, t: set<T>)
    requires s <= t
    ensures |s| <= |t|
  {
    assert t == s + (t - s);
  }

  lemma {:induction false} SomeChoiceUpto(g: Graph, k: nat) returns (m: map<Name, Name>)
    requires k <= |g.nodes| && DistinctNodes(g)
    ensures m in Choices(g, k) && Compact(g, k, m)
    decreases k
  {
    if k == 0 {
      m := map[];
    } else {
      var b := SomeChoiceUpto(g, k - 1);
      var v := g.nodes[k - 1];
      hide MembersUpto, ClassMembers;
      forall c ensures |MembersUpto(g, k - 1, c)| <= |MembersUpto(g, k, c)| {
        MembersGrow(g, k, c);
      }
      if v.cls.None? {
        m := b;
      } else {
        MembersGrow(g, k, v.cls.value);
        var t := Sym(v.cls.value, |MembersUpto(g, k - 1, v.cls.value)|);
        m := b[v.id := t];
        assert t in Places(g, v.cls.value) && t !in b.Values;
      }
    }
  }

  lemma SomeChoice(g: Graph)
    requires DistinctNodes(g)
    ensures Choices(g, |g.nodes|) != {}
  {
    var m := SomeChoiceUpto(g, |g.nodes|);
  }

  /** The least of a non-empty set of candidates, kept while going through them. */
  method Least<T(!new, ==)>(candidates: set<T>, less: (T, T) -> bool) returns (best: T)
    requires candidates != {} && TotalOrder(less)
    ensures best in candidates && forall c <- candidates :: !less(c, best)
  {
    best :| best in candidates;
    var left := candidates - {best};
    while left != {}
      invariant best in candidates && left <= candidates && forall c <- candidates - left :: !less(c, best)
      decreases left
    {
      var c :| c in left;
      left := left - {c};
      if less(c, best) {
        best := c;
      }
    }
  }

  method NormalizeGraph(p: Policy, alpha: map<Name, Name>, g: Graph) returns (f: GraphForm)
    requires SoundPolicy(p) && DistinctNodes(g)
    ensures GraphCandidate(p, alpha, g, f) && forall o :: GraphCandidate(p, alpha, g, o) ==> !p.lessGraph(o, f)
  {
    hide GraphBy, Choice, Choices, ClassLabels;
    if p.small(ClassLabels(g.nodes)) {
      forall s ensures s in Choices(g, |g.nodes|) <==> Choice(g, s) {
        ChoicesComplete(g, s);
      }
      SomeChoice(g);
      var candidates := set s | s in Choices(g, |g.nodes|) :: GraphBy(Along(alpha), Along(s), g);
      var any :| any in Choices(g, |g.nodes|);
      assert GraphBy(Along(alpha), Along(any), g) in candidates;
      f := Least(candidates, p.lessGraph);
      forall o | GraphCandidate(p, alpha, g, o) ensures o in candidates {
        var s :| Chosen(alpha, g, s, o);
      }
      var s :| s in Choices(g, |g.nodes|) && f == GraphBy(Along(alpha), Along(s), g);
      assert Chosen(alpha, g, s, f);
    } else {
      f := GraphBy(Along(alpha), Along(map[]), g);
    }
  }

  lemma FormIsUnique(p: Policy, m: map<Name, Name>, d: Doc, f: Form, o: Form)
    requires SoundPolicy(p) && FormFor(p, m, d, f) && FormFor(p, m, d, o)
    ensures f == o
  {
    hide GraphCandidate, RenameBy, Along, Assignment;
  }

  ghost predicate OnlyForm(p: Policy, m: map<Name, Name>, d: Doc, f: Form) {
    FormFor(p, m, d, f) && forall o :: FormFor(p, m, d, o) ==> o == f
  }

  method FormUnder(p: Policy, m: map<Name, Name>, d: Doc) returns (f: Form)
    requires SoundPolicy(p) && DistinctNodes(d.graph)
    ensures OnlyForm(p, m, d, f)
  {
    hide GraphCandidate, RenameBy, Along, SoundPolicy, DistinctNodes;
    var graph := NormalizeGraph(p, m, d.graph);
    f := Form(RenameBy(Along(m), d.plain), graph);
    forall o | FormFor(p, m, d, o) ensures o == f {
      FormIsUnique(p, m, d, f, o);
    }
  }

  function Attempts(p: Policy, ids: seq<Name>): set<map<Name, Name>> {
    if Factorial(|ids|) <= p.maximum then Numberings(ids, AlphaNames(|ids|)) else {p.first(Elements(ids))}
  }

  lemma AttemptsAreTried(p: Policy, ids: seq<Name>)
    requires SoundPolicy(p) && Distinct(ids)
    ensures forall m :: m in Attempts(p, ids) <==> Tried(p, Elements(ids), m)
    ensures p.first(Elements(ids)) in Attempts(p, ids)
  {
    ElementsSize(ids);
    hide Assignment, Numberings, Elements;
    forall m ensures m in Attempts(p, ids) <==> Tried(p, Elements(ids), m) {
      NumberingIsAssignment(ids, m);
    }
    assert Assignment(Elements(ids), p.first(Elements(ids)));
  }

  method Listed<T(!new, ==)>(s: set<T>) returns (r: seq<T>)
    ensures forall x :: x in r <==> x in s
  {
    r := [];
    var left := s;
    while left != {}
      invariant left <= s && forall x :: x in r <==> x in s - left
      decreases left
    {
      var x :| x in left;
      r, left := r + [x], left - {x};
    }
  }

  /** No form under any of the first `k` numberings is smaller. */
  ghost predicate Beats(p: Policy, tried: seq<map<Name, Name>>, k: nat, d: Doc, f: Form)
    requires k <= |tried|
  {
    forall i, o :: 0 <= i < k && FormFor(p, tried[i], d, o) ==> !p.less(o, f)
  }

  lemma BeatsMore(p: Policy, tried: seq<map<Name, Name>>, k: nat, d: Doc, f: Form, g: Form)
    requires k < |tried| && TotalOrder(p.less) && OnlyForm(p, tried[k], d, g) && Beats(p, tried, k, d, f)
    ensures k > 0 ==> Beats(p, tried, k + 1, d, if p.less(g, f) then g else f)
    ensures k == 0 ==> Beats(p, tried, k + 1, d, g)
  {
    hide FormFor;
    assert !p.less(g, g);
  }

  /** Going through all attempts, keeping the least form. */
  method LeastForm(p: Policy, tried: seq<map<Name, Name>>, d: Doc) returns (f: Form, ghost best: nat)
    requires SoundPolicy(p) && DistinctNodes(d.graph) && tried != []
    ensures best < |tried| && OnlyForm(p, tried[best], d, f) && Beats(p, tried, |tried|, d, f)
  {
    LessIsOrder(p);
    hide SoundPolicy, OnlyForm, DistinctNodes, TotalOrder;
    f := FormUnder(p, tried[0], d);
    best := 0;
    BeatsMore(p, tried, 0, d, f, f);
    hide Beats;
    for k := 1 to |tried|
      invariant best < |tried| && OnlyForm(p, tried[best], d, f) && Beats(p, tried, k, d, f)
    {
      var g := FormUnder(p, tried[k], d);
      BeatsMore(p, tried, k, d, f, g);
      if p.less(g, f) {
        f, best := g, k;
      }
    }
  }

  lemma LessIsOrder(p: Policy)
    requires SoundPolicy(p)
    ensures TotalOrder(p.less)
  {
  }

  /** The canonical form: the least form over the numberings tried, each with its graph already least. */
  method Normalize(p: Policy, ids: seq<Name>, d: Doc) returns (f: Form)
    requires SoundPolicy(p) && Distinct(ids) && DistinctNodes(d.graph)
    ensures Canonical(p, Elements(ids), d, f)
  {
    hide SoundPolicy, FormFor, Tried, Attempts, Elements, DistinctNodes;
    AttemptsAreTried(p, ids);
    var tried := Listed(Attempts(p, ids));
    ghost var best;
    f, best := LeastForm(p, tried, d);
    assert tried[best] in tried;
    forall m, o | Tried(p, Elements(ids), m) && FormFor(p, m, d, o) ensures !p.less(o, f) {
      assert m in tried;
      var i :| 0 <= i < |tried| && tried[i] == m;
    }
  }

  // ---------- where completeness ends ----------

  function Bare(v: Value): Doc {
    Doc(v, Graph(Scalar(0), [], []))
  }

  function Swap(ids: set<Name>, x: Name, y: Name): map<Name, Name> {
    map n | n in ids :: if n == x then y else if n == y then x else n
  }

  function Pair(x: Name, y: Name): Value {
    Items([Text(x), Text(y)])
  }

  lemma PairRenamed(f: Name -> Name, x: Name, y: Name)
    ensures RenameBy(f, Pair(x, y)) == Pair(f(x), f(y)) && Names(Pair(x, y)) == {x, y}
  {
    var v := Pair(x, y);
    assert RenameBy(f, v.items[0]) == Text(f(x)) && RenameBy(f, v.items[1]) == Text(f(y));
    assert RenameBy(f, v).items == [Text(f(x)), Text(f(y))];
    assert Names(v.items[0]) == {x} && Names(v.items[1]) == {y};
  }

  /** The form of a bare pair shows the numbers of both names. */
  lemma PairForm(p: Policy, m: map<Name, Name>, x: Name, y: Name, f: Form)
    requires FormFor(p, m, Bare(Pair(x, y)), f)
    ensures f.plain == Pair(Along(m)(x), Along(m)(y))
  {
    PairRenamed(Along(m), x, y);
  }

  lemma SwapTwice(ids: set<Name>, x: Name, y: Name, n: Name)
    requires x in ids && y in ids && n in ids
    ensures Swap(ids, x, y)[n] in ids && Swap(ids, x, y)[Swap(ids, x, y)[n]] == n
  {
  }

  lemma SwapInjective(ids: set<Name>, x: Name, y: Name)
    requires x in ids && y in ids
    ensures Swap(ids, x, y).Keys == ids && Injective(Swap(ids, x, y))
  {
    var pi := Swap(ids, x, y);
    assert pi.Keys == ids;
    hide Swap;
    forall a, b | a in pi && b in pi && pi[a] == pi[b] ensures a == b {
      SwapTwice(ids, x, y, a);
      SwapTwice(ids, x, y, b);
    }
  }

  lemma SwapBijection(ids: set<Name>, x: Name, y: Name)
    requires x in ids && y in ids
    ensures Bijection(Swap(ids, x, y), ids, ids)
  {
    hide Swap, Injective, Into, Onto;
    SwapInjective(ids, x, y);
    SwapInto(ids, x, y);
    SwapOnto(ids, x, y);
  }

  lemma SwapInto(ids: set<Name>, x: Name, y: Name)
    requires x in ids && y in ids
    ensures Into(Swap(ids, x, y), ids)
  {
  }

  lemma SwapOnto(ids: set<Name>, x: Name, y: Name)
    requires x in ids && y in ids
    ensures Onto(Swap(ids, x, y), ids)
  {
    hide Swap, Hit;
    var pi := Swap(ids, x, y);
    SwapInjective(ids, x, y);
    forall n | n in ids ensures Hit(pi, n) {
      SwapTwice(ids, x, y, n);
      HitBy(pi, pi[n], n);
    }
  }

  lemma HitBy(m: map<Name, Name>, n: Name, x: Name)
    requires n in m && m[n] == x
    ensures Hit(m, x)
  {
  }

  lemma BareGraph(v: Value, w: Value, ids: set<Name>, newIds: set<Name>)
    ensures Movable(Bare(v).graph) == {} && SameClasses(map[], Bare(v).graph, Bare(w).graph)
    ensures Bijection(map[], {}, {}) && GraphApart(Bare(v).graph, ids, newIds, {}, {})
  {
    assert Names(Scalar(0)) == {};
  }

  lemma BareIsVariant(pi: map<Name, Name>, ids: set<Name>, newIds: set<Name>, v: Value)
    requires Bijection(pi, ids, newIds) && PlainNames(ids) && PlainNames(newIds) && Apart(Names(v), ids, newIds)
    ensures Variant(pi, map[], ids, Bare(v), newIds, Bare(RenameBy(Along(pi), v)))
  {
    BareGraph(v, RenameBy(Along(pi), v), ids, newIds);
    BareGraph(RenameBy(Along(pi), v), v, ids, newIds);
    BareLists(v, RenameBy(Along(pi), v), pi);
    hide Bijection, Names, Apart, GraphApart, SameClasses, Movable, RenameBy, Along, Mapped, VariantNode, EdgeBy;
    assert PlainNames({});
  }

  lemma BareLists(v: Value, w: Value, pi: map<Name, Name>)
    ensures Bare(w).graph.rest == RenameBy(Along(pi), Bare(v).graph.rest)
    ensures multiset(Bare(w).graph.nodes) == multiset(Mapped(VariantNode(Along(pi), Along(map[])), Bare(v).graph.nodes))
    ensures multiset(Bare(w).graph.edges) == multiset(Mapped(RenameValue(Both(pi, map[])), Bare(v).graph.edges))
  {
    assert RenameBy(Along(pi), Scalar(0)) == Scalar(0);
    hide VariantNode, EdgeBy, Along, RenameBy;
  }

  lemma SwapIsVariant(ids: set<Name>, x: Name, y: Name)
    requires PlainNames(ids) && x in ids && y in ids && x != y
    ensures Variant(Swap(ids, x, y), map[], ids, Bare(Pair(x, y)), ids, Bare(Pair(y, x)))
  {
    var pi := Swap(ids, x, y);
    assert Along(pi)(x) == y && Along(pi)(y) == x && Apart({x, y}, ids, ids);
    hide Variant, Bijection, Pair, Swap, Apart, Along;
    SwapBijection(ids, x, y);
    PairRenamed(Along(pi), x, y);
    BareIsVariant(pi, ids, ids, Pair(x, y));
  }

  /** The bound is exact: beyond it, for any two identities, there are states that differ in their
      names only and have no canonical form in common. */
  lemma BeyondTheBound(p: Policy, ids: set<Name>, x: Name, y: Name, f: Form)
    requires SoundPolicy(p) && PlainNames(ids) && x in ids && y in ids && x != y && Factorial(|ids|) > p.maximum
    ensures Variant(Swap(ids, x, y), map[], ids, Bare(Pair(x, y)), ids, Bare(Pair(y, x)))
    ensures !(Canonical(p, ids, Bare(Pair(x, y)), f) && Canonical(p, ids, Bare(Pair(y, x)), f))
  {
    hide Variant, GraphCandidate, Factorial, FormFor, Bare, Swap, SoundPolicy;
    SwapIsVariant(ids, x, y);
    var m := p.first(ids);
    FirstSeparates(p, ids, x, y);
    if Canonical(p, ids, Bare(Pair(x, y)), f) && Canonical(p, ids, Bare(Pair(y, x)), f) {
      PairForm(p, m, x, y, f);
      PairForm(p, m, y, x, f);
    }
  }

  lemma FirstSeparates(p: Policy, ids: set<Name>, x: Name, y: Name)
    requires SoundPolicy(p) && x in ids && y in ids && x != y
    ensures Along(p.first(ids))(x) != Along(p.first(ids))(y)
  {
    assert Assignment(ids, p.first(ids));
    hide TotalOrder;
  }
}

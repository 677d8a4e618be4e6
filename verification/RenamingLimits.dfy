/** When equal forms mean one renaming of the whole state, and what moving a single node shows about the
    bound on graph permutations. */
module RenamingLimits {
  import opened Grammars
  import opened Lists
  import opened CanonicalForms
  import opened Renamings

  // ---------- fresh names ----------

  lemma {:induction false} LongerThanAll(s: set<Name>) returns (n: nat)
    ensures forall x <- s :: x.Plain? ==> |x.text| < n
    decreases |s|
  {
    if s == {} {
      n := 0;
    } else {
      var x :| x in s;
      var k := LongerThanAll(s - {x});
      n := if x.Plain? && |x.text| >= k then |x.text| + 1 else k;
      assert forall y <- s :: y == x || y in s - {x};
    }
  }

  lemma FreshName(s: set<Name>) returns (u: Name)
    ensures u.Plain? && u !in s
  {
    var n := LongerThanAll(s);
    u := Plain(seq(n, i => 'a'));
  }

  /** The names outside the edges, as a set. */
  ghost function Outside(d: Doc): set<Name> {
    Names(d.plain) + Names(d.graph.rest) + set v, n | v in d.graph.nodes && n in NodeNames(v) :: n
  }

  ghost function Everywhere(d: Doc): set<Name> {
    Outside(d) + Movable(d.graph) + set e, n | e in d.graph.edges && n in Names(e) :: n
  }

  lemma OutsideIs(d: Doc, x: Name)
    ensures x in Outside(d) <==> OutsideEdges(d, x)
    ensures x in Everywhere(d) <==> Occurs(d, x)
  {
    hide Names, NodeNames;
  }

  ghost predicate Fresh(ids: set<Name>, d: Doc, u: Name) {
    u.Plain? && u !in ids && !Occurs(d, u)
  }

  lemma SomeFresh(ids: set<Name>, d: Doc) returns (u: Name)
    ensures Fresh(ids, d, u)
  {
    u := FreshName(ids + Everywhere(d));
    OutsideIs(d, u);
  }

  // ---------- moving one node ----------

  function Only(x: Name, u: Name): Name -> Name {
    n => if n == x then u else n
  }

  function MovedNode(x: Name, u: Name): GraphNode -> GraphNode {
    (v: GraphNode) => GraphNode(if v.cls.Some? && v.id == x then u else v.id, v.cls, v.body)
  }

  /** The state with its interchangeable node `x` called `u`: in the node's own id and in the edges,
      and nowhere else. */
  function Moved(d: Doc, x: Name, u: Name): Doc {
    Doc(d.plain, Graph(d.graph.rest, Mapped(MovedNode(x, u), d.graph.nodes),
                       Mapped(RenameValue(Only(x, u)), d.graph.edges)))
  }

  function Fixed(ids: set<Name>): map<Name, Name> {
    map n | n in ids :: n
  }

  ghost function Moving(d: Doc, x: Name, u: Name): map<Name, Name> {
    map n | n in Movable(d.graph) :: Only(x, u)(n)
  }

  /** A node to move and a name to move it to. */
  ghost predicate Movement(ids: set<Name>, d: Doc, x: Name, u: Name) {
    Input(ids, d) && x in Movable(d.graph) && Fresh(ids, d, u)
  }

  lemma MovementParts(ids: set<Name>, d: Doc, x: Name, u: Name)
    requires Movement(ids, d, x, u)
    ensures x.Plain? && u.Plain? && x !in ids && u !in ids && u !in Movable(d.graph) && x != u
    ensures PlainNames(ids) && PlainNames(Movable(d.graph)) && ids !! Movable(d.graph)
  {
    hide Names, Movable, OutsideEdges, InEdges;
  }

  lemma MovedMember(ids: set<Name>, d: Doc, x: Name, u: Name, n: Name, c: string)
    requires Movement(ids, d, x, u) && n in Movable(d.graph)
    ensures Member(Moved(d, x, u).graph, Only(x, u)(n), c) <==> Member(d.graph, n, c)
  {
    MovementParts(ids, d, x, u);
    hide Input, Fresh;
    var g, h := d.graph, Moved(d, x, u).graph;
    forall i | 0 <= i < |g.nodes| ensures h.nodes[i] == MovedNode(x, u)(g.nodes[i]) {}
    if Member(h, Only(x, u)(n), c) {
      var i :| 0 <= i < |h.nodes| && h.nodes[i].id == Only(x, u)(n) && h.nodes[i].cls == Some(c);
      assert g.nodes[i].id in Movable(g);
    }
    if Member(g, n, c) {
      var i :| 0 <= i < |g.nodes| && g.nodes[i].id == n && g.nodes[i].cls == Some(c);
      assert h.nodes[i].id == Only(x, u)(n);
    }
  }

  lemma MovedMovable(ids: set<Name>, d: Doc, x: Name, u: Name)
    requires Movement(ids, d, x, u)
    ensures Movable(Moved(d, x, u).graph) == Movable(d.graph) - {x} + {u}
  {
    MovementParts(ids, d, x, u);
    hide Input, Fresh;
    var g, h := d.graph, Moved(d, x, u).graph;
    forall i | 0 <= i < |g.nodes| ensures h.nodes[i] == MovedNode(x, u)(g.nodes[i]) {}
    forall n ensures n in Movable(h) <==> n in Movable(g) - {x} + {u} {
      if n in Movable(h) {
        var i :| 0 <= i < |h.nodes| && h.nodes[i].cls.Some? && h.nodes[i].id == n;
        assert g.nodes[i].id in Movable(g);
      }
      if n in Movable(g) - {x} + {u} {
        var before := if n == u then x else n;
        var i :| 0 <= i < |g.nodes| && g.nodes[i].cls.Some? && g.nodes[i].id == before;
        assert h.nodes[i].id == n && h.nodes[i].cls.Some?;
      }
    }
  }

  lemma MovingIsBijection(ids: set<Name>, d: Doc, x: Name, u: Name)
    requires Movement(ids, d, x, u)
    ensures Bijection(Moving(d, x, u), Movable(d.graph), Movable(Moved(d, x, u).graph))
    ensures SameClasses(Moving(d, x, u), d.graph, Moved(d, x, u).graph)
  {
    MovementParts(ids, d, x, u);
    MovedMovable(ids, d, x, u);
    hide Movement, Movable, Moved, Member;
    var tau, h := Moving(d, x, u), Moved(d, x, u).graph;
    forall y | y in Movable(h) ensures Hit(tau, y) {
      var n := if y == u then x else y;
      assert n in tau && tau[n] == y;
    }
    forall n, c | n in tau ensures Member(h, tau[n], c) <==> Member(d.graph, n, c) {
      MovedMember(ids, d, x, u, n, c);
    }
  }

  lemma FixedIsBijection(ids: set<Name>)
    ensures Bijection(Fixed(ids), ids, ids) && forall n :: Along(Fixed(ids))(n) == n
  {
    forall y | y in ids ensures Hit(Fixed(ids), y) {
      assert y in Fixed(ids) && Fixed(ids)[y] == y;
    }
  }

  lemma MovedNodes(ids: set<Name>, d: Doc, x: Name, u: Name)
    requires Movement(ids, d, x, u)
    ensures Mapped(VariantNode(Along(Fixed(ids)), Along(Moving(d, x, u))), d.graph.nodes) == Moved(d, x, u).graph.nodes
  {
    FixedIsBijection(ids);
    hide Movement, Movable, Names;
    forall v | v in d.graph.nodes
      ensures VariantNode(Along(Fixed(ids)), Along(Moving(d, x, u)))(v) == MovedNode(x, u)(v)
    {
      RenameNothing(Along(Fixed(ids)), v.body);
      if v.cls.Some? {
        ClassedIsMovable(d.graph, v);
      }
    }
    hide VariantNode, MovedNode;
    MappedSame(VariantNode(Along(Fixed(ids)), Along(Moving(d, x, u))), MovedNode(x, u), d.graph.nodes);
  }

  lemma MovedEdges(ids: set<Name>, d: Doc, x: Name, u: Name)
    requires Movement(ids, d, x, u)
    ensures Mapped(RenameValue(Both(Fixed(ids), Moving(d, x, u))), d.graph.edges) == Moved(d, x, u).graph.edges
  {
    hide Input, Fresh, Movable, Names, RenameBy;
    forall e | e in d.graph.edges
        ensures RenameValue(Both(Fixed(ids), Moving(d, x, u)))(e) == RenameValue(Only(x, u))(e) {
      RenameSame(Both(Fixed(ids), Moving(d, x, u)), Only(x, u), e);
    }
    MappedSame(RenameValue(Both(Fixed(ids), Moving(d, x, u))), RenameValue(Only(x, u)), d.graph.edges);
  }

  lemma MovedApart(ids: set<Name>, d: Doc, x: Name, u: Name)
    requires Movement(ids, d, x, u)
    ensures Apart(Names(d.plain), ids, ids)
        && GraphApart(d.graph, ids, ids, Movable(d.graph), Movable(d.graph) - {x} + {u})
  {
    hide Names, Movable;
    forall e | e in d.graph.edges
        ensures Apart(Names(e), ids + Movable(d.graph), ids + (Movable(d.graph) - {x} + {u})) {
      forall n | n in Names(e) ensures n.Plain? && n != u {
        assert InEdges(d, n);
      }
    }
  }

  lemma MovedRest(ids: set<Name>, d: Doc, x: Name, u: Name)
    ensures Moved(d, x, u).plain == RenameBy(Along(Fixed(ids)), d.plain)
    ensures Moved(d, x, u).graph.rest == RenameBy(Along(Fixed(ids)), d.graph.rest)
  {
    FixedIsBijection(ids);
    RenameNothing(Along(Fixed(ids)), d.plain);
    RenameNothing(Along(Fixed(ids)), d.graph.rest);
  }

  /** Moving a node makes a variant. */
  lemma MovedIsVariant(ids: set<Name>, d: Doc, x: Name, u: Name)
    requires Movement(ids, d, x, u)
    ensures Variant(Fixed(ids), Moving(d, x, u), ids, d, ids, Moved(d, x, u))
  {
    hide Movement, Movable, Names, RenameBy, Bijection, SameClasses, Mapped, VariantNode, RenameValue, Both, Along,
      Moving, Fixed, Moved, Apart, GraphApart, MovedNode, Only;
    MovementParts(ids, d, x, u);
    MovedMovable(ids, d, x, u);
    MovingIsBijection(ids, d, x, u);
    FixedIsBijection(ids);
    MovedNodes(ids, d, x, u);
    MovedEdges(ids, d, x, u);
    MovedApart(ids, d, x, u);
    MovedRest(ids, d, x, u);
    assert PlainNames(Movable(d.graph) - {x} + {u});
  }

  // ---------- within the bound on permutations ----------

  lemma FixedPulls(ids: set<Name>, m: map<Name, Name>)
    requires m.Keys == ids
    ensures Pulled(Fixed(ids), m, m, ids)
  {}

  lemma FixedMatches(p: Policy, tau: map<Name, Name>, ids: set<Name>, d: Doc, e: Doc)
    requires SoundPolicy(p) && Variant(Fixed(ids), tau, ids, d, ids, e) && p.small(ClassLabels(d.graph.nodes))
    ensures Matched(p, ids, d, ids, e) && Matched(p, ids, e, ids, d)
  {
    hide Variant, FormFor, ClassLabels;
    forall m | Tried(p, ids, m) ensures SameForms(p, m, d, m, e) && SameForms(p, m, e, m, d) {
      assert Assignment(ids, m);
      AssignmentKeys(ids, m);
      FixedPulls(ids, m);
      forall o ensures FormFor(p, m, d, o) <==> FormFor(p, m, e, o) {
        FormsAlike(p, Fixed(ids), tau, ids, d, ids, e, m, m, o);
      }
    }
  }

  /** Within the bound on permutations moving a node does not change the canonical form, whatever
      refers to the node and however many identities there are. */
  lemma MovedFormsAgree(p: Policy, ids: set<Name>, d: Doc, x: Name, u: Name, f: Form)
    requires SoundPolicy(p) && Movement(ids, d, x, u) && p.small(ClassLabels(d.graph.nodes))
    ensures Canonical(p, ids, d, f) <==> Canonical(p, ids, Moved(d, x, u), f)
  {
    hide *;
    MovedIsVariant(ids, d, x, u);
    var e := Moved(d, x, u);
    FixedMatches(p, Moving(d, x, u), ids, d, e);
    if Canonical(p, ids, d, f) {
      MatchedCanonical(p, ids, d, ids, e, f);
    }
    if Canonical(p, ids, e, f) {
      MatchedCanonical(p, ids, e, ids, d, f);
    }
  }

  // ---------- no single renaming ----------

  ghost function Image(rho: Name -> Name, s: set<Name>): set<Name> {
    set n | n in s :: rho(n)
  }

  lemma {:induction false} ImageIsNoLarger(rho: Name -> Name, s: set<Name>)
    ensures |Image(rho, s)| <= |s|
    decreases |s|
  {
    if s != {} {
      var n :| n in s;
      ImageIsNoLarger(rho, s - {n});
      assert Image(rho, s) == Image(rho, s - {n}) + {rho(n)};
    }
  }

  lemma NoLarger(s: set<Name>, t: set<Name>)
    requires s <= t
    ensures |s| <= |t|
  {
    assert t == s + (t - s);
  }

  /** A map onto a finite set from itself shrinks no part of it. */
  lemma OntoKeepsSize(rho: Name -> Name, s: set<Name>, part: set<Name>)
    requires Image(rho, s) == s && part <= s
    ensures |Image(rho, part)| == |part|
  {
    hide Image;
    ImageIsNoLarger(rho, part);
    ImageIsNoLarger(rho, s - part);
    ImageSplits(rho, s, part);
    NoLarger(s, Image(rho, part) + Image(rho, s - part));
    UnionIsNoLarger(Image(rho, part), Image(rho, s - part));
    assert s == part + (s - part);
  }

  lemma ImageSplits(rho: Name -> Name, s: set<Name>, part: set<Name>)
    requires part <= s
    ensures Image(rho, s) <= Image(rho, part) + Image(rho, s - part)
  {
    forall y | y in Image(rho, s) ensures y in Image(rho, part) || y in Image(rho, s - part) {
      var n :| n in s && rho(n) == y;
      assert n in part || n in s - part;
    }
  }

  lemma UnionIsNoLarger(a: set<Name>, b: set<Name>)
    ensures |a + b| <= |a| + |b|
  {
    assert a + b == a + (b - a);
    NoLarger(b - a, b);
  }

  lemma WholeNodeShows(rho: Name -> Name, v: GraphNode, y: Name)
    ensures y in NodeNames(WholeNode(rho)(v)) <==> exists x :: x in NodeNames(v) && rho(x) == y
  {
    NamesRenamed(rho, v.body, y);
    hide Names, RenameBy;
  }

  /** A renaming of the whole state renames the names outside the edges. */
  lemma WholeOutside(rho: Name -> Name, d: Doc, e: Doc, y: Name)
    requires Whole(rho, d, e)
    ensures OutsideEdges(e, y) <==> exists x :: OutsideEdges(d, x) && rho(x) == y
  {
    NamesRenamed(rho, d.plain, y);
    NamesRenamed(rho, d.graph.rest, y);
    WholeNodesShow(rho, d, e, y);
    hide Names, NodeNames, RenameBy, WholeNode, Mapped;
    assert forall v, x :: v in d.graph.nodes && x in NodeNames(v) ==> OutsideEdges(d, x);
  }

  lemma WholeNodesShow(rho: Name -> Name, d: Doc, e: Doc, y: Name)
    requires multiset(e.graph.nodes) == multiset(Mapped(WholeNode(rho), d.graph.nodes))
    ensures (exists w :: w in e.graph.nodes && y in NodeNames(w)) <==>
            exists v, x :: v in d.graph.nodes && x in NodeNames(v) && rho(x) == y
  {
    hide NodeNames, WholeNode, Mapped;
    if w :| w in e.graph.nodes && y in NodeNames(w) {
      assert w in multiset(e.graph.nodes);
      InMapped(WholeNode(rho), d.graph.nodes, w);
      var v :| v in d.graph.nodes && WholeNode(rho)(v) == w;
      WholeNodeShows(rho, v, y);
    }
    if v, x :| v in d.graph.nodes && x in NodeNames(v) && rho(x) == y {
      InMapped(WholeNode(rho), d.graph.nodes, WholeNode(rho)(v));
      assert WholeNode(rho)(v) in multiset(e.graph.nodes);
      WholeNodeShows(rho, v, y);
    }
  }

  lemma WholeMovable(rho: Name -> Name, d: Doc, e: Doc, x: Name)
    requires Whole(rho, d, e) && x in Movable(d.graph)
    ensures rho(x) in Movable(e.graph)
  {
    hide Names, NodeNames, RenameBy, Mapped;
    var i :| 0 <= i < |d.graph.nodes| && d.graph.nodes[i].cls.Some? && d.graph.nodes[i].id == x;
    var w := WholeNode(rho)(d.graph.nodes[i]);
    InMapped(WholeNode(rho), d.graph.nodes, w);
    assert w in multiset(e.graph.nodes);
    ClassedIsMovable(e.graph, w);
  }

  lemma MovedOutside(ids: set<Name>, d: Doc, x: Name, u: Name, y: Name)
    requires Movement(ids, d, x, u)
    ensures OutsideEdges(Moved(d, x, u), y) <==> OutsideEdges(d, y)
  {
    hide Movement, Names;
    var g, h := d.graph, Moved(d, x, u).graph;
    forall i | 0 <= i < |g.nodes| ensures NodeNames(h.nodes[i]) == NodeNames(g.nodes[i]) {
      assert h.nodes[i] == MovedNode(x, u)(g.nodes[i]);
    }
    hide NodeNames;
    if v :| v in g.nodes && y in NodeNames(v) {
      var i :| 0 <= i < |g.nodes| && g.nodes[i] == v;
      assert h.nodes[i] in h.nodes;
    }
    if w :| w in h.nodes && y in NodeNames(w) {
      var i :| 0 <= i < |h.nodes| && h.nodes[i] == w;
      assert g.nodes[i] in g.nodes;
    }
  }

  /** No renaming of the whole state moves a node that is referenced outside the edges: it would have to
      take the names there onto themselves, and the nodes among them into fewer. */
  lemma NoRenamingMoves(ids: set<Name>, d: Doc, x: Name, u: Name, rho: Name -> Name)
    requires Movement(ids, d, x, u) && OutsideEdges(d, x)
    ensures !Whole(rho, d, Moved(d, x, u))
  {
    hide Input, Movable, OutsideEdges, InEdges, Whole, Moved, Outside;
    var e, part := Moved(d, x, u), Movable(d.graph) * Outside(d);
    MovementParts(ids, d, x, u);
    MovedMovable(ids, d, x, u);
    if Whole(rho, d, e) {
      forall y ensures y in Image(rho, Outside(d)) <==> y in Outside(d) {
        OutsideIs(d, y);
        MovedOutside(ids, d, x, u, y);
        WholeOutside(rho, d, e, y);
        forall n ensures n in Outside(d) <==> OutsideEdges(d, n) {
          OutsideIs(d, n);
        }
      }
      assert Image(rho, Outside(d)) == Outside(d);
      OntoKeepsSize(rho, Outside(d), part);
      OutsideIs(d, x);
      OutsideIs(d, u);
      forall y | y in Image(rho, part) ensures y in part - {x} {
        var n :| n in part && rho(n) == y;
        WholeMovable(rho, d, e, n);
        assert y in Image(rho, Outside(d));
      }
      NoLarger(Image(rho, part), part - {x});
    }
  }

  /** An interchangeable node that is referenced outside the edges can be given any fresh name there
      is, and the form stays the same, though no renaming turns one state into the other. */
  lemma ReferencedNodesAreMerged(p: Policy, ids: set<Name>, d: Doc, x: Name, u: Name, f: Form)
    requires SoundPolicy(p) && Movement(ids, d, x, u) && OutsideEdges(d, x) && p.small(ClassLabels(d.graph.nodes))
    ensures Canonical(p, ids, d, f) <==> Canonical(p, ids, Moved(d, x, u), f)
    ensures forall rho :: !Whole(rho, d, Moved(d, x, u))
  {
    hide *;
    MovedFormsAgree(p, ids, d, x, u, f);
    forall rho ensures !Whole(rho, d, Moved(d, x, u)) {
      NoRenamingMoves(ids, d, x, u, rho);
    }
  }

  /** One node that is mentioned outside the edges. */
  function Mentioned(): Doc {
    Doc(Text(Plain("a")), Graph(Scalar(0), [GraphNode(Plain("a"), Some("c"), Scalar(0))], []))
  }

  lemma MentionedMoves()
    ensures Movement({}, Mentioned(), Plain("a"), Plain("b")) && OutsideEdges(Mentioned(), Plain("a"))
    ensures Moved(Mentioned(), Plain("a"), Plain("b")).graph.nodes == [GraphNode(Plain("b"), Some("c"), Scalar(0))]
  {
    var d := Mentioned();
    assert Names(d.plain) == {Plain("a")} && Names(d.graph.rest) == {};
    assert d.graph.nodes[0].id in Movable(d.graph);
    assert Plain("a") != Plain("b") by { assert "a"[0] != "b"[0]; }
    assert forall n :: n in Movable(d.graph) ==> n == Plain("a");
  }

  lemma OneReferenceIsEnough(p: Policy, f: Form)
    requires SoundPolicy(p) && p.small(ClassLabels(Mentioned().graph.nodes))
    ensures var e := Moved(Mentioned(), Plain("a"), Plain("b"));
            && e.graph.nodes == [GraphNode(Plain("b"), Some("c"), Scalar(0))] && e.plain == Mentioned().plain
            && (Canonical(p, {}, Mentioned(), f) <==> Canonical(p, {}, e, f))
            && forall rho :: !Whole(rho, Mentioned(), e)
  {
    MentionedMoves();
    hide SoundPolicy, Canonical, Whole, ClassLabels, Movement, OutsideEdges, Mentioned;
    ReferencedNodesAreMerged(p, {}, Mentioned(), Plain("a"), Plain("b"), f);
  }

  lemma MovedIsInput(ids: set<Name>, d: Doc, x: Name, u: Name)
    requires Movement(ids, d, x, u)
    ensures Input(ids, Moved(d, x, u))
  {
    MovementParts(ids, d, x, u);
    MovedMovable(ids, d, x, u);
    var g, h := d.graph, Moved(d, x, u).graph;
    forall w | w in h.nodes
      ensures PlainNames(Names(w.body)) && w.id.Plain? && (w.cls.None? ==> w.id !in Movable(h))
    {
      var i :| 0 <= i < |h.nodes| && h.nodes[i] == w;
      MovedNodeIsInput(ids, d, x, u, g.nodes[i]);
    }
    forall a | a in h.edges ensures PlainNames(Names(a)) {
      var i :| 0 <= i < |h.edges| && h.edges[i] == a;
      MovedEdgeIsPlain(ids, d, x, u, g.edges[i]);
    }
    hide Names, Movable, OutsideEdges, InEdges;
  }

  lemma MovedNodeIsInput(ids: set<Name>, d: Doc, x: Name, u: Name, v: GraphNode)
    requires Movement(ids, d, x, u) && v in d.graph.nodes
    ensures var w := MovedNode(x, u)(v);
            && PlainNames(Names(w.body)) && w.id.Plain?
            && (w.cls.None? ==> w.id !in Movable(d.graph) - {x} + {u})
  {
    MovementParts(ids, d, x, u);
    assert v.id.Plain? && PlainNames(Names(v.body));
    hide Names, Movable, OutsideEdges, InEdges;
    if v.cls.None? {
      NodeIsOutside(d, v, v.id);
    }
  }

  lemma MovedEdgeIsPlain(ids: set<Name>, d: Doc, x: Name, u: Name, a: Value)
    requires Movement(ids, d, x, u) && a in d.graph.edges
    ensures PlainNames(Names(RenameValue(Only(x, u))(a)))
  {
    MovementParts(ids, d, x, u);
    assert PlainNames(Names(a));
    hide Names, Movable, RenameBy, Input, Fresh;
    forall y | y in Names(RenameBy(Only(x, u), a)) ensures y.Plain? {
      NamesRenamed(Only(x, u), a, y);
    }
  }

  // ---------- beyond the bound on permutations ----------

  lemma UnnumberedNode(m: map<Name, Name>, v: GraphNode)
    ensures NodeBy(Along(m), Along(map[]))(v).id == Along(m)(v.id)
  {
    hide RenameBy;
  }

  /** Beyond the bound on permutations interchangeable nodes keep their names, so for every node of every
      state there is a variant with which it shares no form: there the bound is exact as well. */
  lemma BeyondThePermutations(p: Policy, ids: set<Name>, d: Doc, x: Name, u: Name, f: Form)
    requires SoundPolicy(p) && Movement(ids, d, x, u) && !p.small(ClassLabels(d.graph.nodes))
    ensures Variant(Fixed(ids), Moving(d, x, u), ids, d, ids, Moved(d, x, u))
    ensures !(Canonical(p, ids, d, f) && Canonical(p, ids, Moved(d, x, u), f))
  {
    hide *;
    MovedIsVariant(ids, d, x, u);
    MovedIsInput(ids, d, x, u);
    InputOf(ids, d, x, u);
    MovedMovable(ids, d, x, u);
    MovementParts(ids, d, x, u);
    if Canonical(p, ids, d, f) && Canonical(p, ids, Moved(d, x, u), f) {
      var rho := BeyondIsOneRenaming(p, ids, d, ids, Moved(d, x, u), f);
      KeptIsThere(d, Moved(d, x, u), x, rho);
    }
  }

  lemma InputOf(ids: set<Name>, d: Doc, x: Name, u: Name)
    requires Movement(ids, d, x, u)
    ensures Input(ids, d) && x in Movable(d.graph)
  {
    hide Input, Movable;
  }

  lemma KeptIsThere(d: Doc, e: Doc, x: Name, rho: Name -> Name)
    requires Whole(rho, d, e) && x in Movable(d.graph) && rho(x) == x
    ensures x in Movable(e.graph)
  {
    WholeMovable(rho, d, e, x);
  }

  lemma UnnumberedFixed(ids: set<Name>, d: Doc, m: map<Name, Name>, s: map<Name, Name>,
                        newIds: set<Name>, e: Doc, n: map<Name, Name>, t: map<Name, Name>,
                        pi: map<Name, Name>, tau: map<Name, Name>, x: Name)
    requires Renamings.Paired(ids, d, m, s, newIds, e, n, t, pi, tau) && s.Keys == {} && t.Keys == {} && x in tau
    ensures tau[x] == x
  {
    hide Numbered, Matches, SameClasses, Movable, Injective, Onto;
    FormNumbersOf(ids, d, m, s);
    FormNumbersOf(newIds, e, n, t);
    MovableIsPlain(ids, d, m, s, x);
    MovableIsPlain(newIds, e, n, t, tau[x]);
    NumberedName(ids, d, m, s, x);
    NumberedName(newIds, e, n, t, tau[x]);
    assert Shown(n, t, tau[x]) == Shown(m, s, x);
  }

  lemma FixedNodesWhole(ids: set<Name>, d: Doc, newIds: set<Name>, e: Doc, pi: map<Name, Name>, tau: map<Name, Name>)
    requires OneRenaming(pi, tau, ids, d, newIds, e) && ids !! Movable(d.graph) && forall x <- tau :: tau[x] == x
    ensures Whole(Along(pi), d, e) && forall x <- Movable(d.graph) :: Along(pi)(x) == x
  {
    hide SameClasses, OutsideEdges, InEdges, Names, RenameBy, Movable, Injective, Onto, Into, Mapped;
    forall v | v in d.graph.nodes ensures VariantNode(Along(pi), Along(tau))(v) == WholeNode(Along(pi))(v) {
      if v.cls.Some? {
        ClassedIsMovable(d.graph, v);
      }
    }
    MappedSame(VariantNode(Along(pi), Along(tau)), WholeNode(Along(pi)), d.graph.nodes);
    forall a | a in d.graph.edges ensures RenameValue(Both(pi, tau))(a) == RenameValue(Along(pi))(a) {
      RenameSame(Both(pi, tau), Along(pi), a);
    }
    MappedSame(RenameValue(Both(pi, tau)), RenameValue(Along(pi)), d.graph.edges);
  }

  /** Beyond the bound on permutations equal forms always mean one renaming of the whole state, and the
      interchangeable nodes keep their names. */
  lemma BeyondIsOneRenaming(p: Policy, ids: set<Name>, d: Doc, newIds: set<Name>, e: Doc, f: Form)
    returns (rho: Name -> Name)
    requires SoundPolicy(p) && Input(ids, d) && Input(newIds, e) && !p.small(ClassLabels(d.graph.nodes))
    requires Canonical(p, ids, d, f) && Canonical(p, newIds, e, f)
    ensures Whole(rho, d, e) && forall x <- Movable(d.graph) :: rho(x) == x
  {
    hide *;
    var m, s := NumbersOf(p, ids, d, f);
    var n, t := NumbersOf(p, newIds, e, f);
    FormFrom(ids, d, m, s, f);
    FormFrom(newIds, e, n, t, f);
    var pi, tau := PairUp(ids, d, m, s, newIds, e, n, t, f);
    SameBound(p, ids, d, newIds, e, pi, tau);
    forall x | x in tau ensures tau[x] == x {
      UnnumberedFixed(ids, d, m, s, newIds, e, n, t, pi, tau, x);
    }
    InputApart(ids, d);
    FixedNodesWhole(ids, d, newIds, e, pi, tau);
    rho := Along(pi);
  }

  // ---------- exactly when ----------

  /** Every state with this form is `d` under one renaming. */
  ghost predicate OnlyRenamings(p: Policy, d: Doc, f: Form) {
    forall newIds, e {:trigger Canonical(p, newIds, e, f)} :: Input(newIds, e) && Canonical(p, newIds, e, f) ==>
      exists rho :: Whole(rho, d, e)
  }

  /** A form stands for one state up to a renaming of the whole state exactly when the interchangeable
      nodes are referenced only from edges, or are too many to be permuted and keep their names. */
  lemma OneRenamingExactly(p: Policy, ids: set<Name>, d: Doc, f: Form)
    requires SoundPolicy(p) && Input(ids, d) && Canonical(p, ids, d, f)
    ensures OnlyRenamings(p, d, f) <==> OnlyInEdges(d) || !p.small(ClassLabels(d.graph.nodes))
  {
    hide Input, Canonical, Whole, OnlyInEdges, SoundPolicy, ClassLabels, Moved, Movement;
    if OnlyInEdges(d) || !p.small(ClassLabels(d.graph.nodes)) {
      forall newIds, e | Input(newIds, e) && Canonical(p, newIds, e, f) ensures exists rho :: Whole(rho, d, e) {
        var rho := SomeRenaming(p, ids, d, newIds, e, f);
      }
    } else {
      var x := ReferencedNode(d);
      var u := SomeFresh(ids, d);
      assert Movement(ids, d, x, u) by { IsMovement(ids, d, x, u); }
      MovedIsInput(ids, d, x, u);
      ReferencedNodesAreMerged(p, ids, d, x, u, f);
    }
  }

  lemma IsMovement(ids: set<Name>, d: Doc, x: Name, u: Name)
    requires Input(ids, d) && x in Movable(d.graph) && Fresh(ids, d, u)
    ensures Movement(ids, d, x, u)
  {}

  lemma ReferencedNode(d: Doc) returns (x: Name)
    requires !OnlyInEdges(d)
    ensures x in Movable(d.graph) && OutsideEdges(d, x)
  {
    x :| x in Movable(d.graph) && OutsideEdges(d, x);
  }

  lemma SomeRenaming(p: Policy, ids: set<Name>, d: Doc, newIds: set<Name>, e: Doc, f: Form) returns (rho: Name -> Name)
    requires SoundPolicy(p) && Input(ids, d) && Canonical(p, ids, d, f)
    requires Input(newIds, e) && Canonical(p, newIds, e, f)
    requires OnlyInEdges(d) || !p.small(ClassLabels(d.graph.nodes))
    ensures Whole(rho, d, e)
  {
    hide *;
    if OnlyInEdges(d) {
      var pi, tau, _, _ := EqualFormsAreRenamings(p, ids, d, newIds, e, f);
      RenamesWhole(ids, d, newIds, e, pi, tau);
      rho := Both(pi, tau);
    } else {
      rho := BeyondIsOneRenaming(p, ids, d, newIds, e, f);
    }
  }
}

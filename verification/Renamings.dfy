/** What equal canonical forms mean: one renaming turns the first state into the second. */
module Renamings {
  import opened Grammars
  import opened Lists
  import opened CanonicalForms

  // ---------- names that occur ----------

  lemma {:induction false} NamesRenamed(f: Name -> Name, v: Value, y: Name)
    ensures y in Names(RenameBy(f, v)) <==> exists x :: x in Names(v) && f(x) == y
    decreases v
  {
    match v
    case Text(_) =>
    case Scalar(_) =>
    case Items(items) =>
      forall i | 0 <= i < |items| ensures y in Names(RenameBy(f, items[i])) <==>
          exists x :: x in Names(items[i]) && f(x) == y {
        NamesRenamed(f, items[i], y);
      }
      assert forall i :: 0 <= i < |items| ==> RenameBy(f, v).items[i] == RenameBy(f, items[i]);
    case Fields(entries) =>
      forall i | 0 <= i < |entries| ensures y in Names(RenameBy(f, entries[i].1)) <==>
          exists x :: x in Names(entries[i].1) && f(x) == y {
        NamesRenamed(f, entries[i].1, y);
      }
      assert forall i :: 0 <= i < |entries| ==> RenameBy(f, v).entries[i].1 == RenameBy(f, entries[i].1);
  }

  lemma RenameSame(f: Name -> Name, g: Name -> Name, v: Value)
    requires forall x <- Names(v) :: f(x) == g(x)
    ensures RenameBy(f, v) == RenameBy(g, v)
  {
    RenameNothing(Id(), v);
    RenameTwice(f, Id(), g, v);
  }

  /** Names outside the edges that a renaming of identities reaches. */
  ghost predicate OutsideEdges(d: Doc, x: Name) {
    || x in Names(d.plain) || x in Names(d.graph.rest)
    || exists v :: v in d.graph.nodes && x in NodeNames(v)
  }

  ghost predicate InEdges(d: Doc, x: Name) {
    exists e :: e in d.graph.edges && x in Names(e)
  }

  ghost predicate Occurs(d: Doc, x: Name) {
    OutsideEdges(d, x) || InEdges(d, x) || x in Movable(d.graph)
  }

  ghost predicate InForm(f: Form, y: Name) {
    || y in Names(f.plain) || y in Names(f.graph.rest)
    || (exists v :: v in f.graph.nodes && y in NodeNames(v))
    || exists e :: e in f.graph.edges && y in Names(e)
  }

  lemma InMapped<A, B>(f: A -> B, s: seq<A>, b: B)
    ensures b in multiset(Mapped(f, s)) <==> exists a :: a in s && f(a) == b
  {
    if b in multiset(Mapped(f, s)) {
      var i :| 0 <= i < |s| && Mapped(f, s)[i] == b;
      assert s[i] in s;
    }
    if a :| a in s && f(a) == b {
      var i :| 0 <= i < |s| && s[i] == a;
      assert Mapped(f, s)[i] == b;
    }
  }

  /** A state with the numberings behind its form. */
  ghost predicate FormOf(ids: set<Name>, d: Doc, m: map<Name, Name>, s: map<Name, Name>, f: Form) {
    && Numbered(ids, d, m, s) && m.Keys == ids
    && f.plain == RenameBy(Along(m), d.plain) && f.graph == GraphBy(Along(m), Along(s), d.graph)
  }

  // ---------- which names a form shows ----------

  lemma NodeShows(m: map<Name, Name>, s: map<Name, Name>, v: GraphNode, y: Name)
    ensures y in NodeNames(NodeBy(Along(m), Along(s))(v)) <==> exists x :: x in NodeNames(v) && Along(m)(x) == y
  {
    NamesRenamed(Along(m), v.body, y);
    hide Names, RenameBy, Along;
  }

  lemma EdgeShows(m: map<Name, Name>, s: map<Name, Name>, e: Value, y: Name)
    ensures y in Names(EdgeBy(Along(m), Along(s))(e)) <==> exists x :: x in Names(e) && Along(m)(Along(s)(x)) == y
  {
    hide Names, RenameBy, Along;
    EdgeInOne(m, s, e);
    NamesRenamed(Then(Along(m), Along(s)), e, y);
    if x :| x in Names(e) && Then(Along(m), Along(s))(x) == y {
      assert Along(m)(Along(s)(x)) == y;
    }
    if x :| x in Names(e) && Along(m)(Along(s)(x)) == y {
      assert Then(Along(m), Along(s))(x) == y;
    }
  }

  lemma EdgeInOne(m: map<Name, Name>, s: map<Name, Name>, e: Value)
    ensures EdgeBy(Along(m), Along(s))(e) == RenameBy(Then(Along(m), Along(s)), e)
  {
    hide Along, RenameBy;
    RenameThen(Along(m), Along(s), e);
  }

  ghost predicate ShowsOutside(d: Doc, m: map<Name, Name>, y: Name) {
    exists x :: OutsideEdges(d, x) && Along(m)(x) == y
  }

  ghost predicate ShowsInEdges(d: Doc, m: map<Name, Name>, s: map<Name, Name>, y: Name) {
    exists x :: InEdges(d, x) && Along(m)(Along(s)(x)) == y
  }

  lemma NodesShow(m: map<Name, Name>, s: map<Name, Name>, nodes: seq<GraphNode>, y: Name)
    ensures (exists v :: v in multiset(Mapped(NodeBy(Along(m), Along(s)), nodes)) && y in NodeNames(v))
       <==> exists v, x :: v in nodes && x in NodeNames(v) && Along(m)(x) == y
  {
    hide NodeNames, NodeBy, Along, Mapped;
    var form := NodeBy(Along(m), Along(s));
    if w :| w in multiset(Mapped(form, nodes)) && y in NodeNames(w) {
      InMapped(form, nodes, w);
      var v :| v in nodes && form(v) == w;
      NodeShows(m, s, v, y);
    }
    if v, x :| v in nodes && x in NodeNames(v) && Along(m)(x) == y {
      InMapped(form, nodes, form(v));
      NodeShows(m, s, v, y);
    }
  }

  lemma EdgesShow(m: map<Name, Name>, s: map<Name, Name>, edges: seq<Value>, y: Name)
    ensures (exists e :: e in multiset(Mapped(EdgeBy(Along(m), Along(s)), edges)) && y in Names(e))
       <==> exists e, x :: e in edges && x in Names(e) && Along(m)(Along(s)(x)) == y
  {
    hide Names, EdgeBy, Along, Mapped;
    var form := EdgeBy(Along(m), Along(s));
    if w :| w in multiset(Mapped(form, edges)) && y in Names(w) {
      InMapped(form, edges, w);
      var e :| e in edges && form(e) == w;
      EdgeShows(m, s, e, y);
    }
    if e, x :| e in edges && x in Names(e) && Along(m)(Along(s)(x)) == y {
      InMapped(form, edges, form(e));
      EdgeShows(m, s, e, y);
    }
  }

  /** A form shows exactly the renamed names of the state. */
  lemma FormShows(ids: set<Name>, d: Doc, m: map<Name, Name>, s: map<Name, Name>, f: Form, y: Name)
    requires FormOf(ids, d, m, s, f)
    ensures InForm(f, y) <==> ShowsOutside(d, m, y) || ShowsInEdges(d, m, s, y)
  {
    NamesRenamed(Along(m), d.plain, y);
    NamesRenamed(Along(m), d.graph.rest, y);
    NodesShow(m, s, d.graph.nodes, y);
    EdgesShow(m, s, d.graph.edges, y);
    hide Names, NodeNames, NodeBy, EdgeBy, Along, Mapped, Numbered, RenameBy;
    assert (exists v, x :: v in d.graph.nodes && x in NodeNames(v) && Along(m)(x) == y) ==> ShowsOutside(d, m, y);
    assert (exists e, x :: e in d.graph.edges && x in Names(e) && Along(m)(Along(s)(x)) == y) ==>
        ShowsInEdges(d, m, s, y);
  }

  lemma OccursPlain(ids: set<Name>, d: Doc, m: map<Name, Name>, s: map<Name, Name>, x: Name)
    requires Numbered(ids, d, m, s) && Occurs(d, x)
    ensures x.Plain?
  {
    hide Names, Movable;
  }

  /** The identities that occur. */
  ghost predicate Used(ids: set<Name>, d: Doc, x: Name) {
    x in ids && (OutsideEdges(d, x) || InEdges(d, x))
  }

  /** How numbering treats a name of the input. */
  lemma NumberedName(ids: set<Name>, d: Doc, m: map<Name, Name>, s: map<Name, Name>, x: Name)
    requires Numbered(ids, d, m, s) && m.Keys == ids && x.Plain?
    ensures x in ids ==> Along(s)(x) == x && Along(m)(x) == m[x] && m[x].Alpha?
    ensures x in s ==> Along(m)(Along(s)(x)) == s[x] && s[x].Sym?
    ensures x !in ids && x !in s ==> Along(m)(Along(s)(x)) == x
    ensures x !in ids ==> Along(m)(x) == x
  {
    hide Names;
  }

  /** Numbers of identities show in the form exactly for the identities that occur. */
  lemma AlphaShows(ids: set<Name>, d: Doc, m: map<Name, Name>, s: map<Name, Name>, f: Form, y: Name)
    requires FormOf(ids, d, m, s, f) && y.Alpha?
    ensures InForm(f, y) <==> exists x :: Used(ids, d, x) && m[x] == y
  {
    FormShows(ids, d, m, s, f, y);
    hide Names, Numbered, GraphBy, RenameBy, Along, InForm, OutsideEdges, InEdges, Movable;
    if ShowsOutside(d, m, y) {
      var x :| OutsideEdges(d, x) && Along(m)(x) == y;
      OccursPlain(ids, d, m, s, x);
      NumberedName(ids, d, m, s, x);
    }
    if ShowsInEdges(d, m, s, y) {
      var x :| InEdges(d, x) && Along(m)(Along(s)(x)) == y;
      OccursPlain(ids, d, m, s, x);
      NumberedName(ids, d, m, s, x);
    }
    if x :| Used(ids, d, x) && m[x] == y {
      OccursPlain(ids, d, m, s, x);
      NumberedName(ids, d, m, s, x);
    }
  }

  /** A plain name in the form is none of the identities. */
  lemma PlainShows(ids: set<Name>, d: Doc, m: map<Name, Name>, s: map<Name, Name>, f: Form, y: Name)
    requires FormOf(ids, d, m, s, f) && y.Plain? && InForm(f, y)
    ensures y !in ids
  {
    FormShows(ids, d, m, s, f, y);
    hide Names, Numbered, GraphBy, RenameBy, Along, InForm, OutsideEdges, InEdges, Movable;
    if ShowsInEdges(d, m, s, y) {
      var x :| InEdges(d, x) && Along(m)(Along(s)(x)) == y;
      OccursPlain(ids, d, m, s, x);
      NumberedName(ids, d, m, s, x);
    } else {
      var x :| OutsideEdges(d, x) && Along(m)(x) == y;
      OccursPlain(ids, d, m, s, x);
      NumberedName(ids, d, m, s, x);
    }
  }

  ghost predicate InFormEdges(f: Form, y: Name) {
    exists e :: e in f.graph.edges && y in Names(e)
  }

  /** A plain name in an edge of the form is not renamed by the numbering of nodes either. */
  lemma PlainShowsInEdges(ids: set<Name>, d: Doc, m: map<Name, Name>, s: map<Name, Name>, f: Form, y: Name)
    requires FormOf(ids, d, m, s, f) && y.Plain? && InFormEdges(f, y)
    ensures y !in s
  {
    EdgesShow(m, s, d.graph.edges, y);
    hide Names, Numbered, RenameBy, Along, Movable, EdgeBy, Mapped;
    var e, x :| e in d.graph.edges && x in Names(e) && Along(m)(Along(s)(x)) == y;
    assert InEdges(d, x);
    OccursPlain(ids, d, m, s, x);
    NumberedName(ids, d, m, s, x);
  }

  // ---------- the two bijections ----------

  /** The identity renaming, on the identities that occur. */
  ghost predicate Matches(ids: set<Name>, d: Doc, newIds: set<Name>, e: Doc, pi: map<Name, Name>) {
    && (forall x :: x in pi <==> Used(ids, d, x))
    && (forall x <- pi :: Used(newIds, e, pi[x]))
    && (forall y :: Used(newIds, e, y) ==> exists x :: x in pi && pi[x] == y)
    && Injective(pi)
  }

  ghost function UsedSet(ids: set<Name>, d: Doc): set<Name> {
    set x | x in ids && Used(ids, d, x)
  }

  /** `pi` gives a name the name that has the same number in the other state. */
  ghost predicate SameNumber(m: map<Name, Name>, n: map<Name, Name>, pi: map<Name, Name>) {
    forall x <- pi :: x in m && pi[x] in n && n[pi[x]] == m[x]
  }

  lemma PartnerOf(ids: set<Name>, d: Doc, m: map<Name, Name>, s: map<Name, Name>,
                  newIds: set<Name>, e: Doc, n: map<Name, Name>, t: map<Name, Name>, f: Form, x: Name) returns (y: Name)
    requires FormOf(ids, d, m, s, f) && FormOf(newIds, e, n, t, f) && Used(ids, d, x)
    ensures Used(newIds, e, y) && n[y] == m[x]
  {
    hide Names, GraphBy, RenameBy, InForm, OutsideEdges, InEdges, Movable;
    NumberedName(ids, d, m, s, x) by { OccursPlain(ids, d, m, s, x); }
    AlphaShows(ids, d, m, s, f, m[x]);
    AlphaShows(newIds, e, n, t, f, m[x]);
    y :| Used(newIds, e, y) && n[y] == m[x];
  }

  lemma Related(keys: set<Name>, r: (Name, Name) -> bool) returns (m: map<Name, Name>)
    requires forall x <- keys :: exists y :: r(x, y)
    ensures m.Keys == keys && forall x <- m :: r(x, m[x])
  {
    m := map x | x in keys :: var y :| r(x, y); y;
  }

  ghost function IdPartner(m: map<Name, Name>, n: map<Name, Name>, newIds: set<Name>, e: Doc): (Name, Name) -> bool {
    (x: Name, y: Name) => x in m && y in n && n[y] == m[x] && Used(newIds, e, y)
  }

  lemma MatchIds(ids: set<Name>, d: Doc, m: map<Name, Name>, s: map<Name, Name>,
                 newIds: set<Name>, e: Doc, n: map<Name, Name>, t: map<Name, Name>, f: Form)
                   returns (pi: map<Name, Name>)
    requires FormOf(ids, d, m, s, f) && FormOf(newIds, e, n, t, f)
    ensures Matches(ids, d, newIds, e, pi) && SameNumber(m, n, pi)
  {
    hide FormOf, OutsideEdges, InEdges, Numbered, Names, RenameBy, GraphBy, Input, Movable;
    FormNumbers(ids, d, m, s, f);
    FormNumbers(newIds, e, n, t, f);
    forall x | x in UsedSet(ids, d) ensures exists y :: IdPartner(m, n, newIds, e)(x, y) {
      var y := PartnerOf(ids, d, m, s, newIds, e, n, t, f, x);
      assert IdPartner(m, n, newIds, e)(x, y);
    }
    pi := Related(UsedSet(ids, d), IdPartner(m, n, newIds, e));
    forall y | Used(newIds, e, y) ensures exists x :: x in pi && pi[x] == y {
      var x := PartnerOf(newIds, e, n, t, ids, d, m, s, f, y);
      assert x in pi && n[pi[x]] == n[y];
    }
  }

  lemma FormNumbers(ids: set<Name>, d: Doc, m: map<Name, Name>, s: map<Name, Name>, f: Form)
    requires FormOf(ids, d, m, s, f)
    ensures Numbered(ids, d, m, s) && m.Keys == ids && Injective(m) && Injective(s)
  {
    hide GraphBy, RenameBy, Input;
  }

  lemma SameFormNodes(ids: set<Name>, d: Doc, m: map<Name, Name>, s: map<Name, Name>,
                      newIds: set<Name>, e: Doc, n: map<Name, Name>, t: map<Name, Name>, f: Form)
    requires FormOf(ids, d, m, s, f) && FormOf(newIds, e, n, t, f)
    ensures multiset(Mapped(NodeBy(Along(m), Along(s)), d.graph.nodes)) ==
        multiset(Mapped(NodeBy(Along(n), Along(t)), e.graph.nodes))
  {
    hide Numbered, NodeBy, EdgeBy, RenameBy, Along, Mapped;
  }

  lemma NodePartner(ids: set<Name>, d: Doc, m: map<Name, Name>, s: map<Name, Name>,
                    newIds: set<Name>, e: Doc, n: map<Name, Name>, t: map<Name, Name>, f: Form, v: GraphNode)
                      returns (w: GraphNode)
    requires FormOf(ids, d, m, s, f) && FormOf(newIds, e, n, t, f) && v in d.graph.nodes
    ensures w in e.graph.nodes && NodeBy(Along(n), Along(t))(w) == NodeBy(Along(m), Along(s))(v)
  {
    hide *;
    SameFormNodes(ids, d, m, s, newIds, e, n, t, f);
    var node := NodeBy(Along(m), Along(s))(v);
    InMapped(NodeBy(Along(m), Along(s)), d.graph.nodes, node);
    InMapped(NodeBy(Along(n), Along(t)), e.graph.nodes, node);
    w :| w in e.graph.nodes && NodeBy(Along(n), Along(t))(w) == node;
  }

  /** The number an interchangeable node carries in the form. */
  ghost function Shown(m: map<Name, Name>, s: map<Name, Name>, x: Name): Name {
    Along(m)(Along(s)(x))
  }

  lemma MemberPartner(ids: set<Name>, d: Doc, m: map<Name, Name>, s: map<Name, Name>,
                      newIds: set<Name>, e: Doc, n: map<Name, Name>, t: map<Name, Name>, f: Form, x: Name, c: string)
                        returns (y: Name)
    requires FormOf(ids, d, m, s, f) && FormOf(newIds, e, n, t, f) && Member(d.graph, x, c)
    ensures Member(e.graph, y, c) && Shown(n, t, y) == Shown(m, s, x)
  {
    hide Numbered, RenameBy, Along, Mapped, GraphBy;
    var i :| 0 <= i < |d.graph.nodes| && d.graph.nodes[i].id == x && d.graph.nodes[i].cls == Some(c);
    var v := d.graph.nodes[i];
    var w := NodePartner(ids, d, m, s, newIds, e, n, t, f, v);
    var k :| 0 <= k < |e.graph.nodes| && e.graph.nodes[k] == w;
    y := w.id;
    assert Member(e.graph, y, c);
  }

  lemma ShownOnce(ids: set<Name>, d: Doc, m: map<Name, Name>, s: map<Name, Name>, x: Name, y: Name)
    requires Numbered(ids, d, m, s) && x in Movable(d.graph) && y in Movable(d.graph)
        && Shown(m, s, x) == Shown(m, s, y)
    ensures x == y
  {
    assert x.Plain? && y.Plain? && Injective(m) && Injective(s);
    hide Names, Movable, Along, Undone;
    UndoName(m, ids, s, Movable(d.graph), x);
    UndoName(m, ids, s, Movable(d.graph), y);
  }

  ghost predicate SameShown(m: map<Name, Name>, s: map<Name, Name>, n: map<Name, Name>, t: map<Name, Name>,
        tau: map<Name, Name>) {
    forall x <- tau :: Shown(n, t, tau[x]) == Shown(m, s, x)
  }

  lemma MovableIsMember(g: Graph, x: Name) returns (c: string)
    requires x in Movable(g)
    ensures Member(g, x, c)
  {
    var i :| 0 <= i < |g.nodes| && g.nodes[i].cls.Some? && g.nodes[i].id == x;
    c := g.nodes[i].cls.value;
  }

  lemma MovablePartner(ids: set<Name>, d: Doc, m: map<Name, Name>, s: map<Name, Name>,
                       newIds: set<Name>, e: Doc, n: map<Name, Name>, t: map<Name, Name>, f: Form, x: Name)
                         returns (y: Name)
    requires FormOf(ids, d, m, s, f) && FormOf(newIds, e, n, t, f) && x in Movable(d.graph)
    ensures y in Movable(e.graph) && Shown(n, t, y) == Shown(m, s, x)
  {
    hide FormOf, Shown;
    var c := MovableIsMember(d.graph, x);
    y := MemberPartner(ids, d, m, s, newIds, e, n, t, f, x, c);
    MemberIs(e.graph, y, c);
  }

  ghost function NodePartnerOf(m: map<Name, Name>, s: map<Name, Name>, n: map<Name, Name>, t: map<Name, Name>,
        h: Graph): (Name, Name) -> bool {
    (x: Name, y: Name) => y in Movable(h) && Shown(n, t, y) == Shown(m, s, x)
  }

  lemma RelatedNodes(ids: set<Name>, d: Doc, m: map<Name, Name>, s: map<Name, Name>,
                     newIds: set<Name>, e: Doc, n: map<Name, Name>, t: map<Name, Name>, f: Form)
                       returns (tau: map<Name, Name>)
    requires FormOf(ids, d, m, s, f) && FormOf(newIds, e, n, t, f)
    ensures tau.Keys == Movable(d.graph) && (forall x <- tau :: tau[x] in Movable(e.graph))
        && SameShown(m, s, n, t, tau)
  {
    hide FormOf, Shown, Movable;
    var partner := NodePartnerOf(m, s, n, t, e.graph);
    forall x | x in Movable(d.graph) ensures exists y :: partner(x, y) {
      var y := MovablePartner(ids, d, m, s, newIds, e, n, t, f, x);
      assert partner(x, y);
    }
    tau := Related(Movable(d.graph), partner);
  }

  lemma NodesBijective(ids: set<Name>, d: Doc, m: map<Name, Name>, s: map<Name, Name>,
                       newIds: set<Name>, e: Doc, n: map<Name, Name>, t: map<Name, Name>, f: Form, tau: map<Name, Name>)
    requires FormOf(ids, d, m, s, f) && FormOf(newIds, e, n, t, f) && SameShown(m, s, n, t, tau)
    requires tau.Keys == Movable(d.graph) && forall x <- tau :: tau[x] in Movable(e.graph)
    ensures Bijection(tau, Movable(d.graph), Movable(e.graph))
  {
    hide FormOf, Shown, Numbered, Movable;
    FormNumbers(ids, d, m, s, f);
    FormNumbers(newIds, e, n, t, f);
    forall x, y | x in tau && y in tau && tau[x] == tau[y] ensures x == y {
      ShownOnce(ids, d, m, s, x, y);
    }
    forall y | y in Movable(e.graph) ensures Hit(tau, y) {
      var x := MovablePartner(newIds, e, n, t, ids, d, m, s, f, y);
      ShownOnce(newIds, e, n, t, tau[x], y);
    }
  }

  lemma MatchNodes(ids: set<Name>, d: Doc, m: map<Name, Name>, s: map<Name, Name>,
                   newIds: set<Name>, e: Doc, n: map<Name, Name>, t: map<Name, Name>, f: Form)
                     returns (tau: map<Name, Name>)
    requires FormOf(ids, d, m, s, f) && FormOf(newIds, e, n, t, f)
    ensures Bijection(tau, Movable(d.graph), Movable(e.graph)) && SameClasses(tau, d.graph, e.graph)
        && SameShown(m, s, n, t, tau)
  {
    hide *;
    tau := RelatedNodes(ids, d, m, s, newIds, e, n, t, f);
    NodesBijective(ids, d, m, s, newIds, e, n, t, f, tau);
    ClassesFollow(ids, d, m, s, newIds, e, n, t, f, tau);
  }

  lemma ClassesFollow(ids: set<Name>, d: Doc, m: map<Name, Name>, s: map<Name, Name>,
                      newIds: set<Name>, e: Doc, n: map<Name, Name>, t: map<Name, Name>, f: Form, tau: map<Name, Name>)
    requires FormOf(ids, d, m, s, f) && FormOf(newIds, e, n, t, f) && SameShown(m, s, n, t, tau)
    requires tau.Keys == Movable(d.graph) && forall x <- tau :: tau[x] in Movable(e.graph)
    ensures SameClasses(tau, d.graph, e.graph)
  {
    hide FormOf, Shown, Numbered, Movable, Member, Names, RenameBy, GraphBy, Input;
    FormNumbers(ids, d, m, s, f);
    FormNumbers(newIds, e, n, t, f);
    forall x, c | x in tau && Member(d.graph, x, c) ensures Member(e.graph, tau[x], c) {
      var y := MemberPartner(ids, d, m, s, newIds, e, n, t, f, x, c);
      MemberIs(e.graph, y, c);
      ShownOnce(newIds, e, n, t, tau[x], y);
    }
    forall x, c | x in tau && Member(e.graph, tau[x], c) ensures Member(d.graph, x, c) {
      var y := MemberPartner(newIds, e, n, t, ids, d, m, s, f, tau[x], c);
      MemberIs(d.graph, y, c);
      ShownOnce(ids, d, m, s, x, y);
    }
  }

  // ---------- one renaming ----------

  /** `e` is `d` with the identities that occur renamed by the bijection `pi`, and its interchangeable
      nodes by the bijection `tau`, class by class: `tau` reaches the nodes' own ids and the edges. */
  ghost predicate OneRenaming(pi: map<Name, Name>, tau: map<Name, Name>, ids: set<Name>, d: Doc, newIds: set<Name>,
        e: Doc) {
    && Matches(ids, d, newIds, e, pi)
    && Bijection(tau, Movable(d.graph), Movable(e.graph)) && SameClasses(tau, d.graph, e.graph)
    && e.plain == RenameBy(Along(pi), d.plain) && e.graph.rest == RenameBy(Along(pi), d.graph.rest)
    && multiset(e.graph.nodes) == multiset(Mapped(VariantNode(Along(pi), Along(tau)), d.graph.nodes))
    && multiset(e.graph.edges) == multiset(Mapped(RenameValue(Both(pi, tau)), d.graph.edges))
  }

  /** What renaming across the two numberings does to a name of the input. */
  lemma AcrossName(ids: set<Name>, d: Doc, m: map<Name, Name>, s: map<Name, Name>,
                   newIds: set<Name>, e: Doc, n: map<Name, Name>, t: map<Name, Name>, pi: map<Name, Name>, x: Name)
    requires Numbered(ids, d, m, s) && m.Keys == ids && Numbered(newIds, e, n, t) && n.Keys == newIds
    requires SameNumber(m, n, pi) && x.Plain? && (x in ids ==> x in pi)
    ensures Injective(n)
    ensures x !in ids ==> Across(m, n)(x) == x
    ensures x in ids ==> Across(m, n)(x) == pi[x]
  {
    hide Names, Movable;
    if x in ids {
      InverseUndoes(n, newIds, true, pi[x]);
    } else {
      InverseUndoes(n, newIds, true, x);
    }
  }

  /** And to a name in an edge. */
  lemma AcrossBothName(ids: set<Name>, d: Doc, m: map<Name, Name>, s: map<Name, Name>,
                       newIds: set<Name>, e: Doc, n: map<Name, Name>, t: map<Name, Name>,
                       pi: map<Name, Name>, tau: map<Name, Name>, x: Name)
    requires Numbered(ids, d, m, s) && m.Keys == ids && Numbered(newIds, e, n, t) && n.Keys == newIds
    requires SameNumber(m, n, pi) && x.Plain? && (x in ids ==> x in pi && pi[x].Plain?)
    requires SameShown(m, s, n, t, tau) && tau.Keys == Movable(d.graph) && forall z <- tau :: tau[z] in Movable(e.graph)
    ensures Injective(n) && Injective(t) && AcrossBoth(m, s, n, t)(x) == Both(pi, tau)(x)
  {
    hide Names, Movable, Along, Undone, RenameBy;
    FormNumbersOf(ids, d, m, s);
    FormNumbersOf(newIds, e, n, t);
    if x in tau {
      MovableIsPlain(newIds, e, n, t, tau[x]);
      UndoName(n, newIds, t, Movable(e.graph), tau[x]);
    } else {
      FixedName(ids, d, m, s, newIds, e, n, t, pi, x);
    }
  }

  lemma FormNumbersOf(ids: set<Name>, d: Doc, m: map<Name, Name>, s: map<Name, Name>)
    requires Numbered(ids, d, m, s)
    ensures Injective(m) && Injective(s) && Numbers(m, ids, true) && Numbers(s, Movable(d.graph), false)
        && ids !! Movable(d.graph)
  {
    hide Names, Movable;
  }

  lemma MovableIsPlain(ids: set<Name>, d: Doc, m: map<Name, Name>, s: map<Name, Name>, x: Name)
    requires Numbered(ids, d, m, s) && x in Movable(d.graph)
    ensures x.Plain?
  {
    hide Names, Movable;
  }

  lemma FixedName(ids: set<Name>, d: Doc, m: map<Name, Name>, s: map<Name, Name>,
                  newIds: set<Name>, e: Doc, n: map<Name, Name>, t: map<Name, Name>, pi: map<Name, Name>, x: Name)
    requires Numbered(ids, d, m, s) && m.Keys == ids && Numbered(newIds, e, n, t) && n.Keys == newIds
    requires SameNumber(m, n, pi) && x.Plain? && (x in ids ==> x in pi && pi[x].Plain?) && x !in Movable(d.graph)
    ensures Injective(n) && Injective(t)
    ensures AcrossBoth(m, s, n, t)(x) == if x in ids then pi[x] else x
  {
    hide Names, Movable, RenameBy;
    FormNumbersOf(ids, d, m, s);
    FormNumbersOf(newIds, e, n, t);
    assert x !in s;
    if x in ids {
      InverseUndoes(n, newIds, true, pi[x]);
      InverseUndoes(t, Movable(e.graph), false, pi[x]);
    } else {
      InverseUndoes(n, newIds, true, x);
      InverseUndoes(t, Movable(e.graph), false, x);
    }
  }

  ghost predicate Paired(ids: set<Name>, d: Doc, m: map<Name, Name>, s: map<Name, Name>,
                         newIds: set<Name>, e: Doc, n: map<Name, Name>, t: map<Name, Name>, pi: map<Name, Name>,
                         tau: map<Name, Name>)
  {
    && Numbered(ids, d, m, s) && m.Keys == ids && Numbered(newIds, e, n, t) && n.Keys == newIds
    && Matches(ids, d, newIds, e, pi) && SameNumber(m, n, pi)
    && Bijection(tau, Movable(d.graph), Movable(e.graph)) && SameClasses(tau, d.graph, e.graph)
        && SameShown(m, s, n, t, tau)
  }

  lemma PairedParts(ids: set<Name>, d: Doc, m: map<Name, Name>, s: map<Name, Name>,
                    newIds: set<Name>, e: Doc, n: map<Name, Name>, t: map<Name, Name>, pi: map<Name, Name>,
                    tau: map<Name, Name>, x: Name)
    requires Paired(ids, d, m, s, newIds, e, n, t, pi, tau) && Occurs(d, x)
    ensures x.Plain? && tau.Keys == Movable(d.graph) && forall z <- tau :: tau[z] in Movable(e.graph)
    ensures x in ids && x !in Movable(d.graph) ==> x in pi && pi[x].Plain?
    ensures x in ids ==> x !in Movable(d.graph)
  {
    hide Numbered, OutsideEdges, InEdges, Movable;
    OccursPlain(ids, d, m, s, x);
    FormNumbersOf(ids, d, m, s);
    if x in pi {
      OccursPlain(newIds, e, n, t, pi[x]);
    }
  }

  lemma OutsideAlong(ids: set<Name>, d: Doc, m: map<Name, Name>, s: map<Name, Name>,
                     newIds: set<Name>, e: Doc, n: map<Name, Name>, t: map<Name, Name>, pi: map<Name, Name>,
                     tau: map<Name, Name>, v: Value)
    requires Paired(ids, d, m, s, newIds, e, n, t, pi, tau) && forall x <- Names(v) :: OutsideEdges(d, x)
    ensures Injective(n) && RenameBy(Across(m, n), v) == RenameBy(Along(pi), v)
  {
    hide Numbered, OutsideEdges, InEdges, Movable, Names, Across, RenameBy, Matches, Bijection, SameClasses, SameShown;
    FormNumbersOf(newIds, e, n, t);
    forall x | x in Names(v) ensures Across(m, n)(x) == Along(pi)(x) {
      PairedParts(ids, d, m, s, newIds, e, n, t, pi, tau, x);
      UsedIsPaired(ids, d, newIds, e, pi, x);
      AcrossName(ids, d, m, s, newIds, e, n, t, pi, x);
    }
    RenameSame(Across(m, n), Along(pi), v);
  }

  lemma UsedIsPaired(ids: set<Name>, d: Doc, newIds: set<Name>, e: Doc, pi: map<Name, Name>, x: Name)
    requires Matches(ids, d, newIds, e, pi) && (OutsideEdges(d, x) || InEdges(d, x))
    ensures x in ids <==> x in pi
  {
    hide OutsideEdges, InEdges;
  }

  lemma NodeAlong(ids: set<Name>, d: Doc, m: map<Name, Name>, s: map<Name, Name>,
                  newIds: set<Name>, e: Doc, n: map<Name, Name>, t: map<Name, Name>, pi: map<Name, Name>,
                  tau: map<Name, Name>, v: GraphNode)
    requires Paired(ids, d, m, s, newIds, e, n, t, pi, tau) && v in d.graph.nodes
    ensures Injective(n) && Injective(t)
    ensures VariantNode(Across(m, n), AcrossBoth(m, s, n, t))(v) == VariantNode(Along(pi), Along(tau))(v)
  {
    hide Numbered, InEdges, Movable, Names, Across, AcrossBoth, RenameBy, Matches, Bijection, SameClasses, SameShown,
        OutsideEdges;
    FormNumbersOf(newIds, e, n, t);
    forall x | x in NodeNames(v) ensures OutsideEdges(d, x) {
      NodeIsOutside(d, v, x);
    }
    OutsideAlong(ids, d, m, s, newIds, e, n, t, pi, tau, v.body);
    NodeId(ids, d, m, s, newIds, e, n, t, pi, tau, v);
  }

  lemma NodeIsOutside(d: Doc, v: GraphNode, x: Name)
    requires v in d.graph.nodes && x in NodeNames(v)
    ensures OutsideEdges(d, x)
  {
    hide NodeNames, Names;
  }

  lemma NodeId(ids: set<Name>, d: Doc, m: map<Name, Name>, s: map<Name, Name>,
               newIds: set<Name>, e: Doc, n: map<Name, Name>, t: map<Name, Name>, pi: map<Name, Name>,
               tau: map<Name, Name>, v: GraphNode)
    requires Paired(ids, d, m, s, newIds, e, n, t, pi, tau) && v in d.graph.nodes
    ensures Injective(n) && Injective(t)
    ensures v.cls.Some? ==> AcrossBoth(m, s, n, t)(v.id) == Along(tau)(v.id)
    ensures v.cls.None? ==> Across(m, n)(v.id) == Along(pi)(v.id)
  {
    hide Numbered, InEdges, Names, Across, AcrossBoth, RenameBy, Matches, SameClasses, SameShown, OutsideEdges, Movable;
    FormNumbersOf(newIds, e, n, t);
    if v.cls.Some? {
      ClassedIsMovable(d.graph, v);
      PairedParts(ids, d, m, s, newIds, e, n, t, pi, tau, v.id);
      AcrossBothName(ids, d, m, s, newIds, e, n, t, pi, tau, v.id);
    } else {
      NodeIsOutside(d, v, v.id);
      PairedParts(ids, d, m, s, newIds, e, n, t, pi, tau, v.id);
      UsedIsPaired(ids, d, newIds, e, pi, v.id);
      AcrossName(ids, d, m, s, newIds, e, n, t, pi, v.id);
    }
  }

  lemma ClassedIsMovable(g: Graph, v: GraphNode)
    requires v in g.nodes && v.cls.Some?
    ensures v.id in Movable(g)
  {
    var i :| 0 <= i < |g.nodes| && g.nodes[i] == v;
  }

  lemma EdgeAlong(ids: set<Name>, d: Doc, m: map<Name, Name>, s: map<Name, Name>,
                  newIds: set<Name>, e: Doc, n: map<Name, Name>, t: map<Name, Name>, pi: map<Name, Name>,
                  tau: map<Name, Name>, v: Value)
    requires Paired(ids, d, m, s, newIds, e, n, t, pi, tau) && v in d.graph.edges
    ensures Injective(n) && Injective(t) && RenameBy(AcrossBoth(m, s, n, t), v) == RenameBy(Both(pi, tau), v)
  {
    hide Numbered, OutsideEdges, Movable, Names, AcrossBoth, RenameBy, Matches, SameClasses, SameShown, Both;
    FormNumbersOf(newIds, e, n, t);
    forall x | x in Names(v) ensures AcrossBoth(m, s, n, t)(x) == Both(pi, tau)(x) {
      assert InEdges(d, x);
      PairedParts(ids, d, m, s, newIds, e, n, t, pi, tau, x);
      UsedIsPaired(ids, d, newIds, e, pi, x);
      AcrossBothName(ids, d, m, s, newIds, e, n, t, pi, tau, x);
    }
    RenameSame(AcrossBoth(m, s, n, t), Both(pi, tau), v);
  }

  lemma MappedSame<A, B>(f: A -> B, g: A -> B, s: seq<A>)
    requires forall a <- s :: f(a) == g(a)
    ensures Mapped(f, s) == Mapped(g, s)
  {}

  lemma PairedRenames(ids: set<Name>, d: Doc, m: map<Name, Name>, s: map<Name, Name>,
                      newIds: set<Name>, e: Doc, n: map<Name, Name>, t: map<Name, Name>, pi: map<Name, Name>,
                      tau: map<Name, Name>)
    requires Paired(ids, d, m, s, newIds, e, n, t, pi, tau)
    requires Injective(n) && Injective(t) && Renamed(Across(m, n), AcrossBoth(m, s, n, t), d, e)
    ensures OneRenaming(pi, tau, ids, d, newIds, e)
  {
    hide Numbered, InEdges, Movable, Names, Across, AcrossBoth, RenameBy, Matches, Bijection, SameClasses, SameShown,
        VariantNode, Both, Mapped, SameNumber, Injective;
    OutsideAlong(ids, d, m, s, newIds, e, n, t, pi, tau, d.plain);
    OutsideAlong(ids, d, m, s, newIds, e, n, t, pi, tau, d.graph.rest);
    forall v | v in d.graph.nodes
      ensures VariantNode(Across(m, n), AcrossBoth(m, s, n, t))(v) == VariantNode(Along(pi), Along(tau))(v)
    {
      NodeAlong(ids, d, m, s, newIds, e, n, t, pi, tau, v);
    }
    MappedSame(VariantNode(Across(m, n), AcrossBoth(m, s, n, t)), VariantNode(Along(pi), Along(tau)), d.graph.nodes);
    forall v | v in d.graph.edges ensures RenameValue(AcrossBoth(m, s, n, t))(v) == RenameValue(Both(pi, tau))(v) {
      EdgeAlong(ids, d, m, s, newIds, e, n, t, pi, tau, v);
    }
    MappedSame(RenameValue(AcrossBoth(m, s, n, t)), RenameValue(Both(pi, tau)), d.graph.edges);
  }

  /** Each map takes back what the other does. */
  ghost predicate Undoes(m: map<Name, Name>, back: map<Name, Name>) {
    forall x <- m :: m[x] in back && back[m[x]] == x
  }

  lemma IdsUndo(ids: set<Name>, d: Doc, m: map<Name, Name>, newIds: set<Name>, e: Doc, n: map<Name, Name>,
                pi: map<Name, Name>, piBack: map<Name, Name>)
    requires Injective(m) && Matches(ids, d, newIds, e, pi) && Matches(newIds, e, ids, d, piBack)
    requires SameNumber(m, n, pi) && SameNumber(n, m, piBack)
    ensures Undoes(pi, piBack)
  {
    hide Used;
    forall x | x in pi ensures pi[x] in piBack && piBack[pi[x]] == x {
      assert m[piBack[pi[x]]] == n[pi[x]];
    }
  }

  lemma NodesUndone(ids: set<Name>, d: Doc, m: map<Name, Name>, s: map<Name, Name>, e: Doc, n: map<Name, Name>,
        t: map<Name, Name>,
                    tau: map<Name, Name>, tauBack: map<Name, Name>)
    requires Numbered(ids, d, m, s) && Bijection(tau, Movable(d.graph), Movable(e.graph))
        && Bijection(tauBack, Movable(e.graph), Movable(d.graph))
    requires SameShown(m, s, n, t, tau) && SameShown(n, t, m, s, tauBack)
    ensures Undoes(tau, tauBack)
  {
    hide Numbered, Movable, Shown, Onto, Injective;
    forall x | x in tau ensures tau[x] in tauBack && tauBack[tau[x]] == x {
      ShownOnce(ids, d, m, s, tauBack[tau[x]], x);
    }
  }

  lemma PairedUndo(ids: set<Name>, d: Doc, m: map<Name, Name>, s: map<Name, Name>,
                   newIds: set<Name>, e: Doc, n: map<Name, Name>, t: map<Name, Name>,
                   pi: map<Name, Name>, tau: map<Name, Name>, piBack: map<Name, Name>, tauBack: map<Name, Name>)
    requires Paired(ids, d, m, s, newIds, e, n, t, pi, tau) && Paired(newIds, e, n, t, ids, d, m, s, piBack, tauBack)
    ensures Undoes(pi, piBack) && Undoes(tau, tauBack)
  {
    hide Numbered, Matches, SameNumber, Bijection, SameClasses, SameShown, Undoes, Injective;
    FormNumbersOf(ids, d, m, s);
    IdsUndo(ids, d, m, newIds, e, n, pi, piBack);
    NodesUndone(ids, d, m, s, e, n, t, tau, tauBack);
  }

  /** The numberings behind two equal forms pair the names of the two states. */
  lemma PairUp(ids: set<Name>, d: Doc, m: map<Name, Name>, s: map<Name, Name>,
               newIds: set<Name>, e: Doc, n: map<Name, Name>, t: map<Name, Name>, f: Form)
    returns (pi: map<Name, Name>, tau: map<Name, Name>)
    requires FormOf(ids, d, m, s, f) && FormOf(newIds, e, n, t, f)
    ensures Paired(ids, d, m, s, newIds, e, n, t, pi, tau) && OneRenaming(pi, tau, ids, d, newIds, e)
  {
    hide *;
    pi := MatchIds(ids, d, m, s, newIds, e, n, t, f);
    tau := MatchNodes(ids, d, m, s, newIds, e, n, t, f);
    PairedFrom(ids, d, m, s, newIds, e, n, t, f, pi, tau);
    FormsRenamed(ids, d, m, s, newIds, e, n, t, f);
    PairedRenames(ids, d, m, s, newIds, e, n, t, pi, tau);
  }

  lemma PairedFrom(ids: set<Name>, d: Doc, m: map<Name, Name>, s: map<Name, Name>,
                   newIds: set<Name>, e: Doc, n: map<Name, Name>, t: map<Name, Name>, f: Form, pi: map<Name, Name>,
                   tau: map<Name, Name>)
    requires FormOf(ids, d, m, s, f) && FormOf(newIds, e, n, t, f)
    requires Matches(ids, d, newIds, e, pi) && SameNumber(m, n, pi)
    requires Bijection(tau, Movable(d.graph), Movable(e.graph)) && SameClasses(tau, d.graph, e.graph)
        && SameShown(m, s, n, t, tau)
    ensures Paired(ids, d, m, s, newIds, e, n, t, pi, tau)
  {
    hide Numbered, GraphBy, RenameBy, Matches, SameNumber, Bijection, SameClasses, SameShown;
  }

  lemma FormsRenamed(ids: set<Name>, d: Doc, m: map<Name, Name>, s: map<Name, Name>,
                     newIds: set<Name>, e: Doc, n: map<Name, Name>, t: map<Name, Name>, f: Form)
    requires FormOf(ids, d, m, s, f) && FormOf(newIds, e, n, t, f)
    ensures Injective(n) && Injective(t) && Renamed(Across(m, n), AcrossBoth(m, s, n, t), d, e)
  {
    hide Numbered, GraphBy, RenameBy, Renamed, Across, AcrossBoth, Injective;
    SameGraph(ids, d, m, s, newIds, e, n, t);
  }

  /** Equal canonical forms, within the bounds or beyond them, belong to states one of which is the
      other renamed: by one bijection of the identities that occur, the same everywhere, and one
      bijection of the interchangeable nodes that respects their classes. */
  lemma EqualFormsAreRenamings(p: Policy, ids: set<Name>, d: Doc, newIds: set<Name>, e: Doc, f: Form)
    returns (pi: map<Name, Name>, tau: map<Name, Name>, piBack: map<Name, Name>, tauBack: map<Name, Name>)
    requires SoundPolicy(p) && Input(ids, d) && Input(newIds, e)
    requires Canonical(p, ids, d, f) && Canonical(p, newIds, e, f)
    ensures OneRenaming(pi, tau, ids, d, newIds, e) && OneRenaming(piBack, tauBack, newIds, e, ids, d)
    ensures Undoes(pi, piBack) && Undoes(piBack, pi) && Undoes(tau, tauBack) && Undoes(tauBack, tau)
  {
    hide *;
    var m, s := NumbersOf(p, ids, d, f);
    var n, t := NumbersOf(p, newIds, e, f);
    FormFrom(ids, d, m, s, f);
    FormFrom(newIds, e, n, t, f);
    pi, tau := PairUp(ids, d, m, s, newIds, e, n, t, f);
    piBack, tauBack := PairUp(newIds, e, n, t, ids, d, m, s, f);
    PairedUndo(ids, d, m, s, newIds, e, n, t, pi, tau, piBack, tauBack);
    PairedUndo(newIds, e, n, t, ids, d, m, s, piBack, tauBack, pi, tau);
  }

  lemma FormFrom(ids: set<Name>, d: Doc, m: map<Name, Name>, s: map<Name, Name>, f: Form)
    requires Numbered(ids, d, m, s) && m.Keys == ids
    requires f.plain == RenameBy(Along(m), d.plain) && f.graph == GraphBy(Along(m), Along(s), d.graph)
    ensures FormOf(ids, d, m, s, f)
  {
    hide Numbered, GraphBy, RenameBy;
  }

  // ---------- one renaming for the whole state ----------

  /** Interchangeable node ids are referenced only from edges. */
  ghost predicate OnlyInEdges(d: Doc) {
    forall x :: x in Movable(d.graph) ==> !OutsideEdges(d, x)
  }

  function WholeNode(rho: Name -> Name): GraphNode -> GraphNode {
    (v: GraphNode) => GraphNode(rho(v.id), v.cls, RenameBy(rho, v.body))
  }

  /** `e` is `d` with every name renamed by `rho`, wherever it stands. */
  ghost predicate Whole(rho: Name -> Name, d: Doc, e: Doc) {
    && e.plain == RenameBy(rho, d.plain) && e.graph.rest == RenameBy(rho, d.graph.rest)
    && multiset(e.graph.nodes) == multiset(Mapped(WholeNode(rho), d.graph.nodes))
    && multiset(e.graph.edges) == multiset(Mapped(RenameValue(rho), d.graph.edges))
  }

  lemma OutsideBoth(pi: map<Name, Name>, tau: map<Name, Name>, d: Doc, v: Value)
    requires OnlyInEdges(d) && tau.Keys == Movable(d.graph) && forall x <- Names(v) :: OutsideEdges(d, x)
    ensures RenameBy(Along(pi), v) == RenameBy(Both(pi, tau), v)
  {
    hide OutsideEdges, Names, RenameBy, Movable;
    RenameSame(Along(pi), Both(pi, tau), v);
  }

  lemma NodeBoth(ids: set<Name>, pi: map<Name, Name>, tau: map<Name, Name>, d: Doc, v: GraphNode)
    requires OnlyInEdges(d) && tau.Keys == Movable(d.graph) && v in d.graph.nodes
    ensures VariantNode(Along(pi), Along(tau))(v) == WholeNode(Both(pi, tau))(v)
  {
    hide OutsideEdges, Names, RenameBy, Movable, OnlyInEdges;
    forall x | x in NodeNames(v) ensures OutsideEdges(d, x) {
      NodeIsOutside(d, v, x);
    }
    OutsideBoth(pi, tau, d, v.body);
    if v.cls.Some? {
      ClassedIsMovable(d.graph, v);
    } else {
      NotMovable(d, v.id);
    }
  }

  lemma NotMovable(d: Doc, x: Name)
    requires OnlyInEdges(d) && OutsideEdges(d, x)
    ensures x !in Movable(d.graph)
  {
    hide OutsideEdges;
  }

  lemma RenamesWhole(ids: set<Name>, d: Doc, newIds: set<Name>, e: Doc, pi: map<Name, Name>, tau: map<Name, Name>)
    requires OneRenaming(pi, tau, ids, d, newIds, e) && OnlyInEdges(d)
    ensures Whole(Both(pi, tau), d, e)
  {
    hide Matches, SameClasses, OutsideEdges, Names, RenameBy, Movable, OnlyInEdges, VariantNode, WholeNode, Mapped,
        Both, Injective, Onto, Into;
    assert tau.Keys == Movable(d.graph);
    forall x | x in Names(d.plain) || x in Names(d.graph.rest) ensures OutsideEdges(d, x) {
      ValueIsOutside(d, x);
    }
    OutsideBoth(pi, tau, d, d.plain);
    OutsideBoth(pi, tau, d, d.graph.rest);
    forall v | v in d.graph.nodes ensures VariantNode(Along(pi), Along(tau))(v) == WholeNode(Both(pi, tau))(v) {
      NodeBoth(ids, pi, tau, d, v);
    }
    MappedSame(VariantNode(Along(pi), Along(tau)), WholeNode(Both(pi, tau)), d.graph.nodes);
  }

  lemma ValueIsOutside(d: Doc, x: Name)
    requires x in Names(d.plain) || x in Names(d.graph.rest)
    ensures OutsideEdges(d, x)
  {
    hide Names;
  }

  /** A name outside the edges that the renaming spares is still outside the edges. */
  lemma StaysOutside(ids: set<Name>, d: Doc, newIds: set<Name>, e: Doc, pi: map<Name, Name>, tau: map<Name, Name>,
        x: Name)
    requires OneRenaming(pi, tau, ids, d, newIds, e) && OutsideEdges(d, x) && x !in pi
    ensures OutsideEdges(e, x)
  {
    hide Matches, Bijection, SameClasses, Names, RenameBy, Movable, VariantNode, Mapped, Both, NodeNames;
    NamesRenamed(Along(pi), d.plain, x);
    NamesRenamed(Along(pi), d.graph.rest, x);
    if v :| v in d.graph.nodes && x in NodeNames(v) {
      var w := VariantNode(Along(pi), Along(tau))(v);
      InMapped(VariantNode(Along(pi), Along(tau)), d.graph.nodes, w);
      assert w in multiset(e.graph.nodes);
      VariantShows(pi, tau, v, x);
    }
  }

  lemma VariantShows(pi: map<Name, Name>, tau: map<Name, Name>, v: GraphNode, x: Name)
    requires x in NodeNames(v) && x !in pi
    ensures x in NodeNames(VariantNode(Along(pi), Along(tau))(v))
  {
    NamesRenamed(Along(pi), v.body, x);
    hide Names, RenameBy;
  }

  lemma SparedShows(ids: set<Name>, d: Doc, m: map<Name, Name>, s: map<Name, Name>, f: Form, x: Name)
    requires FormOf(ids, d, m, s, f) && (OutsideEdges(d, x) || InEdges(d, x)) && x !in ids && x !in Movable(d.graph)
    ensures x.Plain? && InForm(f, x) && (InEdges(d, x) ==> InFormEdges(f, x))
  {
    FormShows(ids, d, m, s, f, x);
    hide GraphBy, RenameBy, InForm, OutsideEdges, InEdges, Names, Along;
    OccursPlain(ids, d, m, s, x);
    NumberedName(ids, d, m, s, x);
    FormNumbersOf(ids, d, m, s);
    assert x !in s;
    if InEdges(d, x) {
      EdgeSpared(ids, d, m, s, f, x);
    }
  }

  lemma EdgeSpared(ids: set<Name>, d: Doc, m: map<Name, Name>, s: map<Name, Name>, f: Form, x: Name)
    requires FormOf(ids, d, m, s, f) && InEdges(d, x) && Along(m)(Along(s)(x)) == x
    ensures InFormEdges(f, x)
  {
    EdgesShow(m, s, d.graph.edges, x);
    hide Names, Numbered, RenameBy, Along, Movable, EdgeBy, Mapped;
  }

  /** Within the bound all interchangeable nodes are numbered, beyond it none is, in either state. */
  ghost predicate NodesNumbered(p: Policy, d: Doc, s: map<Name, Name>) {
    s.Keys == if p.small(ClassLabels(d.graph.nodes)) then Movable(d.graph) else {}
  }

  lemma SameBound(p: Policy, ids: set<Name>, d: Doc, newIds: set<Name>, e: Doc, pi: map<Name, Name>, tau: map<Name,
        Name>)
    requires OneRenaming(pi, tau, ids, d, newIds, e)
    ensures p.small(ClassLabels(d.graph.nodes)) <==> p.small(ClassLabels(e.graph.nodes))
  {
    hide Matches, Bijection, SameClasses, RenameBy, ClassLabels, VariantNode, Mapped;
    LabelsAlike(Along(pi), Along(tau), d.graph.nodes, e.graph.nodes);
  }

  /** If no node is numbered, the nodes keep their names. */
  lemma UnnumberedStay(ids: set<Name>, d: Doc, m: map<Name, Name>, s: map<Name, Name>,
                       newIds: set<Name>, e: Doc, n: map<Name, Name>, t: map<Name, Name>, pi: map<Name, Name>,
                       tau: map<Name, Name>, x: Name)
    requires Paired(ids, d, m, s, newIds, e, n, t, pi, tau) && s.Keys == {} && t.Keys == {} && x in Movable(e.graph)
    ensures x in Movable(d.graph)
  {
    hide Numbered, Matches, SameClasses, Movable, Injective;
    assert Hit(tau, x);
    var z :| z in tau && tau[z] == x;
    FormNumbersOf(ids, d, m, s);
    FormNumbersOf(newIds, e, n, t);
    MovableIsPlain(ids, d, m, s, z);
    MovableIsPlain(newIds, e, n, t, x);
    NumberedName(ids, d, m, s, z);
    NumberedName(newIds, e, n, t, x);
    assert Shown(n, t, tau[z]) == Shown(m, s, z);
  }

  /** A name that is neither an identity nor an interchangeable node is neither in the other state. */
  lemma SparedThere(p: Policy, ids: set<Name>, d: Doc, m: map<Name, Name>, s: map<Name, Name>,
                    newIds: set<Name>, e: Doc, n: map<Name, Name>, t: map<Name, Name>, f: Form,
                    pi: map<Name, Name>, tau: map<Name, Name>, x: Name)
    requires FormOf(ids, d, m, s, f) && FormOf(newIds, e, n, t, f) && NodesNumbered(p, d, s) && NodesNumbered(p, e, t)
    requires Paired(ids, d, m, s, newIds, e, n, t, pi, tau) && OneRenaming(pi, tau, ids, d, newIds, e) && OnlyInEdges(e)
    requires Occurs(d, x) && x !in ids && x !in Movable(d.graph)
    ensures x !in newIds && x !in Movable(e.graph)
  {
    hide FormOf, OutsideEdges, InEdges, Movable, InForm, InFormEdges, OneRenaming, OnlyInEdges, ClassLabels, Paired;
    SparedShows(ids, d, m, s, f, x);
    PlainShows(newIds, e, n, t, f, x);
    if OutsideEdges(d, x) {
      NotPaired(ids, d, newIds, e, pi, tau, x);
      StaysOutside(ids, d, newIds, e, pi, tau, x);
      NotMovable(e, x);
    } else {
      PlainShowsInEdges(newIds, e, n, t, f, x);
      SameBound(p, ids, d, newIds, e, pi, tau);
      if !p.small(ClassLabels(e.graph.nodes)) && x in Movable(e.graph) {
        UnnumberedStay(ids, d, m, s, newIds, e, n, t, pi, tau, x);
      }
    }
  }

  lemma NotPaired(ids: set<Name>, d: Doc, newIds: set<Name>, e: Doc, pi: map<Name, Name>, tau: map<Name, Name>, x: Name)
    requires OneRenaming(pi, tau, ids, d, newIds, e) && x !in ids
    ensures x !in pi
  {
    hide RenameBy, OutsideEdges, InEdges, Movable, VariantNode, Mapped, SameClasses, Bijection;
  }

  /** What a renaming does to the names of a state: it takes each to one of the same kind, and spares
      the rest. */
  ghost predicate KindKept(rho: Name -> Name, ids: set<Name>, d: Doc, newIds: set<Name>, e: Doc) {
    && (forall x :: Occurs(d, x) && x in ids ==> rho(x) in newIds)
    && (forall x, c :: Member(d.graph, x, c) ==> Member(e.graph, rho(x), c))
    && (forall x :: Occurs(d, x) && x !in ids && x !in Movable(d.graph) ==> rho(x) == x)
  }

  lemma BothKeepsKind(ids: set<Name>, d: Doc, newIds: set<Name>, e: Doc, pi: map<Name, Name>, tau: map<Name, Name>)
    requires OneRenaming(pi, tau, ids, d, newIds, e) && ids !! Movable(d.graph)
    ensures KindKept(Both(pi, tau), ids, d, newIds, e)
  {
    hide RenameBy, OutsideEdges, InEdges, Movable, VariantNode, Mapped, Names, Member;
    forall x, c | Member(d.graph, x, c) ensures x in tau {
      MemberIs(d.graph, x, c);
    }
  }

  ghost predicate TakesBack(back: Name -> Name, rho: Name -> Name, d: Doc) {
    forall x :: Occurs(d, x) ==> back(rho(x)) == x
  }

  lemma BothUndone(p: Policy, ids: set<Name>, d: Doc, m: map<Name, Name>, s: map<Name, Name>,
                   newIds: set<Name>, e: Doc, n: map<Name, Name>, t: map<Name, Name>, f: Form,
                   pi: map<Name, Name>, tau: map<Name, Name>, piBack: map<Name, Name>, tauBack: map<Name, Name>)
    requires FormOf(ids, d, m, s, f) && FormOf(newIds, e, n, t, f) && NodesNumbered(p, d, s) && NodesNumbered(p, e, t)
    requires Paired(ids, d, m, s, newIds, e, n, t, pi, tau) && OneRenaming(pi, tau, ids, d, newIds, e) && OnlyInEdges(e)
    requires Paired(newIds, e, n, t, ids, d, m, s, piBack, tauBack) && Undoes(pi, piBack) && Undoes(tau, tauBack)
    ensures TakesBack(Both(piBack, tauBack), Both(pi, tau), d)
  {
    hide FormOf, OutsideEdges, InEdges, Movable, OneRenaming, OnlyInEdges, NodesNumbered, Matches, SameClasses,
        Numbered, SameShown, SameNumber, Injective;
    FormNumbersOf(ids, d, m, s);
    FormNumbersOf(newIds, e, n, t);
    forall x | Occurs(d, x) ensures Both(piBack, tauBack)(Both(pi, tau)(x)) == x {
      if x in tau {
      } else if x in ids {
        UsedIsPaired(ids, d, newIds, e, pi, x);
        PairedIsId(ids, d, newIds, e, pi, x);
      } else {
        SparedThere(p, ids, d, m, s, newIds, e, n, t, f, pi, tau, x);
        NotPaired(ids, d, newIds, e, pi, tau, x);
        BackIsId(ids, d, newIds, e, piBack, x);
      }
    }
  }

  lemma PairedIsId(ids: set<Name>, d: Doc, newIds: set<Name>, e: Doc, pi: map<Name, Name>, x: Name)
    requires Matches(ids, d, newIds, e, pi) && x in pi
    ensures pi[x] in newIds
  {
    hide OutsideEdges, InEdges;
  }

  lemma BackIsId(ids: set<Name>, d: Doc, newIds: set<Name>, e: Doc, piBack: map<Name, Name>, x: Name)
    requires Matches(newIds, e, ids, d, piBack) && x !in newIds
    ensures x !in piBack
  {
    hide OutsideEdges, InEdges;
  }

  /** Where interchangeable node ids are referenced only from edges, equal forms mean that a single
      renaming, undone by another, turns one state into the other. */
  lemma EqualFormsAreOneRenaming(p: Policy, ids: set<Name>, d: Doc, newIds: set<Name>, e: Doc, f: Form)
    returns (rho: Name -> Name, back: Name -> Name)
    requires SoundPolicy(p) && Input(ids, d) && Input(newIds, e) && OnlyInEdges(d) && OnlyInEdges(e)
    requires Canonical(p, ids, d, f) && Canonical(p, newIds, e, f)
    ensures Whole(rho, d, e) && KindKept(rho, ids, d, newIds, e) && TakesBack(back, rho, d)
    ensures Whole(back, e, d) && KindKept(back, newIds, e, ids, d) && TakesBack(rho, back, e)
  {
    hide *;
    var m, s := NumbersOf(p, ids, d, f);
    var n, t := NumbersOf(p, newIds, e, f);
    FormFrom(ids, d, m, s, f);
    FormFrom(newIds, e, n, t, f);
    NumberedAs(p, d, s);
    NumberedAs(p, e, t);
    var pi, tau := PairUp(ids, d, m, s, newIds, e, n, t, f);
    var piBack, tauBack := PairUp(newIds, e, n, t, ids, d, m, s, f);
    PairedUndo(ids, d, m, s, newIds, e, n, t, pi, tau, piBack, tauBack);
    PairedUndo(newIds, e, n, t, ids, d, m, s, piBack, tauBack, pi, tau);
    rho, back := Both(pi, tau), Both(piBack, tauBack);
    RenamesWhole(ids, d, newIds, e, pi, tau);
    RenamesWhole(newIds, e, ids, d, piBack, tauBack);
    InputApart(ids, d);
    InputApart(newIds, e);
    BothKeepsKind(ids, d, newIds, e, pi, tau);
    BothKeepsKind(newIds, e, ids, d, piBack, tauBack);
    BothUndone(p, ids, d, m, s, newIds, e, n, t, f, pi, tau, piBack, tauBack);
    BothUndone(p, newIds, e, n, t, ids, d, m, s, f, piBack, tauBack, pi, tau);
  }

  lemma NumberedAs(p: Policy, d: Doc, s: map<Name, Name>)
    requires s.Keys == if p.small(ClassLabels(d.graph.nodes)) then Movable(d.graph) else {}
    ensures NodesNumbered(p, d, s)
  {}

  lemma InputApart(ids: set<Name>, d: Doc)
    requires Input(ids, d)
    ensures ids !! Movable(d.graph)
  {
    hide Names, Movable;
  }
}

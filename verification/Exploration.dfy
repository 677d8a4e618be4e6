/** The canonical search as a transition system on snapshots: what interning a state, expanding a
    record and popping the queue do. The engine's methods are proved equal to these functions. */
module Exploration {
  import opened Actions
  import opened Grammars

  datatype Phase = Queued | Expanded | TerminalSeen

  /** The canonical-state record kept for one canonical form. */
  datatype Node<+S> = Node(
    state: LazyState<S>,
    path: seq<Action>,
    parents: seq<nat>,
    depthMinimum: nat,
    depthMaximum: nat,
    phase: Phase)

  datatype Disposition = NewState | ExactTransposition | AlphaEquivalence | Symmetry

  /** Edge ids are digests of content that includes the edge's ordinal; the ordinal stands for them. */
  datatype Edge<+K> = Edge(id: nat, parent: Option<K>, child: K, action: Action, depth: nat, disposition: Disposition)

  /** A queued record: the path that discovered it and the state before each action of that path. */
  datatype Work<+S, +K> = Work(key: K, path: seq<Action>, states: seq<Option<LazyState<S>>>)

  datatype Counts = Counts(
    raw: nat, unique: nat, exact: nat, alpha: nat, symmetry: nat, por: nat, dependency: nat, constructed: nat)

  datatype Snapshot<S, !K> = Snapshot(
    view: map<K, Node<S>>,
    queue: seq<Work<S, K>>,
    edges: seq<Edge<K>>,
    terminals: set<K>,
    counts: Counts)

  /** Everything the caller chooses: whether and where partial-order reduction applies, an arbitrary
      frontier policy, the order on encoded paths, and the budgets. `interrupted` says before which
      pops the clock or the memory ceiling stops the run. */
  datatype Config<!S> = Config(
    por: bool,
    porDecider: (LazyState<S>, seq<Action>, nat) -> bool,
    score: (LazyState<S>, seq<LazyState<S>>, nat, seq<Action>) -> seq<real>,
    smallerPath: (seq<Action>, seq<Action>) -> bool,
    nodeBudget: nat,
    workBudget: Option<nat>,
    interrupted: nat -> bool)

  // ---------- interning ----------

  function Mechanism<S(!new), K(!new)>(g: Grammar<S, K>, kept: LazyState<S>, s: LazyState<S>): Disposition {
    if g.envelope(kept).raw == g.envelope(s).raw then ExactTransposition
    else if g.envelope(s).symmetryPermutations != 0 then Symmetry
    else if g.envelope(s).alphaRenames != 0 then AlphaEquivalence
    else ExactTransposition
  }

  function Min(a: nat, b: nat): nat { if a <= b then a else b }

  function Max(a: nat, b: nat): nat { if a <= b then b else a }

  function Merged<S>(smaller: (seq<Action>, seq<Action>) -> bool, node: Node<S>,
                     depth: nat, path: seq<Action>, edge: nat): Node<S> {
    node.(parents := if edge in node.parents then node.parents else node.parents + [edge],
          depthMinimum := Min(node.depthMinimum, depth),
          depthMaximum := Max(node.depthMaximum, depth),
          path := if smaller(path, node.path) then path else node.path)
  }

  /** The record table after interning `s`, and how the discovery was classified. */
  function Interned<S(!new), K(!new, ==)>(
      g: Grammar<S, K>, smaller: (seq<Action>, seq<Action>) -> bool, view: map<K, Node<S>>,
      s: LazyState<S>, depth: nat, path: seq<Action>, edge: nat): (map<K, Node<S>>, Disposition)
  {
    var k := Canon(g, s);
    if k in view then
      (view[k := Merged(smaller, view[k], depth, path, edge)], Mechanism(g, view[k].state, s))
    else
      (view[k := Node(s, path, [edge], depth, depth, Queued)], NewState)
  }

  function Tally(c: Counts, d: Disposition): Counts {
    match d
    case NewState => c.(unique := c.unique + 1)
    case ExactTransposition => c.(exact := c.exact + 1)
    case AlphaEquivalence => c.(alpha := c.alpha + 1)
    case Symmetry => c.(symmetry := c.symmetry + 1)
  }

  function AddState<S(!new), K(!new, ==)>(
      g: Grammar<S, K>, cfg: Config<S>, sn: Snapshot<S, K>, s: LazyState<S>, parent: Option<K>,
      depth: nat, path: seq<Action>, states: seq<Option<LazyState<S>>>): (r: Snapshot<S, K>)
    ensures r.view.Keys == sn.view.Keys + {Canon(g, s)}
  {
    var k, id := Canon(g, s), |sn.edges|;
    var (view, d) := Interned(g, cfg.smallerPath, sn.view, s, depth, path, id);
    sn.(view := view,
        edges := sn.edges + [Edge(id, parent, k, s.action, depth, d)],
        counts := Tally(sn.counts, d),
        queue := if d.NewState? then sn.queue + [Work(k, path, states)] else sn.queue)
  }

  // ---------- starting ----------

  function AddInitial<S(!new), K(!new, ==)>(
      g: Grammar<S, K>, cfg: Config<S>, sn: Snapshot<S, K>, states: seq<LazyState<S>>): Snapshot<S, K>
  {
    if states == [] then sn
    else
      var n := |states| - 1;
      AddState(g, cfg, AddInitial(g, cfg, sn, states[..n]), states[n], None, 0, [states[n].action], [None])
  }

  function Blank<S, K>(initial: nat): Snapshot<S, K> {
    Snapshot(map[], [], [], {}, Counts(initial, 0, 0, 0, 0, 0, 0, initial))
  }

  function Start<S(!new), K(!new, ==)>(g: Grammar<S, K>, cfg: Config<S>): Snapshot<S, K> {
    AddInitial(g, cfg, Blank(|g.initial|), g.initial)
  }

  // ---------- expanding ----------

  /** Both orders of `a` and `b` are legal after `prev` and lead to the same canonical state. */
  predicate Commutes<S(!new), K(!new, ==)>(g: Grammar<S, K>, prev: Option<LazyState<S>>, a: Action, b: Action) {
    && StaticScreen(a, b).Passed?
    && var l, r := g.apply(prev, a), g.apply(prev, b);
       && l.Some? && r.Some?
       && var lr, rl := g.apply(l, b), g.apply(r, a);
          lr.Some? && rl.Some? && Alike(g, lr.value, rl.value)
  }

  /** The order `last` then `b` is redundant: `b` sorts first and the two commute before `last`. */
  predicate Redundant<S(!new), K(!new, ==)>(g: Grammar<S, K>, prev: Option<LazyState<S>>, last: Action, b: Action) {
    b.order < last.order && Commutes(g, prev, last, b)
  }

  /** A skipped order is made up for by the other one, unless that passes through a terminal state. */
  predicate Excused<S(!new), K(!new, ==)>(g: Grammar<S, K>, prev: Option<LazyState<S>>, last: Action, b: Action) {
    Redundant(g, prev, last, b) && !g.apply(prev, b).value.terminal
  }

  /** `last` leads on from `prev`: neither side of the step is terminal. Only after such a step is a
      record expanded, and only then can anything be skipped. */
  predicate GoesOn<S(!new), K(!new)>(g: Grammar<S, K>, prev: Option<LazyState<S>>, last: Action) {
    && (prev.Some? ==> !prev.value.terminal)
    && g.apply(prev, last).Some? && !g.apply(prev, last).value.terminal
  }

  /** What the reduction, and only the reduction, needs of the grammar: whatever it may skip is
      excused. The verifier itself never looks at `terminal`. */
  ghost predicate SkipsAreExcused<S(!new), K(!new)>(g: Grammar<S, K>) {
    forall prev, last, b {:trigger Redundant(g, prev, last, b)} ::
      && MadeOrRoot(g, prev) && InAlphabet(g, last) && InAlphabet(g, b)
      && GoesOn(g, prev, last) && Redundant(g, prev, last, b) ==>
        Excused(g, prev, last, b)
  }

  datatype Filtered = Filtered(actions: seq<Action>, por: nat, dependency: nat)

  /** The actions that survive the dependency guard and, where it applies, the reduction. */
  function Viable<S(!new), K(!new, ==)>(g: Grammar<S, K>, w: Work<S, K>, por: bool, actions: seq<Action>): Filtered
    requires w.path != [] && w.states != []
  {
    if actions == [] then Filtered([], 0, 0)
    else
      var n := |actions| - 1;
      var f, a := Viable(g, w, por, actions[..n]), actions[n];
      if Blocked(a, Keys(w.path)) then f.(dependency := f.dependency + 1)
      else if por && Redundant(g, w.states[|w.states| - 1], w.path[|w.path| - 1], a) then f.(por := f.por + 1)
      else f.(actions := f.actions + [a])
  }

  function Realized<S(!new), K(!new)>(g: Grammar<S, K>, s: LazyState<S>, actions: seq<Action>): seq<LazyState<S>> {
    if actions == [] then []
    else
      var n := |actions| - 1;
      var child := g.apply(Some(s), actions[n]);
      Realized(g, s, actions[..n]) + if child.Some? then [child.value] else []
  }

  /** Place a child after every child that scores at least as high, so equal scores keep their order. */
  function Placed<T>(ranked: seq<(T, real)>, child: (T, real)): seq<(T, real)> {
    if ranked == [] || ranked[|ranked| - 1].1 >= child.1 then ranked + [child]
    else Placed(ranked[..|ranked| - 1], child) + [ranked[|ranked| - 1]]
  }

  function RankedPairs<T>(children: seq<T>, scores: seq<real>): seq<(T, real)>
    requires |children| == |scores|
  {
    if children == [] then []
    else
      var n := |children| - 1;
      Placed(RankedPairs(children[..n], scores[..n]), (children[n], scores[n]))
  }

  /** The frontier in the policy's order: stable, by descending score. */
  function Ranked<T>(children: seq<T>, scores: seq<real>): (r: seq<T>)
    requires |children| == |scores|
  {
    var pairs := RankedPairs(children, scores);
    seq(|pairs|, i requires 0 <= i < |pairs| => pairs[i].0)
  }

  function AddChildren<S(!new), K(!new, ==)>(
      g: Grammar<S, K>, cfg: Config<S>, sn: Snapshot<S, K>, w: Work<S, K>, s: LazyState<S>,
      depth: nat, children: seq<LazyState<S>>): (r: Snapshot<S, K>)
    ensures r.view.Keys >= sn.view.Keys
  {
    if children == [] then sn
    else
      var n := |children| - 1;
      var child := children[n];
      AddState(g, cfg, AddChildren(g, cfg, sn, w, s, depth, children[..n]), child, Some(w.key),
               depth, w.path + [child.action], w.states + [Some(s)])
  }

  function Children<S(!new), K(!new, ==)>(g: Grammar<S, K>, cfg: Config<S>, node: Node<S>, w: Work<S,
        K>): seq<LazyState<S>>
    requires w.path != [] && w.states != []
  {
    Realized(g, node.state, Viable(g, w, AppliesPor(g, cfg, node), g.enabled(node.state)).actions)
  }

  predicate AppliesPor<S(!new), K(!new)>(g: Grammar<S, K>, cfg: Config<S>, node: Node<S>) {
    cfg.por && cfg.porDecider(node.state, g.enabled(node.state), node.depthMinimum)
  }

  function Scores<S(!new), K(!new, ==)>(g: Grammar<S, K>, cfg: Config<S>, node: Node<S>, w: Work<S, K>): seq<real>
    requires w.path != [] && w.states != []
  {
    cfg.score(node.state, Children(g, cfg, node, w), node.depthMinimum + 1, w.path)
  }

  function SetPhase<S, K(!new)>(view: map<K, Node<S>>, k: K, phase: Phase): map<K, Node<S>>
    requires k in view
  {
    view[k := view[k].(phase := phase)]
  }

  /** The counters after the frontier of a record has been filtered and realised. */
  function Charged<S(!new), K(!new, ==)>(g: Grammar<S, K>, cfg: Config<S>, c: Counts, node: Node<S>, w: Work<S,
        K>): Counts
    requires w.path != [] && w.states != []
  {
    var f := Viable(g, w, AppliesPor(g, cfg, node), g.enabled(node.state));
    c.(raw := c.raw + |g.enabled(node.state)|, por := c.por + f.por, dependency := c.dependency + f.dependency,
       constructed := c.constructed + |Children(g, cfg, node, w)|)
  }

  /** Expand the record of `w`. `None` is the source's error for a policy that does not return
      exactly one score per child. */
  function Expand<S(!new), K(!new, ==)>(g: Grammar<S, K>, cfg: Config<S>, sn: Snapshot<S, K>, w: Work<S,
        K>): Option<Snapshot<S, K>>
    requires w.path != [] && w.states != [] && w.key in sn.view
  {
    var node := sn.view[w.key];
    var children, scores := Children(g, cfg, node, w), Scores(g, cfg, node, w);
    if |scores| != |children| then None
    else
      var grown := AddChildren(g, cfg, sn.(counts := Charged(g, cfg, sn.counts, node, w)), w, node.state,
                               node.depthMinimum + 1, Ranked(children, scores));
      Some(grown.(view := SetPhase(grown.view, w.key, Expanded)))
  }

  /** One pop of the queue. */
  function Pop<S(!new), K(!new, ==)>(g: Grammar<S, K>, cfg: Config<S>, sn: Snapshot<S, K>): Option<Snapshot<S, K>>
    requires sn.queue != [] && sn.queue[0].path != [] && sn.queue[0].states != []
    requires sn.queue[0].key in sn.view
  {
    var w := sn.queue[0];
    var node, rest := sn.view[w.key], sn.(queue := sn.queue[1..]);
    if node.phase.Expanded? then Some(rest)
    else if node.state.terminal then
      Some(rest.(view := SetPhase(sn.view, w.key, TerminalSeen), terminals := sn.terminals + {w.key}))
    else
      Expand(g, cfg, rest, w)
  }

  // ---------- runs ----------

  /** A budget is spent, or the clock or the memory ceiling strikes, before pop number `pops`. */
  predicate Spent<S, K>(cfg: Config<S>, sn: Snapshot<S, K>, pops: nat) {
    || sn.counts.unique > cfg.nodeBudget
    || (cfg.workBudget.Some? && sn.counts.constructed >= cfg.workBudget.value)
    || cfg.interrupted(pops)
  }

  /** One pop of a well-formed queue head takes `before` to `after`. */
  predicate Popped<S(!new, ==), K(!new)>(
      g: Grammar<S, K>, cfg: Config<S>, before: Snapshot<S, K>, after: Snapshot<S, K>)
  {
    && before.queue != [] && before.queue[0].path != [] && before.queue[0].states != []
    && before.queue[0].key in before.view && Pop(g, cfg, before) == Some(after)
  }

  /** `n` pops, none of them over budget, lead from `first` to `last`. */
  ghost predicate Ran<S(!new), K(!new)>(
      g: Grammar<S, K>, cfg: Config<S>, first: Snapshot<S, K>, n: nat, last: Snapshot<S, K>)
  {
    if n == 0 then first == last
    else exists mid :: Ran(g, cfg, first, n - 1, mid) && !Spent(cfg, mid, n - 1) && Popped(g, cfg, mid, last)
  }
}

/** Why the search loses nothing: the invariant of the record table and the argument that every
    edge the reduction skips leads to a form that is discovered anyway. */
module Soundness {
  import opened Actions
  import opened Grammars
  import opened Exploration

  // ---------- paths and the ledger ----------

  lemma PathAppend<S(!new), K(!new)>(g: Grammar<S, K>, path: seq<Action>, s: LazyState<S>, a: Action, t: LazyState<S>)
    requires PathTo(g, path, s) && Move(g, path, s, a, t)
    ensures PathTo(g, path + [a], t)
  {
    assert (path + [a])[..|path|] == path;
    assert PathOnward(g, path, a, t);
  }

  lemma {:induction false} LedgerOfPath<S(!new), K(!new)>(g: Grammar<S, K>, ledger: Ledger<K>, path: seq<Action>,
        s: LazyState<S>)
    requires Lawful(g, ledger) && PathTo(g, path, s)
    ensures Keys(path) * ledger.named == ledger.applied(Canon(g, s))
    decreases |path|
  {
    var n := |path| - 1;
    assert path == path[..n] + [path[n]];
    KeysOfAppend(path[..n], path[n]);
    if n == 0 {
      assert Keys([]) == {};
    } else {
      assert PathOnward(g, path[..n], path[n], s);
      var p :| PathTo(g, path[..n], p) && Move(g, path[..n], p, path[n], s);
      PathIsMade(g, path[..n], p);
      assert InAlphabet(g, path[n]);
      LedgerOfPath(g, ledger, path[..n], p);
    }
  }

  /** Every state a path leads to is one the grammar makes. */
  lemma {:induction false} PathIsMade<S(!new), K(!new)>(g: Grammar<S, K>, path: seq<Action>, s: LazyState<S>)
    requires LegalIsEnabled(g) && PathTo(g, path, s)
    ensures g.made(s)
    decreases |path|
  {
    if |path| > 1 {
      var n := |path| - 1;
      assert PathOnward(g, path[..n], path[n], s);
      var p :| PathTo(g, path[..n], p) && Move(g, path[..n], p, path[n], s);
      PathIsMade(g, path[..n], p);
      assert InAlphabet(g, path[n]);
    }
  }

  /** Along every path an action comes after everything it needs and after nothing it conflicts with. Only
      the action of the initial state is exempt. */
  lemma {:induction false} PathHeedsTheGuard<S(!new), K(!new)>(g: Grammar<S, K>, path: seq<Action>, s: LazyState<S>,
        i: nat)
    requires PathTo(g, path, s) && 0 < i < |path|
    ensures forall need <- path[i].footprint.needs :: exists j :: 0 <= j < i && path[j].key == need
    ensures forall j :: 0 <= j < i ==> path[j].key !in path[i].footprint.conflicts
    decreases |path|
  {
    var n := |path| - 1;
    assert PathOnward(g, path[..n], path[n], s);
    var p :| PathTo(g, path[..n], p) && Move(g, path[..n], p, path[n], s);
    if i < n {
      PathHeedsTheGuard(g, path[..n], p, i);
    } else {
      NotBlocked(path[n], path[..n]);
    }
  }

  lemma NotBlocked(a: Action, history: seq<Action>)
    requires !Blocked(a, Keys(history))
    ensures forall need <- a.footprint.needs :: exists j :: 0 <= j < |history| && history[j].key == need
    ensures forall j :: 0 <= j < |history| ==> history[j].key !in a.footprint.conflicts
  {
    forall need | need in a.footprint.needs ensures exists j :: 0 <= j < |history| && history[j].key == need {
      assert need in Keys(history);
    }
    forall j | 0 <= j < |history| ensures history[j].key !in a.footprint.conflicts {
      assert history[j] in history && history[j].key in Keys(history);
      assert history[j].key !in a.footprint.conflicts * Keys(history);
    }
  }

  /** `Move` with the applied keys read off the canonical form instead of a history. */
  predicate Step<S(!new, ==), K(!new)>(g: Grammar<S, K>, ledger: Ledger<K>, s: LazyState<S>, a: Action,
        t: LazyState<S>) {
    && g.made(s) && !s.terminal && a in g.enabled(s)
    && !Blocked(a, ledger.applied(Canon(g, s))) && g.apply(Some(s), a) == Some(t)
  }

  lemma BlockedByLedger<S(!new), K(!new)>(g: Grammar<S, K>, ledger: Ledger<K>, s: LazyState<S>, a: Action,
        keys: set<string>)
    requires Lawful(g, ledger) && g.made(s) && a in g.enabled(s)
    requires keys * ledger.named == ledger.applied(Canon(g, s))
    ensures Blocked(a, keys) <==> Blocked(a, ledger.applied(Canon(g, s)))
  {
    assert InAlphabet(g, a);
    assert a.footprint.conflicts * keys == a.footprint.conflicts * ledger.applied(Canon(g, s));
  }

  /** A step from any representative of a form that a path leads to extends that path. */
  lemma LeadsOn<S(!new), K(!new)>(g: Grammar<S, K>, ledger: Ledger<K>, path: seq<Action>, s: LazyState<S>, a: Action,
        t: LazyState<S>)
    requires Lawful(g, ledger) && Leads(g, path, Canon(g, s)) && Step(g, ledger, s, a, t)
    ensures exists p, u :: PathTo(g, path, p) && Alike(g, p, s) && Move(g, path, p, a, u) && Alike(g, u, t)
    ensures Leads(g, path + [a], Canon(g, t))
  {
    var p :| PathTo(g, path, p) && Canon(g, p) == Canon(g, s);
    PathIsMade(g, path, p);
    assert Alike(g, p, s) && InAlphabet(g, a);
    assert AlikeResults(g, g.apply(Some(p), a), g.apply(Some(s), a));
    var u := g.apply(Some(p), a).value;
    LedgerOfPath(g, ledger, path, p);
    BlockedByLedger(g, ledger, p, a, Keys(path));
    PathAppend(g, path, p, a, u);
  }

  /** Conversely the last action of a longer path is a step from the form its prefix leads to. */
  lemma LastStep<S(!new), K(!new)>(g: Grammar<S, K>, ledger: Ledger<K>, path: seq<Action>, s: LazyState<S>)
        returns (p: LazyState<S>)
    requires Lawful(g, ledger) && PathTo(g, path, s) && |path| > 1
    ensures PathTo(g, path[..|path| - 1], p) && Step(g, ledger, p, path[|path| - 1], s)
  {
    var n := |path| - 1;
    assert PathOnward(g, path[..n], path[n], s);
    p :| PathTo(g, path[..n], p) && Move(g, path[..n], p, path[n], s);
    PathIsMade(g, path[..n], p);
    LedgerOfPath(g, ledger, path[..n], p);
    BlockedByLedger(g, ledger, p, path[n], Keys(path[..n]));
  }

  /** Alike states take alike steps. */
  lemma StepAlike<S(!new), K(!new)>(g: Grammar<S, K>, ledger: Ledger<K>, s: LazyState<S>, s': LazyState<S>, a: Action,
        t: LazyState<S>)
    returns (t': LazyState<S>)
    requires Lawful(g, ledger) && Alike(g, s, s') && g.made(s') && Step(g, ledger, s, a, t)
    ensures Step(g, ledger, s', a, t') && Alike(g, t, t')
  {
    assert InAlphabet(g, a);
    assert AlikeResults(g, g.apply(Some(s), a), g.apply(Some(s'), a));
    t' := g.apply(Some(s'), a).value;
  }

  // ---------- the invariant ----------

  /** How recorded depths relate to path lengths. `Fifo(h)`: every record has depth at most `h`, as
      holds while one uninterrupted run adds records of depth `h`. `Levelled`: the grammar gives
      every form one depth. `Loose`: nothing is claimed, as after resuming an arbitrary search; and
      if `lossy`, not even that skipped edges are excused. */
  datatype Discipline<!K(!new)> = Fifo(horizon: nat) | Levelled(level: K -> nat) | Loose(lossy: bool)

  predicate Lossy<K(!new)>(d: Discipline<K>) {
    d.Loose? && d.lossy
  }

  /** Every action raises the level by one, so all paths to a form have the same length. */
  ghost predicate Graded<S(!new), K(!new)>(g: Grammar<S, K>, level: K -> nat) {
    && (forall i <- g.initial :: level(Canon(g, i)) == 0)
    && (forall s, a {:trigger g.apply(Some(s), a)} :: g.apply(Some(s), a).Some? ==>
          level(Canon(g, g.apply(Some(s), a).value)) == level(Canon(g, s)) + 1)
  }

  ghost predicate DepthsOk<S(!new), K(!new)>(d: Discipline<K>, view: map<K, Node<S>>) {
    match d
    case Fifo(h) => forall k <- view :: view[k].depthMinimum <= h
    case Levelled(level) => forall k <- view :: view[k].depthMinimum == level(k)
    case Loose(_) => true
  }

  /** The last state and action of a discovery: what the reduction consults. */
  datatype Origin<+S> = Origin(prev: Option<LazyState<S>>, last: Action)

  function OriginOf<S, K>(w: Work<S, K>): Origin<S>
    requires w.path != [] && w.states != []
  {
    Origin(w.states[|w.states| - 1], w.path[|w.path| - 1])
  }

  /** `o` is a genuine discovery of `k` from a form in `done`; depths are tight unless `Loose`. */
  ghost predicate OriginOk<S(!new), K(!new)>(
      g: Grammar<S, K>, ledger: Ledger<K>, d: Discipline<K>, view: map<K, Node<S>>, done: set<K>, k: K, o: Origin<S>)
    requires k in view
  {
    match o.prev
    case None =>
      && (exists i <- g.initial :: i.action == o.last && Canon(g, i) == k)
    case Some(p) =>
      && Canon(g, p) in view && Canon(g, p) in done
      && (exists x :: Step(g, ledger, p, o.last, x) && Canon(g, x) == k)
      && (!d.Loose? ==> view[Canon(g, p)].depthMinimum + 1 <= view[k].depthMinimum)
  }

  ghost predicate WorkOk<S(!new), K(!new)>(
      g: Grammar<S, K>, ledger: Ledger<K>, d: Discipline<K>, view: map<K, Node<S>>, done: set<K>, w: Work<S, K>)
  {
    && w.path != [] && w.states != []
    && w.key in view && view[w.key].phase.Queued?
    && Leads(g, w.path, w.key)
    && OriginOk(g, ledger, d, view, done, w.key, OriginOf(w))
  }

  /** The form just before the end of a path has been expanded. */
  ghost predicate ParentDone<S(!new), K(!new)>(g: Grammar<S, K>, ledger: Ledger<K>, done: set<K>, path: seq<Action>,
        k: K) {
    |path| > 1 ==>
      exists p, x :: && Leads(g, path[..|path| - 1], Canon(g, p)) && Canon(g, p) in done
                     && Step(g, ledger, p, path[|path| - 1], x) && Canon(g, x) == k
  }

  ghost predicate NodeOk<S(!new), K(!new)>(g: Grammar<S, K>, ledger: Ledger<K>, done: set<K>, k: K, node: Node<S>) {
    && Canon(g, node.state) == k && g.made(node.state)
    && Leads(g, node.path, k)
    && ParentDone(g, ledger, done, node.path, k)
    && ReachedIn(g, node.depthMinimum, k)
    && (node.phase.TerminalSeen? ==> node.state.terminal)
    && (node.phase.Expanded? ==> !node.state.terminal)
  }

  /** The edge `b` to `x` out of `k` has been followed. */
  ghost predicate Followed<S(!new), K(!new)>(g: Grammar<S, K>, d: Discipline<K>, view: map<K, Node<S>>, k: K,
        x: LazyState<S>)
    requires k in view
  {
    Canon(g, x) in view && (!d.Loose? ==> view[Canon(g, x)].depthMinimum <= view[k].depthMinimum + 1)
  }

  /** Ghost bookkeeping for expanded forms: how each was discovered, and when it was expanded. */
  datatype Log<S, !K> = Log(origin: map<K, Origin<S>>, rank: map<K, nat>, clock: nat)

  /** Every edge out of `k` has been followed, unless the reduction skipped it with an excuse. */
  ghost predicate EdgesOk<S(!new), K(!new)>(
      g: Grammar<S, K>, ledger: Ledger<K>, d: Discipline<K>, view: map<K, Node<S>>, k: K, o: Origin<S>)
    requires k in view
  {
    !Lossy(d) ==>
      forall b, x :: Step(g, ledger, view[k].state, b, x) ==>
          Followed(g, d, view, k, x) || Excused(g, o.prev, o.last, b)
  }

  function RankOf<S, K(!new)>(log: Log<S, K>, k: K): nat {
    if k in log.rank then log.rank[k] else 0
  }

  ghost predicate ExpandedOk<S(!new), K(!new)>(
      g: Grammar<S, K>, ledger: Ledger<K>, d: Discipline<K>, view: map<K, Node<S>>, log: Log<S, K>, k: K)
    requires k in view
  {
    && k in log.origin && k in log.rank
    && OriginOk(g, ledger, d, view, log.rank.Keys, k, log.origin[k])
    && (log.origin[k].prev.Some? ==> var p := Canon(g, log.origin[k].prev.value);
          p in log.rank && log.rank[p] < log.rank[k])
    && EdgesOk(g, ledger, d, view, k, log.origin[k])
  }

  ghost predicate NodesOk<S(!new), K(!new)>(g: Grammar<S, K>, ledger: Ledger<K>, view: map<K, Node<S>>, done: set<K>) {
    forall k <- view :: NodeOk(g, ledger, done, k, view[k])
  }

  ghost predicate AllExpandedOk<S(!new), K(!new)>(
      g: Grammar<S, K>, ledger: Ledger<K>, d: Discipline<K>, view: map<K, Node<S>>, log: Log<S, K>)
  {
    forall k <- view :: view[k].phase.Expanded? ==> ExpandedOk(g, ledger, d, view, log, k)
  }

  ghost predicate LogOk<S(!new), K(!new)>(view: map<K, Node<S>>, log: Log<S, K>) {
    && (forall k <- view :: view[k].phase.Expanded? <==> k in log.rank)
    && log.rank.Keys <= view.Keys
    && (forall k <- log.rank :: log.rank[k] < log.clock)
  }

  /** The invariant of the record table. `done` is the set of expanded forms, to which the form
      being expanded is added while its children are interned. */
  ghost predicate Explored<S(!new), K(!new)>(
      g: Grammar<S, K>, ledger: Ledger<K>, d: Discipline<K>, view: map<K, Node<S>>, log: Log<S, K>, done: set<K>)
  {
    && DepthsOk(d, view) && (d.Levelled? ==> Graded(g, d.level))
    && NodesOk(g, ledger, view, done) && AllExpandedOk(g, ledger, d, view, log) && LogOk(view, log)
  }

  ghost predicate InitialIn<S(!new), K(!new)>(g: Grammar<S, K>, d: Discipline<K>, view: map<K, Node<S>>) {
    forall i <- g.initial :: Canon(g, i) in view && (!d.Loose? ==> view[Canon(g, i)].depthMinimum == 0)
  }

  // ---------- skipped edges are covered ----------

  ghost predicate Settled<S(!new), K(!new)>(view: map<K, Node<S>>) {
    forall k <- view :: view[k].phase.Expanded? || view[k].state.terminal
  }

  /** The reduction's witness, after a real predecessor: `prev` steps by `b` to `r`, and `last`
      leads from `r` to where the skipped edge would have gone. */
  lemma WitnessAfterState<S(!new), K(!new)>(
      g: Grammar<S, K>, ledger: Ledger<K>, p: LazyState<S>, last: Action, c: LazyState<S>, b: Action, x: LazyState<S>)
    returns (r: LazyState<S>, y: LazyState<S>)
    requires Lawful(g, ledger)
    requires Step(g, ledger, p, last, c) && Step(g, ledger, c, b, x) && Excused(g, Some(p), last, b)
    ensures Step(g, ledger, p, b, r) && Step(g, ledger, r, last, y) && Alike(g, x, y)
  {
    r := g.apply(Some(p), b).value;
    y := g.apply(Some(r), last).value;
    assert ledger.applied(Canon(g, p)) <= ledger.applied(Canon(g, c));
    assert b.footprint.conflicts * ledger.applied(Canon(g, p)) <= b.footprint.conflicts * ledger.applied(Canon(g, c));
    assert last.footprint.conflicts * ledger.applied(Canon(g, r)) == {} by {
      assert last.footprint.conflicts * ledger.applied(Canon(g, p)) == {};
      assert b.key !in last.footprint.conflicts;
    }
  }

  /** The same at the root: `b` has an initial state of its own. */
  lemma WitnessAtRoot<S(!new), K(!new)>(
      g: Grammar<S, K>, ledger: Ledger<K>, i: LazyState<S>, last: Action, b: Action, x: LazyState<S>)
    returns (r: LazyState<S>, y: LazyState<S>)
    requires Lawful(g, ledger) && i in g.initial && i.action == last
    requires Step(g, ledger, i, b, x) && Excused(g, None, last, b)
    ensures r in g.initial && Step(g, ledger, r, last, y) && Alike(g, x, y)
  {
    var l, t := g.apply(None, last).value, g.apply(None, b).value;
    var j :| j in g.initial && j.action == last && Alike(g, j, l);
    assert Alike(g, i, j);
    r :| r in g.initial && r.action == b && Alike(g, r, t);
    assert !r.terminal;
    assert Alike(g, i, l);
    assert AlikeResults(g, g.apply(Some(i), b), g.apply(Some(l), b));
    assert AlikeResults(g, g.apply(Some(r), last), g.apply(Some(t), last));
    y := g.apply(Some(r), last).value;
    assert ledger.applied(Canon(g, r)) == {b.key} * ledger.named;
    assert b.key !in last.footprint.conflicts;
    assert last.footprint.conflicts * ledger.applied(Canon(g, r)) == {};
  }

  /** The heart of the reduction. In a finished table every edge out of an expanded form leads into
      the table, even if it was skipped: the skipped edge is replaced by the same action at a form
      expanded earlier followed by a larger action, and neither can be repeated for ever. The order
      in which records were expanded does not matter. */
  lemma {:induction false} EveryEdgeIsCovered<S(!new), K(!new)>(
      g: Grammar<S, K>, ledger: Ledger<K>, d: Discipline<K>, view: map<K, Node<S>>, log: Log<S, K>, done: set<K>,
      k: K, b: Action, x: LazyState<S>)
    requires Lawful(g, ledger) && Explored(g, ledger, d, view, log, done) && InitialIn(g, d, view) && Settled(view)
        && !Lossy(d)
    requires k in view && Step(g, ledger, view[k].state, b, x)
    ensures Followed(g, d, view, k, x)
    decreases DIGEST_BOUND - b.order, RankOf(log, k)
  {
    var s, o := view[k].state, log.origin[k];
    if !Followed(g, d, view, k, x) {
      match o.prev
      case None =>
        var i :| i in g.initial && i.action == o.last && Canon(g, i) == k;
        assert Alike(g, s, i);
        var x' := StepAlike(g, ledger, s, i, b, x);
        var r, y := WitnessAtRoot(g, ledger, i, o.last, b, x');
        CoverLarger(g, ledger, d, view, log, done, r, o.last, y);
      case Some(p) =>
        var c :| Step(g, ledger, p, o.last, c) && Canon(g, c) == k;
        assert Alike(g, s, c);
        var x' := StepAlike(g, ledger, s, c, b, x);
        var r, y := WitnessAfterState(g, ledger, p, o.last, c, b, x');
        var q := Canon(g, p);
        assert Alike(g, p, view[q].state);
        var r' := StepAlike(g, ledger, p, view[q].state, b, r);
        EveryEdgeIsCovered(g, ledger, d, view, log, done, q, b, r');
        CoverLarger(g, ledger, d, view, log, done, r, o.last, y);
    }
  }

  /** The second half of a commuting pair, taken from any state of a form in the table. */
  lemma {:induction false} CoverLarger<S(!new), K(!new)>(
      g: Grammar<S, K>, ledger: Ledger<K>, d: Discipline<K>, view: map<K, Node<S>>, log: Log<S, K>, done: set<K>,
      r: LazyState<S>, a: Action, y: LazyState<S>)
    requires Lawful(g, ledger) && Explored(g, ledger, d, view, log, done) && InitialIn(g, d, view) && Settled(view)
        && !Lossy(d)
    requires Canon(g, r) in view && Step(g, ledger, r, a, y)
    ensures Followed(g, d, view, Canon(g, r), y)
    decreases DIGEST_BOUND - a.order, 1 + RankOf(log, Canon(g, r))
  {
    var t := view[Canon(g, r)].state;
    assert Alike(g, r, t);
    var y' := StepAlike(g, ledger, r, t, a, y);
    EveryEdgeIsCovered(g, ledger, d, view, log, done, Canon(g, r), a, y');
  }

  /** A finished table holds every reachable form, at its shortest depth unless `Loose`. */
  lemma {:induction false} FinishedTable<S(!new), K(!new)>(
      g: Grammar<S, K>, ledger: Ledger<K>, d: Discipline<K>, view: map<K, Node<S>>, log: Log<S, K>, done: set<K>,
      path: seq<Action>, s: LazyState<S>)
    requires Lawful(g, ledger) && Explored(g, ledger, d, view, log, done) && InitialIn(g, d, view) && Settled(view)
        && !Lossy(d)
    requires PathTo(g, path, s)
    ensures Canon(g, s) in view
    ensures !d.Loose? ==> view[Canon(g, s)].depthMinimum <= |path| - 1
    decreases |path|
  {
    if |path| > 1 {
      var p := LastStep(g, ledger, path, s);
      FinishedTable(g, ledger, d, view, log, done, path[..|path| - 1], p);
      CoverLarger(g, ledger, d, view, log, done, p, path[|path| - 1], s);
    }
  }

  // ---------- growing the table ----------

  /** `after` keeps every record of `before`: its state, its phase and, unless `Loose`, its depth. */
  ghost predicate Grows<S(!new), K(!new)>(d: Discipline<K>, before: map<K, Node<S>>, after: map<K, Node<S>>) {
    && before.Keys <= after.Keys
    && forall k <- before ::
         && after[k].state == before[k].state && after[k].phase == before[k].phase
         && (!d.Loose? ==> after[k].depthMinimum == before[k].depthMinimum)
  }

  lemma WorkGrows<S(!new), K(!new)>(
      g: Grammar<S, K>, ledger: Ledger<K>, d: Discipline<K>, before: map<K, Node<S>>, after: map<K, Node<S>>,
      done: set<K>, w: Work<S, K>)
    requires Grows(d, before, after) && WorkOk(g, ledger, d, before, done, w)
    ensures WorkOk(g, ledger, d, after, done, w)
  {}

  lemma EdgesGrow<S(!new), K(!new)>(
      g: Grammar<S, K>, ledger: Ledger<K>, d: Discipline<K>, d': Discipline<K>, before: map<K, Node<S>>,
      after: map<K, Node<S>>, k: K, o: Origin<S>)
    requires k in before && EdgesOk(g, ledger, d, before, k, o)
    requires before.Keys <= after.Keys && after[k].state == before[k].state && (d.Loose? <==> d'.Loose?)
    requires Lossy(d) <==> Lossy(d')
    requires !d.Loose? ==> forall i <- before :: after[i].depthMinimum == before[i].depthMinimum
    ensures EdgesOk(g, ledger, d', after, k, o)
  {
    if !Lossy(d) {
      forall b, x | Step(g, ledger, after[k].state, b, x)
        ensures Followed(g, d', after, k, x) || Excused(g, o.prev, o.last, b)
      {
        assert Followed(g, d, before, k, x) || Excused(g, o.prev, o.last, b);
      }
    }
  }

  lemma ExpandedGrows<S(!new), K(!new)>(
      g: Grammar<S, K>, ledger: Ledger<K>, d: Discipline<K>, before: map<K, Node<S>>, after: map<K, Node<S>>,
      log: Log<S, K>, k: K)
    requires k in before && Grows(d, before, after) && ExpandedOk(g, ledger, d, before, log, k)
    ensures ExpandedOk(g, ledger, d, after, log, k)
  {
    EdgesGrow(g, ledger, d, d, before, after, k, log.origin[k]);
  }

  ghost predicate DepthRule<K(!new)>(d: Discipline<K>, k: K, depth: nat) {
    match d
    case Fifo(h) => depth == h
    case Levelled(level) => depth == level(k)
    case Loose(_) => true
  }

  /** A path to `k` that the table may record, with a depth at which `k` is reached. */
  ghost predicate ReportOk<S(!new), K(!new)>(
      g: Grammar<S, K>, ledger: Ledger<K>, d: Discipline<K>, done: set<K>, k: K, depth: nat, path: seq<Action>)
  {
    && Leads(g, path, k) && ParentDone(g, ledger, done, path, k) && ReachedIn(g, depth, k)
    && DepthRule(d, k, depth)
  }

  /** The work item a new record would be queued with is a genuine discovery. */
  ghost predicate SourceOk<S(!new), K(!new)>(
      g: Grammar<S, K>, ledger: Ledger<K>, d: Discipline<K>, view: map<K, Node<S>>, done: set<K>,
      k: K, depth: nat, path: seq<Action>, states: seq<Option<LazyState<S>>>)
  {
    && path != [] && states != []
    && match states[|states| - 1]
       case None => exists i <- g.initial :: i.action == path[|path| - 1] && Canon(g, i) == k
       case Some(p) =>
         && Canon(g, p) in view && Canon(g, p) in done
         && (exists x :: Step(g, ledger, p, path[|path| - 1], x) && Canon(g, x) == k)
         && (!d.Loose? ==> view[Canon(g, p)].depthMinimum + 1 <= depth)
  }

  ghost predicate ItemsOk<S(!new), K(!new)>(
      g: Grammar<S, K>, ledger: Ledger<K>, d: Discipline<K>, view: map<K, Node<S>>, done: set<K>,
      queue: seq<Work<S, K>>, current: Option<K>)
  {
    forall w <- queue :: WorkOk(g, ledger, d, view, done, w) && Some(w.key) != current
  }

  ghost predicate ItemsDistinct<S(!new), K(!new)>(queue: seq<Work<S, K>>) {
    forall i, j :: 0 <= i < j < |queue| ==> queue[i].key != queue[j].key
  }

  ghost predicate HasItem<S(!new), K(!new)>(queue: seq<Work<S, K>>, k: K) {
    exists w <- queue :: w.key == k
  }

  ghost predicate NoneLost<S(!new), K(!new)>(view: map<K, Node<S>>, queue: seq<Work<S, K>>, current: Option<K>) {
    forall k <- view :: view[k].phase.Queued? && Some(k) != current ==> HasItem(queue, k)
  }

  function DepthOf<S, K(!new)>(view: map<K, Node<S>>, k: K): nat {
    if k in view then view[k].depthMinimum else 0
  }

  /** Depths along a first-in first-out queue never decrease and span at most two layers. */
  ghost predicate Layered<S(!new), K(!new)>(d: Discipline<K>, view: map<K, Node<S>>, queue: seq<Work<S, K>>) {
    d.Fifo? ==>
      && (forall i :: 0 <= i < |queue| ==> d.horizon <= DepthOf(view, queue[i].key) + 1)
      && (forall i, j :: 0 <= i < j < |queue| ==> DepthOf(view, queue[i].key) <= DepthOf(view, queue[j].key))
  }

  /** The queue holds each queued record exactly once, as a genuine discovery; `current` is the
      record being expanded, which has left the queue. In a `Fifo` search the queue is layered. */
  ghost predicate QueueOk<S(!new), K(!new)>(
      g: Grammar<S, K>, ledger: Ledger<K>, d: Discipline<K>, view: map<K, Node<S>>, done: set<K>,
      queue: seq<Work<S, K>>, current: Option<K>)
  {
    && ItemsOk(g, ledger, d, view, done, queue, current) && ItemsDistinct(queue)
    && NoneLost(view, queue, current) && Layered(d, view, queue)
  }

  lemma InternedGrows<S(!new), K(!new)>(
      g: Grammar<S, K>, d: Discipline<K>, cfg: Config<S>, view: map<K, Node<S>>, s: LazyState<S>,
      depth: nat, path: seq<Action>, edge: nat)
    requires DepthsOk(d, view) && DepthRule(d, Canon(g, s), depth)
    ensures var r := Interned(g, cfg.smallerPath, view, s, depth, path, edge).0;
            && Grows(d, view, r) && DepthsOk(d, r) && Canon(g, s) in r
            && (!d.Loose? ==> r[Canon(g, s)].depthMinimum <= depth)
  {}

  lemma InternedNode<S(!new), K(!new)>(
      g: Grammar<S, K>, ledger: Ledger<K>, d: Discipline<K>, cfg: Config<S>, view: map<K, Node<S>>, done: set<K>,
      s: LazyState<S>, depth: nat, path: seq<Action>, edge: nat)
    requires g.made(s) && ReportOk(g, ledger, d, done, Canon(g, s), depth, path)
    requires NodesOk(g, ledger, view, done)
    ensures NodesOk(g, ledger, Interned(g, cfg.smallerPath, view, s, depth, path, edge).0, done)
  {
    var r, k := Interned(g, cfg.smallerPath, view, s, depth, path, edge).0, Canon(g, s);
    assert NodeOk(g, ledger, done, k, r[k]) by {
      if k in view {
        assert NodeOk(g, ledger, done, k, view[k]);
      }
    }
    forall k' | k' in r && k' != k ensures NodeOk(g, ledger, done, k', r[k']) {
      assert r[k'] == view[k'];
    }
  }

  lemma AllExpandedGrow<S(!new), K(!new)>(
      g: Grammar<S, K>, ledger: Ledger<K>, d: Discipline<K>, before: map<K, Node<S>>, after: map<K, Node<S>>,
      log: Log<S, K>)
    requires Grows(d, before, after) && AllExpandedOk(g, ledger, d, before, log)
    requires forall k <- after :: after[k].phase.Expanded? ==> k in before
    ensures AllExpandedOk(g, ledger, d, after, log)
  {
    forall k | k in after && after[k].phase.Expanded? ensures ExpandedOk(g, ledger, d, after, log, k) {
      ExpandedGrows(g, ledger, d, before, after, log, k);
    }
  }

  lemma InternedExplored<S(!new), K(!new)>(
      g: Grammar<S, K>, ledger: Ledger<K>, d: Discipline<K>, cfg: Config<S>, view: map<K, Node<S>>, log: Log<S, K>,
      done: set<K>, s: LazyState<S>, depth: nat, path: seq<Action>, edge: nat)
    requires Explored(g, ledger, d, view, log, done)
    requires g.made(s) && ReportOk(g, ledger, d, done, Canon(g, s), depth, path)
    ensures Explored(g, ledger, d, Interned(g, cfg.smallerPath, view, s, depth, path, edge).0, log, done)
  {
    var r := Interned(g, cfg.smallerPath, view, s, depth, path, edge).0;
    InternedGrows(g, d, cfg, view, s, depth, path, edge);
    InternedNode(g, ledger, d, cfg, view, done, s, depth, path, edge);
    AllExpandedGrow(g, ledger, d, view, r, log);
  }

  lemma NewWork<S(!new), K(!new)>(
      g: Grammar<S, K>, ledger: Ledger<K>, d: Discipline<K>, cfg: Config<S>, view: map<K, Node<S>>, done: set<K>,
      s: LazyState<S>, depth: nat, path: seq<Action>, states: seq<Option<LazyState<S>>>, edge: nat)
    requires ReportOk(g, ledger, d, done, Canon(g, s), depth, path) && Canon(g, s) !in view
    requires SourceOk(g, ledger, d, view, done, Canon(g, s), depth, path, states)
    ensures WorkOk(g, ledger, d, Interned(g, cfg.smallerPath, view, s, depth, path, edge).0, done,
                   Work(Canon(g, s), path, states))
  {}

  /** Merging into an existing record leaves the queue good. */
  lemma QueueGrows<S(!new), K(!new)>(
      g: Grammar<S, K>, ledger: Ledger<K>, d: Discipline<K>, before: map<K, Node<S>>, after: map<K, Node<S>>,
      done: set<K>, queue: seq<Work<S, K>>, current: Option<K>)
    requires QueueOk(g, ledger, d, before, done, queue, current) && Grows(d, before, after)
    ensures ItemsOk(g, ledger, d, after, done, queue, current) && Layered(d, after, queue)
    ensures after.Keys == before.Keys ==> NoneLost(after, queue, current)
  {
    forall w | w in queue
      ensures WorkOk(g, ledger, d, after, done, w)
    {
      WorkGrows(g, ledger, d, before, after, done, w);
    }
    forall i | 0 <= i < |queue|
      ensures queue[i].key in before && (d.Fifo? ==> DepthOf(after, queue[i].key) == DepthOf(before, queue[i].key))
    {
      assert queue[i] in queue;
    }
  }

  lemma ItemsAppend<S(!new), K(!new)>(
      g: Grammar<S, K>, ledger: Ledger<K>, d: Discipline<K>, view: map<K, Node<S>>, done: set<K>,
      queue: seq<Work<S, K>>, current: Option<K>, w: Work<S, K>)
    requires ItemsOk(g, ledger, d, view, done, queue, current) && ItemsDistinct(queue) && Layered(d, view, queue)
    requires WorkOk(g, ledger, d, view, done, w) && Some(w.key) != current && !HasItem(queue, w.key)
    requires d.Fifo? ==> DepthsOk(d, view) && view[w.key].depthMinimum == d.horizon
    ensures ItemsOk(g, ledger, d, view, done, queue + [w], current) && ItemsDistinct(queue + [w])
    ensures Layered(d, view, queue + [w])
  {
    var q := queue + [w];
    forall i, j | 0 <= i < j < |q|
      ensures q[i].key != q[j].key && (d.Fifo? ==> DepthOf(view, q[i].key) <= DepthOf(view, q[j].key))
    {
      assert q[i] in queue;
    }
  }

  lemma AddStateQueues<S(!new), K(!new)>(
      g: Grammar<S, K>, ledger: Ledger<K>, d: Discipline<K>, cfg: Config<S>, sn: Snapshot<S, K>,
      done: set<K>, s: LazyState<S>, parent: Option<K>, depth: nat, path: seq<Action>,
      states: seq<Option<LazyState<S>>>,
      current: Option<K>)
    requires DepthsOk(d, sn.view) && ReportOk(g, ledger, d, done, Canon(g, s), depth, path)
    requires SourceOk(g, ledger, d, sn.view, done, Canon(g, s), depth, path, states)
    requires QueueOk(g, ledger, d, sn.view, done, sn.queue, current)
    requires current.Some? ==> current.value in sn.view
    ensures var r := AddState(g, cfg, sn, s, parent, depth, path, states);
            QueueOk(g, ledger, d, r.view, done, r.queue, current)
  {
    var r, k := AddState(g, cfg, sn, s, parent, depth, path, states), Canon(g, s);
    InternedGrows(g, d, cfg, sn.view, s, depth, path, |sn.edges|);
    QueueGrows(g, ledger, d, sn.view, r.view, done, sn.queue, current);
    if k in sn.view {
      assert r.view.Keys == sn.view.Keys;
    } else {
      var w := Work(k, path, states);
      NewWork(g, ledger, d, cfg, sn.view, done, s, depth, path, states, |sn.edges|);
      ItemsAppend(g, ledger, d, r.view, done, sn.queue, current, w);
      forall k' | k' in r.view && r.view[k'].phase.Queued? && Some(k') != current
        ensures HasItem(r.queue, k')
      {
        if k' == k {
          assert w in r.queue;
        } else {
          assert HasItem(sn.queue, k');
          var v :| v in sn.queue && v.key == k';
          assert v in r.queue;
        }
      }
    }
  }
}

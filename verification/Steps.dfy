/** Every step of the search keeps its invariant, and a search whose queue has run dry is complete. */
module Steps {
  import opened Actions
  import opened Grammars
  import opened Exploration
  import opened Soundness

  // ---------- choosing children ----------

  lemma {:induction false} ViableMembers<S(!new), K(!new)>(g: Grammar<S, K>, w: Work<S, K>, por: bool,
        actions: seq<Action>, b: Action)
    requires w.path != [] && w.states != []
    ensures b in Viable(g, w, por, actions).actions <==>
            && b in actions && !Blocked(b, Keys(w.path))
            && !(por && Redundant(g, OriginOf(w).prev, OriginOf(w).last, b))
  {
    if actions != [] {
      var n := |actions| - 1;
      ViableMembers(g, w, por, actions[..n], b);
      assert actions == actions[..n] + [actions[n]];
    }
  }

  function HowManyOf(actions: seq<Action>, which: Action -> bool): nat {
    if actions == [] then 0
    else HowManyOf(actions[..|actions| - 1], which) + if which(actions[|actions| - 1]) then 1 else 0
  }

  /** Every enabled action is followed, held back by the guard, or skipped as redundant, and the counters
      say how many are. */
  lemma {:induction false} ViableCounts<S(!new), K(!new)>(g: Grammar<S, K>, w: Work<S, K>, por: bool,
        actions: seq<Action>)
    requires w.path != [] && w.states != []
    ensures var f, o := Viable(g, w, por, actions), OriginOf(w);
            && |f.actions| + f.por + f.dependency == |actions|
            && f.dependency == HowManyOf(actions, a => Blocked(a, Keys(w.path)))
            && f.por == HowManyOf(actions, a => por && !Blocked(a, Keys(w.path)) && Redundant(g, o.prev, o.last, a))
  {
    if actions != [] {
      ViableCounts(g, w, por, actions[..|actions| - 1]);
    }
  }

  lemma {:induction false} RealizedIsNoLonger<S(!new), K(!new)>(g: Grammar<S, K>, s: LazyState<S>, actions: seq<Action>)
    ensures |Realized(g, s, actions)| <= |actions|
  {
    if actions != [] {
      RealizedIsNoLonger(g, s, actions[..|actions| - 1]);
    }
  }

  lemma {:induction false} RealizedMembers<S(!new), K(!new)>(g: Grammar<S, K>, s: LazyState<S>, actions: seq<Action>,
        x: LazyState<S>)
    ensures x in Realized(g, s, actions) <==> exists a <- actions :: g.apply(Some(s), a) == Some(x)
  {
    if actions != [] {
      var n := |actions| - 1;
      RealizedMembers(g, s, actions[..n], x);
      assert actions == actions[..n] + [actions[n]];
    }
  }

  lemma {:induction false} PlacedKeeps<T>(ranked: seq<(T, real)>, child: (T, real))
    ensures multiset(Placed(ranked, child)) == multiset(ranked) + multiset{child}
  {
    if ranked != [] && ranked[|ranked| - 1].1 < child.1 {
      PlacedKeeps(ranked[..|ranked| - 1], child);
      assert ranked == ranked[..|ranked| - 1] + [ranked[|ranked| - 1]];
    }
  }

  ghost predicate Descending<T>(ranked: seq<(T, real)>) {
    forall i, j :: 0 <= i < j < |ranked| ==> ranked[i].1 >= ranked[j].1
  }

  lemma {:induction false} PlacedDescends<T>(ranked: seq<(T, real)>, child: (T, real))
    requires Descending(ranked)
    ensures Descending(Placed(ranked, child))
  {
    var n := |ranked| - 1;
    if ranked != [] && ranked[n].1 < child.1 {
      PlacedDescends(ranked[..n], child);
      PlacedKeeps(ranked[..n], child);
      var p := Placed(ranked[..n], child);
      forall i | 0 <= i < |p| ensures p[i].1 >= ranked[n].1 {
        assert p[i] in multiset(p);
        assert p[i] in multiset(ranked[..n]) || p[i] == child;
      }
    }
  }

  /** The pairs of one score, in order. */
  function Scoring<T>(pairs: seq<(T, real)>, score: real): seq<(T, real)> {
    if pairs == [] then []
    else
      var n := |pairs| - 1;
      Scoring(pairs[..n], score) + if pairs[n].1 == score then [pairs[n]] else []
  }

  lemma {:induction false} PlacedIsStable<T>(ranked: seq<(T, real)>, child: (T, real), score: real)
    ensures Scoring(Placed(ranked, child), score) == Scoring(ranked, score) + if child.1 == score then [child] else []
  {
    if ranked != [] && ranked[|ranked| - 1].1 < child.1 {
      PlacedIsStable(ranked[..|ranked| - 1], child, score);
    }
  }

  function Zipped<T>(children: seq<T>, scores: seq<real>): seq<(T, real)>
    requires |children| == |scores|
  {
    seq(|children|, i requires 0 <= i < |children| => (children[i], scores[i]))
  }

  lemma {:induction false} RankedPairsKeep<T>(children: seq<T>, scores: seq<real>)
    requires |children| == |scores|
    ensures multiset(RankedPairs(children, scores)) == multiset(Zipped(children, scores))
    ensures Descending(RankedPairs(children, scores))
  {
    if children != [] {
      var n := |children| - 1;
      RankedPairsKeep(children[..n], scores[..n]);
      PlacedKeeps(RankedPairs(children[..n], scores[..n]), (children[n], scores[n]));
      PlacedDescends(RankedPairs(children[..n], scores[..n]), (children[n], scores[n]));
      assert Zipped(children, scores) == Zipped(children[..n], scores[..n]) + [(children[n], scores[n])];
    }
  }

  lemma {:induction false} RankedIsStable<T>(children: seq<T>, scores: seq<real>, score: real)
    requires |children| == |scores|
    ensures Scoring(RankedPairs(children, scores), score) == Scoring(Zipped(children, scores), score)
  {
    if children != [] {
      var n := |children| - 1;
      RankedIsStable(children[..n], scores[..n], score);
      PlacedIsStable(RankedPairs(children[..n], scores[..n]), (children[n], scores[n]), score);
      assert Zipped(children, scores)[..n] == Zipped(children[..n], scores[..n]);
    }
  }

  /** Whatever the policy scores, ranking only reorders the frontier, best score first and equal scores
      in their old order: a child is never added, deleted or duplicated. */
  lemma RankingNeverDeletes<T>(children: seq<T>, scores: seq<real>)
    requires |children| == |scores|
    ensures Descending(RankedPairs(children, scores))
    ensures multiset(RankedPairs(children, scores)) == multiset(Zipped(children, scores))
    ensures forall score :: Scoring(RankedPairs(children, scores), score) == Scoring(Zipped(children, scores), score)
    ensures |Ranked(children, scores)| == |children|
    ensures forall x :: x in Ranked(children, scores) <==> x in children
  {
    var pairs, all := RankedPairs(children, scores), Zipped(children, scores);
    RankedPairsKeep(children, scores);
    forall score ensures Scoring(pairs, score) == Scoring(all, score) {
      RankedIsStable(children, scores, score);
    }
    assert |multiset(pairs)| == |multiset(all)|;
    forall x | x in children ensures x in Ranked(children, scores) {
      var i :| 0 <= i < |children| && children[i] == x;
      assert all[i] in multiset(pairs);
      var j :| 0 <= j < |pairs| && pairs[j] == all[i];
      assert Ranked(children, scores)[j] == x;
    }
    forall x | x in Ranked(children, scores) ensures x in children {
      var j :| 0 <= j < |pairs| && pairs[j].0 == x;
      assert pairs[j] in multiset(all);
      var i :| 0 <= i < |all| && all[i] == pairs[j];
    }
  }

  // ---------- interning children ----------

  /** `x` is a child of the record of `w`. */
  ghost predicate ChildOk<S(!new), K(!new)>(g: Grammar<S, K>, ledger: Ledger<K>, s: LazyState<S>, x: LazyState<S>) {
    Step(g, ledger, s, x.action, x)
  }

  lemma ReachedNext<S(!new), K(!new)>(g: Grammar<S, K>, ledger: Ledger<K>, n: nat, s: LazyState<S>, a: Action,
        x: LazyState<S>)
    requires Lawful(g, ledger) && ReachedIn(g, n, Canon(g, s)) && Step(g, ledger, s, a, x)
    ensures ReachedIn(g, n + 1, Canon(g, x))
  {
    var path, t :| |path| == n + 1 && PathTo(g, path, t) && Canon(g, t) == Canon(g, s);
    LeadsOn(g, ledger, path, s, a, x);
    var u :| PathTo(g, path + [a], u) && Canon(g, u) == Canon(g, x);
    assert |path + [a]| == n + 1 + 1;
  }

  lemma ChildReport<S(!new), K(!new)>(
      g: Grammar<S, K>, ledger: Ledger<K>, d: Discipline<K>, done: set<K>, w: Work<S, K>, s: LazyState<S>, depth: nat,
      x: LazyState<S>)
    requires Lawful(g, ledger) && (d.Levelled? ==> Graded(g, d.level))
    requires Leads(g, w.path, w.key) && Canon(g, s) == w.key && w.key in done && ChildOk(g, ledger, s, x)
    requires ReachedIn(g, depth, w.key) && w.path != []
    requires match d case Fifo(h) => depth + 1 == h case Levelled(level) => depth == level(w.key) case Loose(_) => true
    ensures g.made(x) && ReportOk(g, ledger, d, done, Canon(g, x), depth + 1, w.path + [x.action])
  {
    assert InAlphabet(g, x.action);
    var path := w.path + [x.action];
    assert path[..|path| - 1] == w.path;
    LeadsOn(g, ledger, w.path, s, x.action, x);
    ReachedNext(g, ledger, depth, s, x.action, x);
  }

  /** The state of a search while the record of `w` is being expanded at `depth`. */
  ghost predicate Expanding<S(!new), K(!new)>(
      g: Grammar<S, K>, ledger: Ledger<K>, d: Discipline<K>, sn: Snapshot<S, K>, log: Log<S, K>,
      done: set<K>, w: Work<S, K>, s: LazyState<S>, depth: nat)
  {
    && Explored(g, ledger, d, sn.view, log, done)
    && QueueOk(g, ledger, d, sn.view, done, sn.queue, Some(w.key))
    && w.key in done && w.key in sn.view && sn.view[w.key].state == s
    && Canon(g, s) == w.key && ReachedIn(g, depth, w.key)
    && (!d.Loose? ==> sn.view[w.key].depthMinimum == depth)
    && (d.Fifo? ==> depth + 1 == d.horizon)
    && w.path != [] && Leads(g, w.path, w.key)
  }

  lemma ChildKeeps<S(!new), K(!new)>(
      g: Grammar<S, K>, ledger: Ledger<K>, d: Discipline<K>, cfg: Config<S>, sn: Snapshot<S, K>, log: Log<S, K>,
      done: set<K>, w: Work<S, K>, s: LazyState<S>, depth: nat, x: LazyState<S>)
    requires Lawful(g, ledger) && Expanding(g, ledger, d, sn, log, done, w, s, depth) && ChildOk(g, ledger, s, x)
    ensures var r := AddState(g, cfg, sn, x, Some(w.key), depth + 1, w.path + [x.action], w.states + [Some(s)]);
            && Expanding(g, ledger, d, r, log, done, w, s, depth) && Grows(d, sn.view, r.view)
            && (!d.Loose? ==> r.view[Canon(g, x)].depthMinimum <= depth + 1)
  {
    hide NodesOk, AllExpandedOk, LogOk, QueueOk, ParentDone, Leads, ReachedIn, Lawful, Graded, AddChildren;
    var path, states := w.path + [x.action], w.states + [Some(s)];
    ChildReport(g, ledger, d, done, w, s, depth, x);
    assert SourceOk(g, ledger, d, sn.view, done, Canon(g, x), depth + 1, path, states);
    AddStateQueues(g, ledger, d, cfg, sn, done, x, Some(w.key), depth + 1, path, states, Some(w.key));
    InternedExplored(g, ledger, d, cfg, sn.view, log, done, x, depth + 1, path, |sn.edges|);
    InternedGrows(g, d, cfg, sn.view, x, depth + 1, path, |sn.edges|);
  }

  ghost predicate AllIn<S(!new), K(!new)>(g: Grammar<S, K>, d: Discipline<K>, view: map<K, Node<S>>,
        children: seq<LazyState<S>>, depth: nat) {
    forall x <- children :: Canon(g, x) in view && (!d.Loose? ==> view[Canon(g, x)].depthMinimum <= depth)
  }

  lemma AllInGrows<S(!new), K(!new)>(
      g: Grammar<S, K>, d: Discipline<K>, before: map<K, Node<S>>, after: map<K, Node<S>>,
      children: seq<LazyState<S>>, x: LazyState<S>, depth: nat)
    requires AllIn(g, d, before, children, depth) && Grows(d, before, after)
    requires Canon(g, x) in after && (!d.Loose? ==> after[Canon(g, x)].depthMinimum <= depth)
    ensures AllIn(g, d, after, children + [x], depth)
  {}

  lemma GrowsTransitive<S(!new), K(!new)>(d: Discipline<K>, a: map<K, Node<S>>, b: map<K, Node<S>>, c: map<K, Node<S>>)
    requires Grows(d, a, b) && Grows(d, b, c)
    ensures Grows(d, a, c)
  {}

  lemma GrowsReflexive<S(!new), K(!new)>(d: Discipline<K>, a: map<K, Node<S>>)
    ensures Grows(d, a, a)
  {}

  lemma TerminalsUntouched<S(!new), K(!new)>(
      g: Grammar<S, K>, cfg: Config<S>, sn: Snapshot<S, K>, s: LazyState<S>, parent: Option<K>,
      depth: nat, path: seq<Action>, states: seq<Option<LazyState<S>>>)
    ensures AddState(g, cfg, sn, s, parent, depth, path, states).terminals == sn.terminals
  {}

  lemma {:induction false} ChildrenKeep<S(!new), K(!new)>(
      g: Grammar<S, K>, ledger: Ledger<K>, d: Discipline<K>, cfg: Config<S>, sn: Snapshot<S, K>, log: Log<S, K>,
      done: set<K>, w: Work<S, K>, s: LazyState<S>, depth: nat, children: seq<LazyState<S>>)
    requires Lawful(g, ledger) && Expanding(g, ledger, d, sn, log, done, w, s, depth)
    requires forall x <- children :: ChildOk(g, ledger, s, x)
    ensures var r := AddChildren(g, cfg, sn, w, s, depth + 1, children);
            && Expanding(g, ledger, d, r, log, done, w, s, depth) && Grows(d, sn.view, r.view)
            && AllIn(g, d, r.view, children, depth + 1)
            && r.terminals == sn.terminals
    decreases |children|
  {
    hide Expanding, Grows, Lawful, AddState;
    if children == [] {
      GrowsReflexive(d, sn.view);
    } else {
      var n, x := |children| - 1, children[|children| - 1];
      assert ChildOk(g, ledger, s, x);
      assert children == children[..n] + [x];
      assert forall y <- children[..n] :: y in children;
      var before, r := AddChildren(g, cfg, sn, w, s, depth + 1, children[..n]), AddChildren(g, cfg, sn, w, s,
          depth + 1, children);
      ChildrenKeep(g, ledger, d, cfg, sn, log, done, w, s, depth, children[..n]);
      assert r == AddState(g, cfg, before, x, Some(w.key), depth + 1, w.path + [x.action], w.states + [Some(s)]);
      ChildKeeps(g, ledger, d, cfg, before, log, done, w, s, depth, x);
      AllInGrows(g, d, before.view, r.view, children[..n], x, depth + 1);
      assert r.terminals == before.terminals by {
        TerminalsUntouched(g, cfg, before, x, Some(w.key), depth + 1, w.path + [x.action], w.states + [Some(s)]);
      }
      GrowsTransitive(d, sn.view, before.view, r.view);
    }
  }

  // ---------- one pop ----------

  /** The invariant of a search between pops. */
  ghost predicate SearchOk<S(!new), K(!new)>(
      g: Grammar<S, K>, ledger: Ledger<K>, d: Discipline<K>, sn: Snapshot<S, K>, log: Log<S, K>)
  {
    && Explored(g, ledger, d, sn.view, log, log.rank.Keys)
    && InitialIn(g, d, sn.view)
    && QueueOk(g, ledger, d, sn.view, log.rank.Keys, sn.queue, None)
    && TerminalsOk(sn.view, sn.terminals)
  }

  /** The discipline while a record of depth `depth` is expanded. */
  function Advance<K(!new)>(d: Discipline<K>, depth: nat): Discipline<K> {
    if d.Fifo? then Fifo(depth + 1) else d
  }

  /** Only the bound on depths depends on the horizon. */
  lemma HorizonMoves<S(!new), K(!new)>(
      g: Grammar<S, K>, ledger: Ledger<K>, d: Discipline<K>, view: map<K, Node<S>>, log: Log<S, K>, done: set<K>,
      depth: nat)
    requires Explored(g, ledger, d, view, log, done) && (d.Fifo? ==> d.horizon <= depth + 1)
    ensures Explored(g, ledger, Advance(d, depth), view, log, done)
  {
    var d' := Advance(d, depth);
    forall k | k in view && view[k].phase.Expanded? ensures ExpandedOk(g, ledger, d', view, log, k) {
      EdgesGrow(g, ledger, d, d', view, view, k, log.origin[k]);
    }
  }

  lemma TailItems<S(!new), K(!new)>(
      g: Grammar<S, K>, ledger: Ledger<K>, d: Discipline<K>, view: map<K, Node<S>>, done: set<K>,
      queue: seq<Work<S, K>>, depth: nat)
    requires queue != [] && ItemsOk(g, ledger, d, view, done, queue, None) && ItemsDistinct(queue)
    ensures ItemsOk(g, ledger, Advance(d, depth), view, done, queue[1..], Some(queue[0].key))
        && ItemsDistinct(queue[1..])
  {
    forall v | v in queue[1..]
      ensures WorkOk(g, ledger, Advance(d, depth), view, done, v) && v.key != queue[0].key
    {
      var i :| 0 <= i < |queue[1..]| && queue[1..][i] == v;
      assert queue[i + 1] == v && queue[0].key != queue[i + 1].key;
      assert WorkOk(g, ledger, d, view, done, v);
    }
  }

  lemma TailNoneLost<S(!new), K(!new)>(view: map<K, Node<S>>, queue: seq<Work<S, K>>)
    requires queue != [] && NoneLost(view, queue, None)
    ensures NoneLost(view, queue[1..], Some(queue[0].key))
  {
    forall k | k in view && view[k].phase.Queued? && k != queue[0].key ensures HasItem(queue[1..], k) {
      assert HasItem(queue, k);
      var v :| v in queue && v.key == k;
      assert v in queue[1..];
    }
  }

  lemma TailLayered<S(!new), K(!new)>(d: Discipline<K>, view: map<K, Node<S>>, queue: seq<Work<S, K>>)
    requires queue != [] && Layered(d, view, queue)
    ensures Layered(Advance(d, DepthOf(view, queue[0].key)), view, queue[1..])
    ensures d.Fifo? ==> d.horizon <= DepthOf(view, queue[0].key) + 1
  {
    assert forall i :: 0 <= i < |queue[1..]| ==> queue[1..][i] == queue[i + 1];
  }

  /** Taking the head off a layered queue moves the horizon to one layer below it. */
  lemma TakeHead<S(!new), K(!new)>(
      g: Grammar<S, K>, ledger: Ledger<K>, d: Discipline<K>, sn: Snapshot<S, K>, log: Log<S, K>)
    requires SearchOk(g, ledger, d, sn, log) && sn.queue != []
    ensures var w := sn.queue[0];
            && WorkOk(g, ledger, d, sn.view, log.rank.Keys, w)
            && var d' := Advance(d, sn.view[w.key].depthMinimum);
               && Explored(g, ledger, d', sn.view, log, log.rank.Keys)
               && QueueOk(g, ledger, d', sn.view, log.rank.Keys, sn.queue[1..], Some(w.key))
  {
    var w, rest := sn.queue[0], sn.queue[1..];
    assert w in sn.queue;
    assert WorkOk(g, ledger, d, sn.view, log.rank.Keys, w);
    var e := DepthOf(sn.view, w.key);
    TailLayered(d, sn.view, sn.queue);
    HorizonMoves(g, ledger, d, sn.view, log, log.rank.Keys, e);
    TailItems(g, ledger, d, sn.view, log.rank.Keys, sn.queue, e);
    TailNoneLost(sn.view, sn.queue);
  }

  lemma DoneGrows<S(!new), K(!new)>(
      g: Grammar<S, K>, ledger: Ledger<K>, d: Discipline<K>, view: map<K, Node<S>>, log: Log<S, K>,
      done: set<K>, more: set<K>, queue: seq<Work<S, K>>, current: Option<K>)
    requires Explored(g, ledger, d, view, log, done) && QueueOk(g, ledger, d, view, done, queue, current)
    requires done <= more
    ensures Explored(g, ledger, d, view, log, more) && QueueOk(g, ledger, d, view, more, queue, current)
  {
    forall k | k in view ensures NodeOk(g, ledger, more, k, view[k]) {
      assert NodeOk(g, ledger, done, k, view[k]);
    }
    forall w | w in queue ensures WorkOk(g, ledger, d, view, more, w) {
      assert WorkOk(g, ledger, d, view, done, w);
    }
  }

  /** Recording that `k` leaves the queued phase disturbs nobody else. */
  lemma PhaseChange<S(!new), K(!new)>(
      g: Grammar<S, K>, ledger: Ledger<K>, d: Discipline<K>, view: map<K, Node<S>>, done: set<K>,
      queue: seq<Work<S, K>>, k: K, phase: Phase)
    requires k in view && !phase.Queued? && QueueOk(g, ledger, d, view, done, queue, Some(k))
    ensures QueueOk(g, ledger, d, SetPhase(view, k, phase), done, queue, None)
  {
    var after := SetPhase(view, k, phase);
    forall w | w in queue ensures WorkOk(g, ledger, d, after, done, w) {
      assert WorkOk(g, ledger, d, view, done, w) && w.key != k;
    }
    forall i | 0 <= i < |queue| ensures DepthOf(after, queue[i].key) == DepthOf(view, queue[i].key) {}
    forall k' | k' in after && after[k'].phase.Queued? ensures HasItem(queue, k') {
      assert view[k'].phase.Queued? && Some(k') != Some(k);
    }
  }

  lemma ExpandedPhase<S(!new), K(!new)>(
      g: Grammar<S, K>, ledger: Ledger<K>, d: Discipline<K>, view: map<K, Node<S>>, log: Log<S, K>, log': Log<S, K>,
      k: K, phase: Phase, k': K)
    requires k in view && k' in view && ExpandedOk(g, ledger, d, view, log, k')
    requires k' in log'.origin && k' in log'.rank && log'.origin[k'] == log.origin[k'] && log'.rank[k'] == log.rank[k']
    requires log.rank.Keys <= log'.rank.Keys && (forall i <- log.rank :: log'.rank[i] == log.rank[i])
    ensures ExpandedOk(g, ledger, d, SetPhase(view, k, phase), log', k')
  {
    EdgesGrow(g, ledger, d, d, view, SetPhase(view, k, phase), k', log.origin[k']);
  }

  function Marked<S, K>(log: Log<S, K>, k: K, o: Origin<S>): Log<S, K> {
    Log(log.origin[k := o], log.rank[k := log.clock], log.clock + 1)
  }

  lemma NodesPhase<S(!new), K(!new)>(
      g: Grammar<S, K>, ledger: Ledger<K>, view: map<K, Node<S>>, done: set<K>, k: K, phase: Phase)
    requires NodesOk(g, ledger, view, done)
    requires k in view && (phase.TerminalSeen? <==> view[k].state.terminal) && !phase.Queued?
    ensures NodesOk(g, ledger, SetPhase(view, k, phase), done)
  {
    forall k' | k' in view ensures NodeOk(g, ledger, done, k', SetPhase(view, k, phase)[k']) {
      assert NodeOk(g, ledger, done, k', view[k']);
    }
  }

  lemma NewlyExpanded<S(!new), K(!new)>(
      g: Grammar<S, K>, ledger: Ledger<K>, d: Discipline<K>, view: map<K, Node<S>>, log: Log<S, K>, k: K, o: Origin<S>)
    requires k in view && k !in log.rank && (forall i <- log.rank :: log.rank[i] < log.clock)
    requires OriginOk(g, ledger, d, view, log.rank.Keys, k, o) && EdgesOk(g, ledger, d, view, k, o)
    ensures ExpandedOk(g, ledger, d, SetPhase(view, k, Expanded), Marked(log, k, o), k)
  {
    EdgesGrow(g, ledger, d, d, view, SetPhase(view, k, Expanded), k, o);
  }

  lemma AllExpandedPhase<S(!new), K(!new)>(
      g: Grammar<S, K>, ledger: Ledger<K>, d: Discipline<K>, view: map<K, Node<S>>, log: Log<S, K>, log': Log<S, K>,
      k: K, phase: Phase)
    requires k in view && AllExpandedOk(g, ledger, d, view, log) && LogOk(view, log) && !view[k].phase.Expanded?
    requires forall i <- log.rank :: i in log'.rank && log'.rank[i] == log.rank[i]
    requires forall i <- log.rank :: i in log.origin ==> i in log'.origin && log'.origin[i] == log.origin[i]
    requires phase.Expanded? ==> ExpandedOk(g, ledger, d, SetPhase(view, k, phase), log', k)
    ensures AllExpandedOk(g, ledger, d, SetPhase(view, k, phase), log')
  {
    forall k' | k' in view && k' != k && view[k'].phase.Expanded?
      ensures ExpandedOk(g, ledger, d, SetPhase(view, k, phase), log', k')
    {
      ExpandedPhase(g, ledger, d, view, log, log', k, phase, k');
    }
  }

  lemma MarkTerminal<S(!new), K(!new)>(
      g: Grammar<S, K>, ledger: Ledger<K>, d: Discipline<K>, view: map<K, Node<S>>, log: Log<S, K>, done: set<K>, k: K)
    requires Explored(g, ledger, d, view, log, done)
    requires k in view && view[k].phase.Queued? && view[k].state.terminal
    ensures Explored(g, ledger, d, SetPhase(view, k, TerminalSeen), log, done)
  {
    hide NodeOk, ExpandedOk;
    NodesPhase(g, ledger, view, done, k, TerminalSeen);
    AllExpandedPhase(g, ledger, d, view, log, log, k, TerminalSeen);
  }

  lemma MarkExpandedLog<S(!new), K(!new)>(d: Discipline<K>, view: map<K, Node<S>>, log: Log<S, K>, k: K, o: Origin<S>)
    requires k in view && DepthsOk(d, view) && LogOk(view, log)
    ensures DepthsOk(d, SetPhase(view, k, Expanded)) && LogOk(SetPhase(view, k, Expanded), Marked(log, k, o))
    ensures Marked(log, k, o).rank.Keys == log.rank.Keys + {k}
  {}

  lemma MarkExpandedEdges<S(!new), K(!new)>(
      g: Grammar<S, K>, ledger: Ledger<K>, d: Discipline<K>, view: map<K, Node<S>>, log: Log<S, K>, k: K, o: Origin<S>)
    requires k in view && view[k].phase.Queued? && AllExpandedOk(g, ledger, d, view, log) && LogOk(view, log)
    requires OriginOk(g, ledger, d, view, log.rank.Keys, k, o) && EdgesOk(g, ledger, d, view, k, o)
    ensures AllExpandedOk(g, ledger, d, SetPhase(view, k, Expanded), Marked(log, k, o))
  {
    NewlyExpanded(g, ledger, d, view, log, k, o);
    AllExpandedPhase(g, ledger, d, view, log, Marked(log, k, o), k, Expanded);
  }

  lemma MarkExpanded<S(!new), K(!new)>(
      g: Grammar<S, K>, ledger: Ledger<K>, d: Discipline<K>, view: map<K, Node<S>>, log: Log<S, K>, k: K, o: Origin<S>)
    requires Explored(g, ledger, d, view, log, log.rank.Keys + {k})
    requires k in view && view[k].phase.Queued? && !view[k].state.terminal
    requires OriginOk(g, ledger, d, view, log.rank.Keys, k, o) && EdgesOk(g, ledger, d, view, k, o)
    ensures Explored(g, ledger, d, SetPhase(view, k, Expanded), Marked(log, k, o), Marked(log, k, o).rank.Keys)
  {
    MarkExpandedLog(d, view, log, k, o);
    NodesPhase(g, ledger, view, log.rank.Keys + {k}, k, Expanded);
    MarkExpandedEdges(g, ledger, d, view, log, k, o);
  }

  lemma LedgerOfLeads<S(!new), K(!new)>(g: Grammar<S, K>, ledger: Ledger<K>, path: seq<Action>, k: K)
    requires Lawful(g, ledger) && Leads(g, path, k)
    ensures Keys(path) * ledger.named == ledger.applied(k)
  {
    var s :| PathTo(g, path, s) && Canon(g, s) == k;
    LedgerOfPath(g, ledger, path, s);
  }

  /** `children` are steps from `s`, and unless `lossy` every step that has no excuse is among them. */
  ghost predicate FrontierOk<S(!new), K(!new)>(
      g: Grammar<S, K>, ledger: Ledger<K>, s: LazyState<S>, o: Origin<S>, children: seq<LazyState<S>>, lossy: bool)
  {
    && (forall x <- children :: ChildOk(g, ledger, s, x))
    && (!lossy ==> forall b, x :: Step(g, ledger, s, b, x) ==> x in children || Excused(g, o.prev, o.last, b))
  }

  /** The run may lose nothing, because it does not reduce or because every skip is excused. */
  ghost predicate Careful<S(!new), K(!new)>(g: Grammar<S, K>, cfg: Config<S>) {
    cfg.por ==> SkipsAreExcused(g)
  }

  /** `o` leads from a state that is not terminal, or from the root, to the form `k`. */
  ghost predicate Arrives<S(!new), K(!new)>(g: Grammar<S, K>, o: Origin<S>, k: K) {
    match o.prev
    case None => exists i <- g.initial :: i.action == o.last && Canon(g, i) == k
    case Some(p) => !p.terminal && exists x :: g.apply(Some(p), o.last) == Some(x) && Canon(g, x) == k
  }

  ghost predicate GenuineWork<S(!new), K(!new)>(g: Grammar<S, K>, w: Work<S, K>) {
    && w.path != [] && w.states != [] && Leads(g, w.path, w.key)
    && InAlphabet(g, OriginOf(w).last) && MadeOrRoot(g, OriginOf(w).prev) && Arrives(g, OriginOf(w), w.key)
  }

  /** Into a record that is expanded, the origin goes on. */
  lemma OriginGoesOn<S(!new), K(!new)>(g: Grammar<S, K>, ledger: Ledger<K>, o: Origin<S>, s: LazyState<S>)
    requires Lawful(g, ledger) && g.made(s) && !s.terminal && Arrives(g, o, Canon(g, s))
    requires InAlphabet(g, o.last) && MadeOrRoot(g, o.prev) && g.apply(o.prev, o.last).Some?
    ensures GoesOn(g, o.prev, o.last)
  {
    var x := g.apply(o.prev, o.last).value;
    match o.prev
    case None =>
      var i :| i in g.initial && i.action == o.last && Canon(g, i) == Canon(g, s);
      var j :| j in g.initial && j.action == o.last && Alike(g, j, x);
      assert Alike(g, i, j);
      assert Alike(g, x, s);
    case Some(p) =>
      assert Alike(g, x, s);
  }

  /** The children of a record are its steps, except those the reduction skips as redundant. */
  lemma ChildrenExactly<S(!new), K(!new)>(
      g: Grammar<S, K>, ledger: Ledger<K>, cfg: Config<S>, node: Node<S>, w: Work<S, K>)
    requires Lawful(g, ledger) && GenuineWork(g, w)
    requires Canon(g, node.state) == w.key && g.made(node.state) && !node.state.terminal
    ensures forall x <- Children(g, cfg, node, w) :: ChildOk(g, ledger, node.state, x)
    ensures forall b, x :: Step(g, ledger, node.state, b, x) ==>
        && (x in Children(g, cfg, node, w)
            || (AppliesPor(g, cfg, node) && Redundant(g, OriginOf(w).prev, OriginOf(w).last, b)))
        && InAlphabet(g, b)
  {
    var s, por := node.state, AppliesPor(g, cfg, node);
    var viable := Viable(g, w, por, g.enabled(s)).actions;
    LedgerOfLeads(g, ledger, w.path, w.key);
    forall x | x in Children(g, cfg, node, w) ensures ChildOk(g, ledger, s, x) {
      RealizedMembers(g, s, viable, x);
      var a :| a in viable && g.apply(Some(s), a) == Some(x);
      ViableMembers(g, w, por, g.enabled(s), a);
      BlockedByLedger(g, ledger, s, a, Keys(w.path));
    }
    forall b, x | Step(g, ledger, s, b, x)
      ensures x in Children(g, cfg, node, w) || (por && Redundant(g, OriginOf(w).prev, OriginOf(w).last, b))
      ensures InAlphabet(g, b)
    {
      BlockedByLedger(g, ledger, s, b, Keys(w.path));
      ViableMembers(g, w, por, g.enabled(s), b);
      RealizedMembers(g, s, viable, x);
    }
  }

  lemma ChildrenAreSteps<S(!new), K(!new)>(
      g: Grammar<S, K>, ledger: Ledger<K>, cfg: Config<S>, node: Node<S>, w: Work<S, K>, lossy: bool)
    requires Lawful(g, ledger) && GenuineWork(g, w) && (Careful(g, cfg) || lossy)
    requires Canon(g, node.state) == w.key && g.made(node.state) && !node.state.terminal
    ensures FrontierOk(g, ledger, node.state, OriginOf(w), Children(g, cfg, node, w), lossy)
  {
    ChildrenExactly(g, ledger, cfg, node, w);
    hide Children, InAlphabet, Step, Arrives, Lawful, ChildOk;
    if g.apply(OriginOf(w).prev, OriginOf(w).last).Some? {
      OriginGoesOn(g, ledger, OriginOf(w), node.state);
    }
  }

  /** The frontier the policy ranked still has every step that is not redundant. */
  lemma RankedFrontier<S(!new), K(!new)>(
      g: Grammar<S, K>, ledger: Ledger<K>, cfg: Config<S>, node: Node<S>, w: Work<S, K>, lossy: bool)
    requires Lawful(g, ledger) && GenuineWork(g, w) && (Careful(g, cfg) || lossy)
    requires Canon(g, node.state) == w.key && g.made(node.state) && !node.state.terminal
    requires |Scores(g, cfg, node, w)| == |Children(g, cfg, node, w)|
    ensures FrontierOk(g, ledger, node.state, OriginOf(w), Ranked(Children(g, cfg, node, w), Scores(g, cfg, node, w)),
        lossy)
  {
    ChildrenAreSteps(g, ledger, cfg, node, w, lossy);
    RankingNeverDeletes(Children(g, cfg, node, w), Scores(g, cfg, node, w));
  }

  lemma EdgesFromChildren<S(!new), K(!new)>(
      g: Grammar<S, K>, ledger: Ledger<K>, d: Discipline<K>, view: map<K, Node<S>>, k: K, o: Origin<S>,
      children: seq<LazyState<S>>, depth: nat)
    requires k in view && AllIn(g, d, view, children, depth) && (!d.Loose? ==> depth <= view[k].depthMinimum + 1)
    requires FrontierOk(g, ledger, view[k].state, o, children, Lossy(d))
    ensures EdgesOk(g, ledger, d, view, k, o)
  {}

  /** Interning a frontier that has every step but the redundant ones settles the record's edges. */
  lemma FrontierKeeps<S(!new), K(!new)>(
      g: Grammar<S, K>, ledger: Ledger<K>, d: Discipline<K>, cfg: Config<S>, sn: Snapshot<S, K>, log: Log<S, K>,
      w: Work<S, K>, s: LazyState<S>, depth: nat, frontier: seq<LazyState<S>>)
    requires Lawful(g, ledger) && w.path != [] && w.states != []
    requires Expanding(g, ledger, d, sn, log, log.rank.Keys + {w.key}, w, s, depth)
    requires FrontierOk(g, ledger, s, OriginOf(w), frontier, Lossy(d))
    ensures var r := AddChildren(g, cfg, sn, w, s, depth + 1, frontier);
            && Expanding(g, ledger, d, r, log, log.rank.Keys + {w.key}, w, s, depth)
            && Grows(d, sn.view, r.view) && r.terminals == sn.terminals
            && EdgesOk(g, ledger, d, r.view, w.key, OriginOf(w))
  {
    ChildrenKeep(g, ledger, d, cfg, sn, log, log.rank.Keys + {w.key}, w, s, depth, frontier);
    var r := AddChildren(g, cfg, sn, w, s, depth + 1, frontier);
    EdgesFromChildren(g, ledger, d, r.view, w.key, OriginOf(w), frontier, depth + 1);
  }

  lemma InitialGrows<S(!new), K(!new)>(g: Grammar<S, K>, d: Discipline<K>, d': Discipline<K>, before: map<K, Node<S>>,
        after: map<K, Node<S>>)
    requires InitialIn(g, d, before) && before.Keys <= after.Keys && (d.Loose? <==> d'.Loose?)
    requires !d.Loose? ==> forall k <- before :: after[k].depthMinimum == before[k].depthMinimum
    ensures InitialIn(g, d', after)
  {}

  ghost predicate TerminalsOk<S(!new), K(!new)>(view: map<K, Node<S>>, terminals: set<K>) {
    forall k :: k in terminals <==> k in view && view[k].phase.TerminalSeen?
  }

  lemma PopTerminal<S(!new), K(!new)>(
      g: Grammar<S, K>, ledger: Ledger<K>, d: Discipline<K>, sn: Snapshot<S, K>, log: Log<S, K>)
    requires SearchOk(g, ledger, d, sn, log) && sn.queue != [] && sn.queue[0].key in sn.view
    requires sn.view[sn.queue[0].key].state.terminal
    ensures var k := sn.queue[0].key;
            SearchOk(g, ledger, Advance(d, sn.view[k].depthMinimum),
                     sn.(queue := sn.queue[1..], view := SetPhase(sn.view, k, TerminalSeen),
                       terminals := sn.terminals + {k}), log)
  {
    hide Explored, QueueOk, OriginOk, Leads, InitialIn;
    var k := sn.queue[0].key;
    var d' := Advance(d, sn.view[k].depthMinimum);
    TakeHead(g, ledger, d, sn, log);
    MarkTerminal(g, ledger, d', sn.view, log, log.rank.Keys, k);
    PhaseChange(g, ledger, d', sn.view, log.rank.Keys, sn.queue[1..], k, TerminalSeen);
    InitialGrows(g, d, d', sn.view, SetPhase(sn.view, k, TerminalSeen));
  }

  /** The tables before and after the children of `w` are interned, and after `w` is marked. */
  lemma PopMarks<S(!new), K(!new)>(
      g: Grammar<S, K>, ledger: Ledger<K>, d: Discipline<K>, view: map<K, Node<S>>, r: Snapshot<S, K>, log: Log<S, K>,
      w: Work<S, K>, s: LazyState<S>, depth: nat)
    requires WorkOk(g, ledger, d, view, log.rank.Keys, w) && view[w.key].state == s && !s.terminal
    requires Expanding(g, ledger, d, r, log, log.rank.Keys + {w.key}, w, s, depth)
    requires Grows(d, view, r.view) && EdgesOk(g, ledger, d, r.view, w.key, OriginOf(w))
    requires InitialIn(g, d, r.view) && TerminalsOk(r.view, r.terminals)
    ensures SearchOk(g, ledger, d, r.(view := SetPhase(r.view, w.key, Expanded)), Marked(log, w.key, OriginOf(w)))
  {
    hide NodesOk, AllExpandedOk, ItemsOk, NoneLost, Layered, InitialIn, EdgesOk;
    WorkGrows(g, ledger, d, view, r.view, log.rank.Keys, w);
    var log' := Marked(log, w.key, OriginOf(w));
    assert log'.rank.Keys == log.rank.Keys + {w.key};
    MarkExpanded(g, ledger, d, r.view, log, w.key, OriginOf(w));
    PhaseChange(g, ledger, d, r.view, log'.rank.Keys, r.queue, w.key, Expanded);
    InitialGrows(g, d, d, r.view, SetPhase(r.view, w.key, Expanded));
  }

  lemma BeginExpanding<S(!new), K(!new)>(
      g: Grammar<S, K>, ledger: Ledger<K>, d: Discipline<K>, sn: Snapshot<S, K>, log: Log<S, K>, counts: Counts)
    requires SearchOk(g, ledger, d, sn, log) && sn.queue != []
    ensures var w := sn.queue[0];
            && WorkOk(g, ledger, d, sn.view, log.rank.Keys, w)
            && WorkOk(g, ledger, Advance(d, sn.view[w.key].depthMinimum), sn.view, log.rank.Keys, w)
            && var node := sn.view[w.key];
               Expanding(g, ledger, Advance(d, node.depthMinimum), sn.(queue := sn.queue[1..], counts := counts), log,
                         log.rank.Keys + {w.key}, w, node.state, node.depthMinimum)
  {
    var w := sn.queue[0];
    TakeHead(g, ledger, d, sn, log);
    var d' := Advance(d, sn.view[w.key].depthMinimum);
    DoneGrows(g, ledger, d', sn.view, log, log.rank.Keys, log.rank.Keys + {w.key}, sn.queue[1..], Some(w.key));
    assert NodeOk(g, ledger, log.rank.Keys, w.key, sn.view[w.key]);
  }

  lemma PopExpands<S(!new), K(!new)>(
      g: Grammar<S, K>, ledger: Ledger<K>, d: Discipline<K>, cfg: Config<S>, sn: Snapshot<S, K>, log: Log<S, K>,
      counts: Counts, frontier: seq<LazyState<S>>)
    requires Lawful(g, ledger) && SearchOk(g, ledger, d, sn, log) && sn.queue != []
    requires sn.queue[0].key in sn.view && sn.queue[0].path != [] && sn.queue[0].states != []
    requires !sn.view[sn.queue[0].key].state.terminal
    requires FrontierOk(g, ledger, sn.view[sn.queue[0].key].state, OriginOf(sn.queue[0]), frontier, Lossy(d))
    ensures var w := sn.queue[0];
            var node := sn.view[w.key];
            var r := AddChildren(g, cfg, sn.(queue := sn.queue[1..], counts := counts), w, node.state,
                node.depthMinimum + 1, frontier);
            SearchOk(g, ledger, Advance(d, node.depthMinimum), r.(view := SetPhase(r.view, w.key, Expanded)),
                     Marked(log, w.key, OriginOf(w)))
  {
    hide Explored, QueueOk, Expanding, WorkOk, EdgesOk, FrontierOk, TerminalsOk, InitialIn, Lawful, AddChildren;
    var w := sn.queue[0];
    var node := sn.view[w.key];
    var d', rest := Advance(d, node.depthMinimum), sn.(queue := sn.queue[1..], counts := counts);
    TakeHead(g, ledger, d, sn, log);
    BeginExpanding(g, ledger, d, sn, log, counts);
    FrontierKeeps(g, ledger, d', cfg, rest, log, w, node.state, node.depthMinimum, frontier);
    var r := AddChildren(g, cfg, rest, w, node.state, node.depthMinimum + 1, frontier);
    InitialGrows(g, d, d', sn.view, r.view);
    TerminalsKeep(g, cfg, rest, w, node.state, node.depthMinimum + 1, frontier);
    PopMarks(g, ledger, d', sn.view, r, log, w, node.state, node.depthMinimum);
  }

  lemma {:induction false} TerminalsKeep<S(!new), K(!new)>(
      g: Grammar<S, K>, cfg: Config<S>, sn: Snapshot<S, K>, w: Work<S, K>, s: LazyState<S>, depth: nat,
      children: seq<LazyState<S>>)
    requires TerminalsOk(sn.view, sn.terminals)
    ensures var r := AddChildren(g, cfg, sn, w, s, depth, children); TerminalsOk(r.view, r.terminals)
    decreases |children|
  {
    if children != [] {
      TerminalsKeep(g, cfg, sn, w, s, depth, children[..|children| - 1]);
    }
  }

  lemma HeadFacts<S(!new), K(!new)>(
      g: Grammar<S, K>, ledger: Ledger<K>, d: Discipline<K>, sn: Snapshot<S, K>, log: Log<S, K>)
    requires SearchOk(g, ledger, d, sn, log) && sn.queue != []
    ensures var w := sn.queue[0];
            && w.path != [] && w.states != [] && GenuineWork(g, w) && w.key in sn.view
            && Canon(g, sn.view[w.key].state) == w.key && g.made(sn.view[w.key].state)
                && !sn.view[w.key].phase.Expanded?
  {
    hide AllExpandedOk, ItemsDistinct, NoneLost, Layered, InitialIn, TerminalsOk, Leads, ParentDone;
    var w := sn.queue[0];
    assert WorkOk(g, ledger, d, sn.view, log.rank.Keys, w);
    assert NodeOk(g, ledger, log.rank.Keys, w.key, sn.view[w.key]);
  }

  /** Every pop keeps the invariant. */
  lemma PopKeeps<S(!new), K(!new)>(
      g: Grammar<S, K>, ledger: Ledger<K>, d: Discipline<K>, cfg: Config<S>, sn: Snapshot<S, K>, log: Log<S, K>)
    returns (d': Discipline<K>, log': Log<S, K>)
    requires Lawful(g, ledger) && SearchOk(g, ledger, d, sn, log) && sn.queue != []
    requires Careful(g, cfg) || Lossy(d)
    ensures sn.queue[0].path != [] && sn.queue[0].states != [] && sn.queue[0].key in sn.view
    ensures Pop(g, cfg, sn).Some? ==> SearchOk(g, ledger, d', Pop(g, cfg, sn).value, log')
    ensures (d'.Loose? <==> d.Loose?) && (d'.Levelled? <==> d.Levelled?) && (!d.Fifo? ==> d' == d)
  {
    hide Lawful, SearchOk, GenuineWork, AddChildren, Ranked, Charged, Children, Scores, FrontierOk, Careful;
    HeadFacts(g, ledger, d, sn, log);
    var w := sn.queue[0];
    var node := sn.view[w.key];
    d', log' := Advance(d, node.depthMinimum), log;
    if node.state.terminal {
      PopTerminal(g, ledger, d, sn, log);
    } else if |Scores(g, cfg, node, w)| == |Children(g, cfg, node, w)| {
      log' := Marked(log, w.key, OriginOf(w));
      RankedFrontier(g, ledger, cfg, node, w, Lossy(d));
      var counts := Charged(g, cfg, sn.counts, node, w);
      PopExpands(g, ledger, d, cfg, sn, log, counts, Ranked(Children(g, cfg, node, w), Scores(g, cfg, node, w)));
    }
  }
}

/** Depths in searches without reduction: which checkpoints a search can be resumed from without
    losing shortest distances. */
module Layers {
  import opened Actions
  import opened Grammars
  import opened Exploration
  import opened Soundness
  import opened Steps
  import opened Completeness
  import opened Engine

  /** Every form at distance at most `h` is recorded, at no more than its distance. */
  ghost predicate Near<S(!new), K(!new)>(g: Grammar<S, K>, view: map<K, Node<S>>, h: nat) {
    forall n: nat, k :: n <= h && ReachedIn(g, n, k) ==> k in view && view[k].depthMinimum <= n
  }

  ghost predicate EdgesIn<S(!new), K(!new)>(g: Grammar<S, K>, ledger: Ledger<K>, view: map<K, Node<S>>, k: K)
    requires k in view
  {
    forall b, x :: Step(g, ledger, view[k].state, b, x) ==>
      Canon(g, x) in view && view[Canon(g, x)].depthMinimum <= view[k].depthMinimum + 1
  }

  /** Nothing of an expanded record is missing. */
  ghost predicate AllEdgesIn<S(!new), K(!new)>(g: Grammar<S, K>, ledger: Ledger<K>, view: map<K, Node<S>>) {
    forall k <- view :: view[k].phase.Expanded? ==> EdgesIn(g, ledger, view, k)
  }

  ghost predicate ExpandedWithin<S(!new), K(!new)>(view: map<K, Node<S>>, h: nat) {
    forall k <- view :: view[k].phase.Expanded? ==> view[k].depthMinimum <= h
  }

  ghost predicate ItemsWithin<S(!new), K(!new)>(sn: Snapshot<S, K>, from: nat, to: nat, low: nat)
    requires from <= to <= |sn.queue|
  {
    forall i :: from <= i < to ==> low <= DepthOf(sn.view, sn.queue[i].key) <= low + 1
  }

  /** The queue is worked off in generations: its first `m` items have depth `h` or `h + 1`, and
      what they lead to queues up behind them. */
  ghost predicate Band<S(!new), K(!new)>(g: Grammar<S, K>, ledger: Ledger<K>, sn: Snapshot<S, K>, h: nat, m: nat) {
    && m <= |sn.queue| && Near(g, sn.view, h) && AllEdgesIn(g, ledger, sn.view) && ExpandedWithin(sn.view, h + 1)
    && ItemsWithin(sn, 0, m, h) && ItemsWithin(sn, m, |sn.queue|, h + 1)
  }

  // ---------- interning children at one depth ----------

  ghost predicate NodeJoins<S(!new)>(before: Node<S>, after: Node<S>, depth: nat) {
    && after.state == before.state && after.phase == before.phase
    && (after.depthMinimum == before.depthMinimum || after.depthMinimum == depth < before.depthMinimum)
  }

  ghost predicate ViewJoins<S(!new), K(!new)>(before: map<K, Node<S>>, after: map<K, Node<S>>, depth: nat) {
    && before.Keys <= after.Keys
    && (forall k <- before :: NodeJoins(before[k], after[k], depth))
    && (forall k <- after :: k !in before ==> after[k].depthMinimum == depth && after[k].phase.Queued?)
  }

  ghost predicate QueueJoins<S(!new), K(!new)>(before: Snapshot<S, K>, after: Snapshot<S, K>, depth: nat) {
    && |before.queue| <= |after.queue| && after.queue[..|before.queue|] == before.queue
    && forall i :: |before.queue| <= i < |after.queue| ==>
         after.queue[i].key in after.view && after.view[after.queue[i].key].depthMinimum == depth
  }

  /** `after` is `before` with states interned at `depth`. */
  ghost predicate Joins<S(!new), K(!new)>(before: Snapshot<S, K>, after: Snapshot<S, K>, depth: nat) {
    ViewJoins(before.view, after.view, depth) && QueueJoins(before, after, depth)
  }

  lemma AddStateJoins<S(!new), K(!new)>(
      g: Grammar<S, K>, cfg: Config<S>, sn: Snapshot<S, K>, s: LazyState<S>, parent: Option<K>,
      depth: nat, path: seq<Action>, states: seq<Option<LazyState<S>>>)
    ensures var r := AddState(g, cfg, sn, s, parent, depth, path, states);
            && Joins(sn, r, depth) && Canon(g, s) in r.view && r.view[Canon(g, s)].depthMinimum <= depth
  {}

  lemma JoinsTransitive<S(!new), K(!new)>(a: Snapshot<S, K>, b: Snapshot<S, K>, c: Snapshot<S, K>, depth: nat)
    requires Joins(a, b, depth) && Joins(b, c, depth)
    ensures Joins(a, c, depth)
  {
    forall k | k in a.view ensures NodeJoins(a.view[k], c.view[k], depth) {
      assert NodeJoins(a.view[k], b.view[k], depth) && NodeJoins(b.view[k], c.view[k], depth);
    }
    forall k | k in c.view && k !in a.view ensures c.view[k].depthMinimum == depth && c.view[k].phase.Queued? {
      assert k in b.view ==> NodeJoins(b.view[k], c.view[k], depth);
    }
    assert c.queue[..|a.queue|] == c.queue[..|b.queue|][..|a.queue|];
    forall i | |a.queue| <= i < |c.queue|
      ensures c.queue[i].key in c.view && c.view[c.queue[i].key].depthMinimum == depth
    {
      if i < |b.queue| {
        assert c.queue[..|b.queue|][i] == b.queue[i];
        assert NodeJoins(b.view[b.queue[i].key], c.view[b.queue[i].key], depth);
      }
    }
  }

  lemma {:induction false} AddChildrenJoins<S(!new), K(!new)>(
      g: Grammar<S, K>, cfg: Config<S>, sn: Snapshot<S, K>, w: Work<S, K>, s: LazyState<S>, depth: nat,
      children: seq<LazyState<S>>)
    ensures var r := AddChildren(g, cfg, sn, w, s, depth, children);
            && Joins(sn, r, depth)
            && forall x <- children :: Canon(g, x) in r.view && r.view[Canon(g, x)].depthMinimum <= depth
    decreases |children|
  {
    hide AddState;
    if children != [] {
      var n, x := |children| - 1, children[|children| - 1];
      var before, r := AddChildren(g, cfg, sn, w, s, depth, children[..n]), AddChildren(g, cfg, sn, w, s, depth,
          children);
      AddChildrenJoins(g, cfg, sn, w, s, depth, children[..n]);
      AddStateJoins(g, cfg, before, x, Some(w.key), depth, w.path + [x.action], w.states + [Some(s)]);
      JoinsTransitive(sn, before, r, depth);
      forall y | y in children ensures Canon(g, y) in r.view && r.view[Canon(g, y)].depthMinimum <= depth {
        if y != x {
          assert y in children[..n];
          assert NodeJoins(before.view[Canon(g, y)], r.view[Canon(g, y)], depth);
        }
      }
    }
  }

  // ---------- one pop ----------

  /** Without reduction the frontier has every step. */
  lemma PlainFrontier<S(!new), K(!new)>(
      g: Grammar<S, K>, ledger: Ledger<K>, cfg: Config<S>, node: Node<S>, w: Work<S, K>, b: Action, x: LazyState<S>)
    requires Lawful(g, ledger) && !cfg.por && GenuineWork(g, w)
    requires Canon(g, node.state) == w.key && g.made(node.state) && Step(g, ledger, node.state, b, x)
    requires |Scores(g, cfg, node, w)| == |Children(g, cfg, node, w)|
    ensures x in Ranked(Children(g, cfg, node, w), Scores(g, cfg, node, w))
  {
    hide RankedPairs, Ranked;
    LedgerOfLeads(g, ledger, w.path, w.key);
    BlockedByLedger(g, ledger, node.state, b, Keys(w.path));
    ViableMembers(g, w, false, g.enabled(node.state), b);
    RealizedMembers(g, node.state, Viable(g, w, false, g.enabled(node.state)).actions, x);
    RankingNeverDeletes(Children(g, cfg, node, w), Scores(g, cfg, node, w));
  }

  lemma NearGrows<S(!new), K(!new)>(g: Grammar<S, K>, before: map<K, Node<S>>, after: map<K, Node<S>>, h: nat)
    requires Near(g, before, h)
    requires before.Keys <= after.Keys && forall k <- before :: after[k].depthMinimum <= before[k].depthMinimum
    ensures Near(g, after, h)
  {
    hide ReachedIn;
  }

  /** Records within the band keep their depths when states are interned beyond it. */
  lemma JoinsBeyond<S(!new), K(!new)>(
      g: Grammar<S, K>, ledger: Ledger<K>, before: map<K, Node<S>>, after: map<K, Node<S>>, h: nat, depth: nat)
    requires ViewJoins(before, after, depth) && h + 1 <= depth
    requires Near(g, before, h) && AllEdgesIn(g, ledger, before) && ExpandedWithin(before, h + 1)
    ensures Near(g, after, h) && AllEdgesIn(g, ledger, after) && ExpandedWithin(after, h + 1)
    ensures forall k <- before :: before[k].depthMinimum <= h + 1 ==> after[k].depthMinimum == before[k].depthMinimum
  {
    assert forall k <- before :: NodeJoins(before[k], after[k], depth);
    NearGrows(g, before, after, h);
    hide Near, ReachedIn;
    forall k | k in after && after[k].phase.Expanded?
        ensures EdgesIn(g, ledger, after, k) && after[k].depthMinimum <= h + 1 {
      assert k in before && before[k].phase.Expanded?;
      EdgesKept(g, ledger, before, after, k);
    }
  }

  lemma EdgesKept<S(!new), K(!new)>(g: Grammar<S, K>, ledger: Ledger<K>, before: map<K, Node<S>>, after: map<K,
        Node<S>>, k: K)
    requires k in before && EdgesIn(g, ledger, before, k)
    requires before.Keys <= after.Keys && forall i <- before :: after[i].depthMinimum <= before[i].depthMinimum
    requires after[k].state == before[k].state && after[k].depthMinimum == before[k].depthMinimum
    ensures EdgesIn(g, ledger, after, k)
  {
    forall b, x | Step(g, ledger, after[k].state, b, x)
      ensures Canon(g, x) in after && after[Canon(g, x)].depthMinimum <= after[k].depthMinimum + 1
    {
      assert Canon(g, x) in before;
    }
  }

  lemma JoinsItems<S(!new), K(!new)>(before: Snapshot<S, K>, after: Snapshot<S, K>, h: nat, m: nat, depth: nat)
    requires Joins(before, after, depth) && h + 1 <= depth <= h + 2 && m <= |before.queue|
    requires ItemsWithin(before, 0, m, h) && ItemsWithin(before, m, |before.queue|, h + 1)
    requires forall i :: 0 <= i < |before.queue| ==> before.queue[i].key in before.view
    ensures ItemsWithin(after, 0, m, h) && ItemsWithin(after, m, |after.queue|, h + 1)
  {
    forall i | 0 <= i < |after.queue|
      ensures var low := if i < m then h else h + 1; low <= DepthOf(after.view, after.queue[i].key) <= low + 1
    {
      if i < |before.queue| {
        assert after.queue[..|before.queue|][i] == before.queue[i];
        var k := before.queue[i].key;
        assert NodeJoins(before.view[k], after.view[k], depth);
      }
    }
  }

  lemma TailWithin<S(!new), K(!new)>(sn: Snapshot<S, K>, counts: Counts, h: nat, m: nat)
    requires 0 < m <= |sn.queue| && ItemsWithin(sn, 0, m, h) && ItemsWithin(sn, m, |sn.queue|, h + 1)
    ensures var rest := sn.(queue := sn.queue[1..], counts := counts);
            ItemsWithin(rest, 0, m - 1, h) && ItemsWithin(rest, m - 1, |rest.queue|, h + 1)
  {
    forall i | 0 <= i < |sn.queue[1..]| ensures sn.queue[1..][i] == sn.queue[i + 1] {}
  }

  /** Marking a record changes no depth. */
  lemma BandMarks<S(!new), K(!new)>(
      g: Grammar<S, K>, ledger: Ledger<K>, sn: Snapshot<S, K>, marked: Snapshot<S, K>, h: nat, m: nat, k: K,
      phase: Phase)
    requires Band(g, ledger, sn, h, m) && k in sn.view && marked.queue == sn.queue
        && marked.view == SetPhase(sn.view, k, phase)
    requires phase.Expanded? ==> sn.view[k].depthMinimum <= h + 1 && EdgesIn(g, ledger, sn.view, k)
    ensures Band(g, ledger, marked, h, m)
  {
    var after := marked.view;
    NearGrows(g, sn.view, after, h);
    forall i | i in after && after[i].phase.Expanded?
        ensures EdgesIn(g, ledger, after, i) && after[i].depthMinimum <= h + 1 {
      EdgesKept(g, ledger, sn.view, after, i);
    }
    hide Near, AllEdgesIn, EdgesIn;
    forall i | 0 <= i < |sn.queue| ensures DepthOf(after, marked.queue[i].key) == DepthOf(sn.view, sn.queue[i].key) {}
  }

  lemma KeysInView<S(!new), K(!new)>(
      g: Grammar<S, K>, ledger: Ledger<K>, d: Discipline<K>, sn: Snapshot<S, K>, log: Log<S, K>)
    requires SearchOk(g, ledger, d, sn, log)
    ensures forall i :: 0 <= i < |sn.queue| ==> sn.queue[i].key in sn.view && sn.view[sn.queue[i].key].phase.Queued?
  {
    hide Explored, NoneLost, Layered, InitialIn, TerminalsOk, Leads, OriginOk;
    forall i | 0 <= i < |sn.queue| ensures sn.queue[i].key in sn.view && sn.view[sn.queue[i].key].phase.Queued? {
      assert WorkOk(g, ledger, d, sn.view, log.rank.Keys, sn.queue[i]);
    }
  }

  /** A pop from within the band: what it finds belongs to the next generation. */
  lemma BandPops<S(!new), K(!new)>(
      g: Grammar<S, K>, ledger: Ledger<K>, d: Discipline<K>, cfg: Config<S>, sn: Snapshot<S, K>, log: Log<S, K>,
      after: Snapshot<S, K>, h: nat, m: nat)
    requires Lawful(g, ledger) && !cfg.por && SearchOk(g, ledger, d, sn, log) && Popped(g, cfg, sn, after)
    requires Band(g, ledger, sn, h, m) && m > 0
    ensures Band(g, ledger, after, h, m - 1)
  {
    hide Lawful, SearchOk, Near, AllEdgesIn, EdgesIn, ExpandedWithin, ItemsWithin, Children, Scores, Charged, Ranked,
        Joins, ViewJoins, GenuineWork, Step, AddChildren;
    HeadFacts(g, ledger, d, sn, log);
    KeysInView(g, ledger, d, sn, log);
    var w := sn.queue[0];
    var node := sn.view[w.key];
    assert h <= node.depthMinimum <= h + 1 by { HeadWithin(sn, h, m); }
    if node.state.terminal {
      TailWithin(sn, sn.counts, h, m);
      BandMarks(g, ledger, sn.(queue := sn.queue[1..]), after, h, m - 1, w.key, TerminalSeen);
    } else {
      var rest, depth := sn.(queue := sn.queue[1..],
          counts := Charged(g, cfg, sn.counts, node, w)), node.depthMinimum + 1;
      var frontier := Ranked(Children(g, cfg, node, w), Scores(g, cfg, node, w));
      var grown := AddChildren(g, cfg, rest, w, node.state, depth, frontier);
      TailWithin(sn, rest.counts, h, m);
      AddChildrenJoins(g, cfg, rest, w, node.state, depth, frontier);
      GrownBand(g, ledger, rest, grown, h, m - 1, depth, w.key);
      assert EdgesIn(g, ledger, grown.view, w.key) by {
        AllStepsIn(g, ledger, cfg, node, w, grown.view);
      }
      BandMarks(g, ledger, grown, after, h, m - 1, w.key, Expanded);
    }
  }

  lemma HeadWithin<S(!new), K(!new)>(sn: Snapshot<S, K>, h: nat, m: nat)
    requires 0 < m <= |sn.queue| && ItemsWithin(sn, 0, m, h) && sn.queue[0].key in sn.view
    ensures h <= sn.view[sn.queue[0].key].depthMinimum <= h + 1
  {
    assert h <= DepthOf(sn.view, sn.queue[0].key) <= h + 1;
  }

  lemma GrownBand<S(!new), K(!new)>(
      g: Grammar<S, K>, ledger: Ledger<K>, rest: Snapshot<S, K>, grown: Snapshot<S, K>, h: nat, m: nat, depth: nat,
      k: K)
    requires m <= |rest.queue| && Near(g, rest.view, h) && AllEdgesIn(g, ledger, rest.view)
        && ExpandedWithin(rest.view, h + 1)
    requires ItemsWithin(rest, 0, m, h) && ItemsWithin(rest, m, |rest.queue|, h + 1)
    requires forall i :: 0 <= i < |rest.queue| ==> rest.queue[i].key in rest.view
    requires Joins(rest, grown, depth) && h + 1 <= depth <= h + 2 && k in rest.view
        && rest.view[k].depthMinimum <= h + 1
    ensures Band(g, ledger, grown, h, m) && k in grown.view
    ensures grown.view[k].depthMinimum == rest.view[k].depthMinimum && grown.view[k].state == rest.view[k].state
  {
    hide Near, AllEdgesIn, ExpandedWithin, ItemsWithin, EdgesIn;
    JoinsBeyond(g, ledger, rest.view, grown.view, h, depth);
    JoinsItems(rest, grown, h, m, depth);
    assert NodeJoins(rest.view[k], grown.view[k], depth);
  }

  lemma AllStepsIn<S(!new), K(!new)>(
      g: Grammar<S, K>, ledger: Ledger<K>, cfg: Config<S>, node: Node<S>, w: Work<S, K>, view: map<K, Node<S>>)
    requires Lawful(g, ledger) && !cfg.por && GenuineWork(g, w) && w.path != [] && w.states != []
    requires Canon(g, node.state) == w.key && g.made(node.state)
    requires |Scores(g, cfg, node, w)| == |Children(g, cfg, node, w)|
    requires w.key in view && view[w.key].state == node.state && view[w.key].depthMinimum == node.depthMinimum
    requires forall x <- Ranked(Children(g, cfg, node, w), Scores(g, cfg, node, w)) ::
               Canon(g, x) in view && view[Canon(g, x)].depthMinimum <= node.depthMinimum + 1
    ensures EdgesIn(g, ledger, view, w.key)
  {
    hide Children, Scores, Ranked, Lawful, GenuineWork;
    forall b, x | Step(g, ledger, node.state, b, x)
      ensures Canon(g, x) in view && view[Canon(g, x)].depthMinimum <= node.depthMinimum + 1
    {
      PlainFrontier(g, ledger, cfg, node, w, b, x);
    }
  }

  // ---------- generations ----------

  /** Once nothing of depth `h` waits any more, everything at distance `h + 1` is recorded. */
  lemma NearNext<S(!new), K(!new)>(
      g: Grammar<S, K>, ledger: Ledger<K>, d: Discipline<K>, sn: Snapshot<S, K>, log: Log<S, K>, h: nat)
    requires Lawful(g, ledger) && SearchOk(g, ledger, d, sn, log)
    requires Near(g, sn.view, h) && AllEdgesIn(g, ledger, sn.view)
    requires forall k <- sn.view :: sn.view[k].phase.Queued? ==> sn.view[k].depthMinimum > h
    ensures Near(g, sn.view, h + 1)
  {
    hide Lawful, QueueOk, AllExpandedOk, LogOk, InitialIn, TerminalsOk, Leads, ParentDone;
    forall n: nat, k | n <= h + 1 && ReachedIn(g, n, k) ensures k in sn.view && sn.view[k].depthMinimum <= n {
      if n == h + 1 {
        var path, s :| |path| == n + 1 && PathTo(g, path, s) && Canon(g, s) == k;
        var p := LastStep(g, ledger, path, s);
        ReachableByPath(g, path[..n], p);
        var q := Canon(g, p);
        assert q in sn.view && sn.view[q].depthMinimum <= h;
        assert NodeOk(g, ledger, log.rank.Keys, q, sn.view[q]);
        assert Alike(g, p, sn.view[q].state);
        var s' := StepAlike(g, ledger, p, sn.view[q].state, path[n], s);
        assert EdgesIn(g, ledger, sn.view, q);
      }
    }
  }

  lemma QueuedIsItem<S(!new), K(!new)>(
      g: Grammar<S, K>, ledger: Ledger<K>, d: Discipline<K>, sn: Snapshot<S, K>, log: Log<S, K>, k: K) returns (i: nat)
    requires SearchOk(g, ledger, d, sn, log) && k in sn.view && sn.view[k].phase.Queued?
    ensures i < |sn.queue| && sn.queue[i].key == k
  {
    hide Explored, ItemsOk, Layered, InitialIn, TerminalsOk;
    assert HasItem(sn.queue, k);
    var w :| w in sn.queue && w.key == k;
    i :| 0 <= i < |sn.queue| && sn.queue[i] == w;
  }

  /** When a generation is worked off, the next one begins. */
  lemma BandTurns<S(!new), K(!new)>(
      g: Grammar<S, K>, ledger: Ledger<K>, d: Discipline<K>, sn: Snapshot<S, K>, log: Log<S, K>, h: nat)
    requires Lawful(g, ledger) && SearchOk(g, ledger, d, sn, log) && Band(g, ledger, sn, h, 0)
    ensures Band(g, ledger, sn, h + 1, |sn.queue|)
  {
    hide Lawful, SearchOk, AllEdgesIn, Near;
    forall k | k in sn.view && sn.view[k].phase.Queued? ensures sn.view[k].depthMinimum > h {
      var i := QueuedIsItem(g, ledger, d, sn, log, k);
    }
    NearNext(g, ledger, d, sn, log, h);
  }

  ghost predicate Banded<S(!new), K(!new)>(g: Grammar<S, K>, ledger: Ledger<K>, sn: Snapshot<S, K>) {
    exists h: nat, m: nat :: Band(g, ledger, sn, h, m)
  }

  lemma PopKeepsBand<S(!new), K(!new)>(
      g: Grammar<S, K>, ledger: Ledger<K>, d: Discipline<K>, cfg: Config<S>, sn: Snapshot<S, K>, log: Log<S, K>,
      after: Snapshot<S, K>)
    requires Lawful(g, ledger) && !cfg.por && SearchOk(g, ledger, d, sn, log) && Popped(g, cfg, sn, after)
    requires Banded(g, ledger, sn)
    ensures Banded(g, ledger, after)
  {
    hide Lawful, SearchOk, Band, Pop;
    var h: nat, m: nat :| Band(g, ledger, sn, h, m);
    if m == 0 {
      BandTurns(g, ledger, d, sn, log, h);
      BandPops(g, ledger, d, cfg, sn, log, after, h + 1, |sn.queue|);
    } else {
      BandPops(g, ledger, d, cfg, sn, log, after, h, m);
    }
  }

  /** The invariant of an unreduced search, carried along a whole run. */
  lemma {:induction false} RunKeepsBand<S(!new), K(!new)>(
      g: Grammar<S, K>, ledger: Ledger<K>, d: Discipline<K>, cfg: Config<S>, first: Snapshot<S, K>, log: Log<S, K>,
      n: nat, last: Snapshot<S, K>)
    returns (d': Discipline<K>, log': Log<S, K>)
    requires Lawful(g, ledger) && !cfg.por && SearchOk(g, ledger, d, first, log) && Banded(g, ledger, first)
    requires Ran(g, cfg, first, n, last)
    ensures SearchOk(g, ledger, d', last, log') && Banded(g, ledger, last)
    ensures (d'.Fifo? <==> d.Fifo?) && (!d.Fifo? ==> d' == d)
    decreases n
  {
    hide Lawful, SearchOk, Banded, Pop;
    d', log' := d, log;
    if n > 0 {
      var mid :| Ran(g, cfg, first, n - 1, mid) && !Spent(cfg, mid, n - 1) && Popped(g, cfg, mid, last);
      var e, lg := RunKeepsBand(g, ledger, d, cfg, first, log, n - 1, mid);
      PopKeepsBand(g, ledger, e, cfg, mid, lg, last);
      d', log' := PopKeeps(g, ledger, e, cfg, mid, lg);
    }
  }

  lemma StartIsBanded<S(!new), K(!new)>(g: Grammar<S, K>, ledger: Ledger<K>, cfg: Config<S>)
    requires Lawful(g, ledger)
    ensures Banded(g, ledger, Start(g, cfg))
  {
    hide Lawful, Start, QueueOk, NodesOk, Leads;
    StartKeeps(g, ledger, Fifo(0), cfg);
    var sn, h := Start(g, cfg), 0;
    KeysInView(g, ledger, Fifo(0), sn, EmptyLog());
    forall n: nat, k | n <= h && ReachedIn(g, n, k) ensures k in sn.view && sn.view[k].depthMinimum <= n {
      var path, s :| |path| == n + 1 && PathTo(g, path, s) && Canon(g, s) == k;
      assert s in g.initial;
    }
    forall k | k in sn.view ensures !sn.view[k].phase.Expanded? {}
    assert Band(g, ledger, sn, h, |sn.queue|);
  }

  // ---------- checkpoints ----------

  /** The records still to be expanded lie in at most two layers. A caller can read this off a
      checkpoint. */
  ghost predicate TwoLayers<S(!new), K(!new)>(view: map<K, Node<S>>) {
    exists e: nat :: QueuedWithin(view, e)
  }

  ghost predicate QueuedWithin<S(!new), K(!new)>(view: map<K, Node<S>>, e: nat) {
    forall k <- view :: view[k].phase.Queued? ==> e <= view[k].depthMinimum <= e + 1
  }

  /** What an unreduced search leaves behind when it is stopped with its queue in two layers. */
  ghost predicate Sharp<S(!new), K(!new)>(g: Grammar<S, K>, ledger: Ledger<K>, view: map<K, Node<S>>) {
    exists h: nat ::
      Near(g, view, h) && AllEdgesIn(g, ledger, view) && ExpandedWithin(view, h + 1) && QueuedWithin(view, h)
  }

  lemma SharpIsBanded<S(!new), K(!new)>(
      g: Grammar<S, K>, ledger: Ledger<K>, d: Discipline<K>, sn: Snapshot<S, K>, log: Log<S, K>)
    requires SearchOk(g, ledger, d, sn, log) && Sharp(g, ledger, sn.view)
    ensures Banded(g, ledger, sn)
  {
    hide SearchOk, Near, AllEdgesIn, ExpandedWithin;
    KeysInView(g, ledger, d, sn, log);
    var h: nat :| Near(g, sn.view, h) && AllEdgesIn(g, ledger, sn.view) && ExpandedWithin(sn.view, h + 1)
        && QueuedWithin(sn.view, h);
    assert Band(g, ledger, sn, h, |sn.queue|);
  }

  /** Every record still to be expanded is within the band. */
  lemma QueuedInBand<S(!new), K(!new)>(
      g: Grammar<S, K>, ledger: Ledger<K>, d: Discipline<K>, sn: Snapshot<S, K>, log: Log<S, K>, h: nat, m: nat)
    requires SearchOk(g, ledger, d, sn, log) && Band(g, ledger, sn, h, m)
    ensures forall k <- sn.view :: sn.view[k].phase.Queued? ==> h <= sn.view[k].depthMinimum <= h + 2
  {
    hide SearchOk, Near, AllEdgesIn, ExpandedWithin;
    forall k | k in sn.view && sn.view[k].phase.Queued? ensures h <= sn.view[k].depthMinimum <= h + 2 {
      var i := QueuedIsItem(g, ledger, d, sn, log, k);
      assert DepthOf(sn.view, sn.queue[i].key) == sn.view[k].depthMinimum;
    }
  }

  lemma BandIsSharp<S(!new), K(!new)>(
      g: Grammar<S, K>, ledger: Ledger<K>, d: Discipline<K>, sn: Snapshot<S, K>, log: Log<S, K>)
    requires Lawful(g, ledger) && SearchOk(g, ledger, d, sn, log) && Banded(g, ledger, sn) && TwoLayers(sn.view)
    ensures Sharp(g, ledger, sn.view)
  {
    hide Lawful, SearchOk, Near, AllEdgesIn, ItemsWithin;
    var h: nat, m: nat :| Band(g, ledger, sn, h, m);
    QueuedInBand(g, ledger, d, sn, log, h, m);
    if !QueuedWithin(sn.view, h) {
      var k :| k in sn.view && sn.view[k].phase.Queued? && sn.view[k].depthMinimum == h + 2;
      var e: nat :| QueuedWithin(sn.view, e);
      assert e >= h + 1;
      NearNext(g, ledger, d, sn, log, h);
      assert ExpandedWithin(sn.view, (h + 1) + 1) && QueuedWithin(sn.view, h + 1);
    }
  }

  /** A search that was never resumed always stops with its queue in two layers. */
  lemma FifoHasTwoLayers<S(!new), K(!new)>(
      g: Grammar<S, K>, ledger: Ledger<K>, d: Discipline<K>, sn: Snapshot<S, K>, log: Log<S, K>)
    requires SearchOk(g, ledger, d, sn, log) && d.Fifo?
    ensures TwoLayers(sn.view)
  {
    hide NodesOk, AllExpandedOk, LogOk, ItemsOk, InitialIn, TerminalsOk;
    var e := if d.horizon == 0 then 0 else d.horizon - 1;
    forall k | k in sn.view && sn.view[k].phase.Queued? ensures e <= sn.view[k].depthMinimum <= e + 1 {
      var i := QueuedIsItem(g, ledger, d, sn, log, k);
      assert d.horizon <= DepthOf(sn.view, sn.queue[i].key) + 1;
    }
    assert QueuedWithin(sn.view, e);
  }

  // ---------- completed searches ----------

  lemma {:induction false} DryIsNear<S(!new), K(!new)>(
      g: Grammar<S, K>, ledger: Ledger<K>, d: Discipline<K>, sn: Snapshot<S, K>, log: Log<S, K>, h: nat, n: nat)
    requires Lawful(g, ledger) && SearchOk(g, ledger, d, sn, log) && sn.queue == []
    requires Near(g, sn.view, h) && AllEdgesIn(g, ledger, sn.view)
    ensures Near(g, sn.view, h + n)
    decreases n
  {
    hide Lawful, SearchOk, Near, AllEdgesIn;
    if n > 0 {
      DryIsNear(g, ledger, d, sn, log, h, n - 1);
      forall k | k in sn.view ensures !sn.view[k].phase.Queued? {
        DrySettles(g, ledger, d, sn, log);
      }
      NearNext(g, ledger, d, sn, log, h + n - 1);
    }
  }

  lemma DryDistances<S(!new), K(!new)>(
      g: Grammar<S, K>, ledger: Ledger<K>, d: Discipline<K>, sn: Snapshot<S, K>, log: Log<S, K>)
    requires Lawful(g, ledger) && SearchOk(g, ledger, d, sn, log) && Banded(g, ledger, sn) && sn.queue == []
    ensures forall k <- sn.view :: Distance(g, k, sn.view[k].depthMinimum)
  {
    hide Lawful, SearchOk, AllEdgesIn, ReachedIn;
    var h: nat, m: nat :| Band(g, ledger, sn, h, m);
    forall k | k in sn.view ensures Distance(g, k, sn.view[k].depthMinimum) {
      SearchInventsNothing(g, ledger, d, sn, log, k);
      forall i: nat | ReachedIn(g, i, k) ensures sn.view[k].depthMinimum <= i {
        DryIsNear(g, ledger, d, sn, log, h, i);
      }
    }
  }

  /** Begin fresh, or with a checkpoint from two layers. */
  lemma FirstIsBanded<S(!new), K(!new)>(
      g: Grammar<S, K>, ledger: Ledger<K>, level: Option<K -> nat>, cfg: Config<S>, resume: Option<SearchResult<S, K>>)
    returns (d: Discipline<K>, log: Log<S, K>)
    requires Lawful(g, ledger)
    requires resume.Some? ==>
        ValidResult(g, ledger, level, resume.value) && Sharp(g, ledger, ViewOf(resume.value.records))
    ensures SearchOk(g, ledger, d, First(g, cfg, resume), log) && Banded(g, ledger, First(g, cfg, resume))
    ensures resume.None? ==> d.Fifo?
  {
    hide Lawful, SearchOk, Sharp, Banded, Rebuilt, ViewOf, Start, Lists;
    if resume.None? {
      d, log := Fifo(0), EmptyLog();
      StartKeeps(g, ledger, d, cfg);
      StartIsBanded(g, ledger, cfg);
    } else {
      d := Resuming(level);
      log := ResumeKeeps(g, ledger, level, resume.value.records, Ended(resume.value));
      SharpIsBanded(g, ledger, d, First(g, cfg, resume), log);
    }
  }

  /** Without reduction, depths stay right as long as every checkpoint that is resumed has its queue
      in at most two layers: a completed result then has shortest distances, and a stopped one can be
      used again under the same condition. A search that was not resumed always meets it. */
  lemma UnreducedDepths<S(!new), K(!new)>(
      g: Grammar<S, K>, ledger: Ledger<K>, level: Option<K -> nat>, cfg: Config<S>, resume: Option<SearchResult<S, K>>,
      r: SearchResult<S, K>)
    requires Lawful(g, ledger) && !cfg.por && RunOf(g, cfg, resume, r)
    requires resume.Some? ==>
        ValidResult(g, ledger, level, resume.value) && Sharp(g, ledger, ViewOf(resume.value.records))
    ensures r.complete ==> ExactDepths(g, r)
    ensures TwoLayers(ViewOf(r.records)) ==> Sharp(g, ledger, ViewOf(r.records))
    ensures resume.None? ==> TwoLayers(ViewOf(r.records))
  {
    hide Lawful, SearchOk, Banded, Sharp, TwoLayers, Distance, Ran, First, ValidResult, ViewOf;
    var pops, last :| EndsRun(g, cfg, resume, r, pops, last);
    var d, log := FirstIsBanded(g, ledger, level, cfg, resume);
    var d', log' := RunKeepsBand(g, ledger, d, cfg, First(g, cfg, resume), log, pops, last);
    assert last.view == Ended(r).view;
    if r.complete {
      DryDistances(g, ledger, d', last, log');
    }
    if TwoLayers(last.view) {
      BandIsSharp(g, ledger, d', last, log');
    }
    if resume.None? {
      FifoHasTwoLayers(g, ledger, d', last, log');
    }
  }

  /** In particular an unreduced search may be stopped anywhere and resumed once. */
  lemma OneResumeKeepsDistances<S(!new), K(!new)>(
      g: Grammar<S, K>, ledger: Ledger<K>, cfg: Config<S>, stopped: SearchResult<S, K>, cfg': Config<S>,
      r: SearchResult<S, K>)
    requires Lawful(g, ledger) && !cfg.por && !cfg'.por && ValidResult(g, ledger, None, stopped)
    requires RunOf(g, cfg, None, stopped) && RunOf(g, cfg', Some(stopped), r) && r.complete
    ensures ExactDepths(g, r)
  {
    hide Lawful, RunOf, ValidResult, Sharp, TwoLayers, ExactDepths;
    UnreducedDepths(g, ledger, None, cfg, None, stopped);
    UnreducedDepths(g, ledger, None, cfg', Some(stopped), r);
  }
}

/** When the reduction does lose a form: the converse of the argument in `Soundness`. */
module Losses {
  import opened Actions
  import opened Grammars
  import opened Exploration
  import opened Soundness
  import opened Steps
  import opened Completeness

  /** `o` is a way to discover the form `k`. */
  ghost predicate Discovers<S(!new), K(!new)>(g: Grammar<S, K>, ledger: Ledger<K>, o: Origin<S>, k: K) {
    match o.prev
    case None => exists i <- g.initial :: i.action == o.last && Canon(g, i) == k
    case Some(p) => exists x :: Step(g, ledger, p, o.last, x) && Canon(g, x) == k
  }

  /** Every way into `k` repeats a commuting pair, however the form before it was discovered. */
  ghost predicate OnlyRepeats<S(!new), K(!new)>(g: Grammar<S, K>, ledger: Ledger<K>, k: K) {
    && (forall i <- g.initial :: Canon(g, i) != k)
    && (forall s, b, x, o {:trigger Step(g, ledger, s, b, x), Discovers(g, ledger, o, Canon(g, s))} ::
          Step(g, ledger, s, b, x) && Canon(g, x) == k && Discovers(g, ledger, o, Canon(g, s)) ==>
            Redundant(g, o.prev, o.last, b))
  }

  /** The reduction applies at every record. */
  ghost predicate ReducesEverywhere<S(!new)>(cfg: Config<S>) {
    cfg.por && forall s, actions, depth :: cfg.porDecider(s, actions, depth)
  }

  lemma {:induction false} ChildrenKeys<S(!new), K(!new)>(
      g: Grammar<S, K>, cfg: Config<S>, sn: Snapshot<S, K>, w: Work<S, K>, s: LazyState<S>, depth: nat,
      children: seq<LazyState<S>>, k: K)
    ensures k in AddChildren(g, cfg, sn, w, s, depth, children).view <==>
        k in sn.view || exists x <- children :: Canon(g, x) == k
    decreases |children|
  {
    hide AddState;
    if children != [] {
      var n := |children| - 1;
      ChildrenKeys(g, cfg, sn, w, s, depth, children[..n], k);
      assert children == children[..n] + [children[n]];
      assert forall x :: x in children <==> x in children[..n] || x == children[n];
    }
  }

  lemma {:induction false} InitialKeys<S(!new), K(!new)>(
      g: Grammar<S, K>, cfg: Config<S>, sn: Snapshot<S, K>, states: seq<LazyState<S>>, k: K)
    requires k !in sn.view && forall i <- states :: Canon(g, i) != k
    ensures k !in AddInitial(g, cfg, sn, states).view
    decreases |states|
  {
    hide AddState;
    if states != [] {
      InitialKeys(g, cfg, sn, states[..|states| - 1], k);
    }
  }

  lemma WorkDiscovers<S(!new), K(!new)>(
      g: Grammar<S, K>, ledger: Ledger<K>, d: Discipline<K>, sn: Snapshot<S, K>, log: Log<S, K>)
    requires SearchOk(g, ledger, d, sn, log) && sn.queue != []
    ensures var w := sn.queue[0]; w.path != [] && w.states != [] && Discovers(g, ledger, OriginOf(w), w.key)
  {
    hide Explored, ItemsDistinct, NoneLost, Layered, InitialIn, TerminalsOk, Leads;
    assert WorkOk(g, ledger, d, sn.view, log.rank.Keys, sn.queue[0]);
  }

  /** No child of a record is in such a form. */
  lemma NoSuchChild<S(!new), K(!new)>(
      g: Grammar<S, K>, ledger: Ledger<K>, cfg: Config<S>, node: Node<S>, w: Work<S, K>, k: K, x: LazyState<S>)
    requires Lawful(g, ledger) && ReducesEverywhere(cfg) && OnlyRepeats(g, ledger, k)
    requires GenuineWork(g, w) && Discovers(g, ledger, OriginOf(w), w.key)
    requires Canon(g, node.state) == w.key && g.made(node.state) && !node.state.terminal
    requires x in Children(g, cfg, node, w)
    ensures Canon(g, x) != k
  {
    hide Lawful, Discovers, Redundant, Viable, Realized;
    assert w.path != [] && w.states != [];
    ChildrenAreSteps(g, ledger, cfg, node, w, true);
    RealizedMembers(g, node.state, Viable(g, w, true, g.enabled(node.state)).actions, x);
    var a :| a in Viable(g, w, true, g.enabled(node.state)).actions && g.apply(Some(node.state), a) == Some(x);
    ViableMembers(g, w, true, g.enabled(node.state), a);
    LegalRecords(g, ledger, node.state, a, x);
  }

  lemma LegalRecords<S(!new), K(!new)>(g: Grammar<S, K>, ledger: Ledger<K>, s: LazyState<S>, a: Action, x: LazyState<S>)
    requires Lawful(g, ledger) && g.made(s) && a in g.enabled(s) && g.apply(Some(s), a) == Some(x)
    ensures x.action == a
  {
    assert InAlphabet(g, a);
  }

  lemma PopMisses<S(!new), K(!new)>(
      g: Grammar<S, K>, ledger: Ledger<K>, d: Discipline<K>, cfg: Config<S>, sn: Snapshot<S, K>, log: Log<S, K>,
      after: Snapshot<S, K>, k: K)
    requires Lawful(g, ledger) && SearchOk(g, ledger, d, sn, log) && Popped(g, cfg, sn, after)
    requires ReducesEverywhere(cfg) && OnlyRepeats(g, ledger, k) && k !in sn.view
    ensures k !in after.view
  {
    hide Lawful, SearchOk, OnlyRepeats, GenuineWork, Discovers, Children, Scores, Charged, AddChildren,
        ReducesEverywhere, Ranked;
    HeadFacts(g, ledger, d, sn, log);
    WorkDiscovers(g, ledger, d, sn, log);
    var w := sn.queue[0];
    var node := sn.view[w.key];
    if !node.state.terminal {
      var children, scores := Children(g, cfg, node, w), Scores(g, cfg, node, w);
      var rest := sn.(queue := sn.queue[1..], counts := Charged(g, cfg, sn.counts, node, w));
      assert |scores| == |children|;
      RankingNeverDeletes(children, scores);
      ChildrenKeys(g, cfg, rest, w, node.state, node.depthMinimum + 1, Ranked(children, scores), k);
      forall x | x in children ensures Canon(g, x) != k {
        NoSuchChild(g, ledger, cfg, node, w, k, x);
      }
      var grown := AddChildren(g, cfg, rest, w, node.state, node.depthMinimum + 1, Ranked(children, scores));
      assert k !in grown.view;
      assert after.view == SetPhase(grown.view, w.key, Expanded);
    }
  }

  /** What a search that reduces without excuse still keeps: whatever it holds is genuine. */
  lemma {:induction false} RunStaysGenuine<S(!new), K(!new)>(
      g: Grammar<S, K>, ledger: Ledger<K>, cfg: Config<S>, n: nat, last: Snapshot<S, K>)
    returns (log: Log<S, K>)
    requires Lawful(g, ledger) && Ran(g, cfg, Start(g, cfg), n, last)
    ensures SearchOk(g, ledger, Loose(true), last, log)
    decreases n
  {
    hide Lawful, SearchOk, Start, Pop;
    if n == 0 {
      StartKeeps(g, ledger, Loose(true), cfg);
      log := EmptyLog();
    } else {
      var mid :| Ran(g, cfg, Start(g, cfg), n - 1, mid) && !Spent(cfg, mid, n - 1) && Popped(g, cfg, mid, last);
      var before := RunStaysGenuine(g, ledger, cfg, n - 1, mid);
      var d;
      d, log := PopKeeps(g, ledger, Loose(true), cfg, mid, before);
    }
  }

  /** A form all of whose ways in repeat commuting pairs is missed by every search that reduces
      everywhere, however long it runs and whatever its policy. So if such a form can be reached, not
      every skip is excused, and the loss is certain. */
  lemma {:induction false} ReducedSearchMisses<S(!new), K(!new)>(
      g: Grammar<S, K>, ledger: Ledger<K>, cfg: Config<S>, n: nat, last: Snapshot<S, K>, k: K)
    requires Lawful(g, ledger) && ReducesEverywhere(cfg) && OnlyRepeats(g, ledger, k)
    requires Ran(g, cfg, Start(g, cfg), n, last)
    ensures k !in last.view
    decreases n
  {
    hide Lawful, SearchOk, Pop, ReducesEverywhere, AddInitial;
    if n == 0 {
      InitialKeys(g, cfg, Blank(|g.initial|), g.initial, k);
    } else {
      var mid :| Ran(g, cfg, Start(g, cfg), n - 1, mid) && !Spent(cfg, mid, n - 1) && Popped(g, cfg, mid, last);
      ReducedSearchMisses(g, ledger, cfg, n - 1, mid, k);
      var log := RunStaysGenuine(g, ledger, cfg, n - 1, mid);
      PopMisses(g, ledger, Loose(true), cfg, mid, log, last, k);
    }
  }
}

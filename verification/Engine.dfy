/** The canonical search engine: the worklist loop over the transposition table, with partial-order
    reduction, budgets and resumable checkpoints. */
module Engine {
  import opened Actions
  import opened Grammars
  import opened Exploration
  import opened Soundness
  import opened Steps
  import opened Completeness
  import opened Accounting
  import opened Transitions
  import opened Table
  import opened Verifier

  /** What a run hands back, complete or not; an incomplete one is a checkpoint. */
  datatype SearchResult<S, !K> = SearchResult(
    complete: bool,
    records: seq<(K, Node<S>)>,
    edges: seq<Edge<K>>,
    terminals: set<K>,
    counts: Counts)

  datatype SearchError = UnsupportedBudget | PolicyScoreCount | CheckpointPath

  datatype Outcome<S, !K> = Finished(result: SearchResult<S, K>) | Failed(error: SearchError)

  class CanonicalSearch<S(!new), K(!new, ==)> {
    const g: Grammar<S, K>
    const cfg: Config<S>
    const table: TranspositionTable<S, K>
    const verifier: IndependenceVerifier<S, K>
    var queue: seq<Work<S, K>>
    var edges: seq<Edge<K>>
    var terminals: set<K>
    var counts: Counts
    ghost const ledger: Ledger<K>

    constructor (g: Grammar<S, K>, cfg: Config<S>, digest: K -> nat, secondary: K -> nat, ghost ledger: Ledger<K>)
      ensures this.g == g && this.cfg == cfg && this.ledger == ledger && verifier.digest == digest
      ensures fresh(table) && fresh(verifier) && table.digest == digest && table.secondary == secondary
      ensures Wired() && Snap() == Blank(0) && table.repr == {}
    {
      this.g, this.cfg, this.ledger := g, cfg, ledger;
      this.table := new TranspositionTable(g, digest, secondary, cfg.smallerPath);
      this.verifier := new IndependenceVerifier(g, digest);
      queue, edges, terminals, counts := [], [], {}, Counts(0, 0, 0, 0, 0, 0, 0, 0);
      new;
      assert table.view == map[];
    }

    ghost function Snap(): Snapshot<S, K>
      reads this, table
    {
      Snapshot(table.view, queue, edges, terminals, counts)
    }

    ghost predicate Wired()
      reads this, table, table.repr, verifier
    {
      && table.Valid() && table.g == g && table.smaller == cfg.smallerPath
      && verifier.g == g && CacheOk(g, verifier.digest, verifier.cache)
    }

    /** What the search takes for granted about the grammar and the digests. Only a search that
        reduces asks anything of the cache and of terminal states. */
    ghost predicate Trusted() {
      && Lawful(g, ledger) && table.IdsSeparate()
      && (cfg.por ==> Unambiguous(g, verifier.digest) && SkipsAreExcused(g))
    }

    method AddOne(s: LazyState<S>, parent: Option<K>, depth: nat, path: seq<Action>, states: seq<Option<LazyState<S>>>)
      requires Wired()
      modifies this, table, table.repr
      ensures Wired() && fresh(table.repr - old(table.repr)) && old(table.repr) <= table.repr
      ensures Snap() == AddState(g, cfg, old(Snap()), s, parent, depth, path, states)
    {
      hide Interned, CacheOk, TranspositionTable.Valid;
      var edge := |edges|;
      var record, how := table.Intern(s, depth, path, edge);
      edges := edges + [Edge(edge, parent, record.bytes, s.action, depth, how)];
      counts := Tally(counts, how);
      if how.NewState? {
        queue := queue + [Work(record.bytes, path, states)];
      }
    }

    /** Intern the grammar's initial states. */
    method AddInitialStates()
      requires Wired() && Snap() == Blank(|g.initial|)
      modifies this, table, table.repr
      ensures Wired() && fresh(table.repr - old(table.repr)) && old(table.repr) <= table.repr
      ensures Snap() == Start(g, cfg)
    {
      hide AddState, CacheOk, TranspositionTable.Valid;
      ghost var before := Snap();
      for n := 0 to |g.initial|
        invariant Wired() && fresh(table.repr - old(table.repr)) && old(table.repr) <= table.repr
        invariant Snap() == AddInitial(g, cfg, before, g.initial[..n])
      {
        assert g.initial[..n + 1][..n] == g.initial[..n];
        AddOne(g.initial[n], None, 0, [g.initial[n].action], [None]);
      }
      assert g.initial[..|g.initial|] == g.initial;
    }

    /** Decide which enabled actions to follow from the record of `w`. */
    method Filter(state: LazyState<S>, w: Work<S, K>, por: bool, actions: seq<Action>) returns (f: Filtered)
      requires Wired() && Trusted() && w.path != [] && w.states != [] && (por ==> cfg.por)
      requires forall a <- actions :: InAlphabet(g, a)
      requires InAlphabet(g, w.path[|w.path| - 1]) && MadeOrRoot(g, w.states[|w.states| - 1])
      modifies verifier
      ensures Wired() && f == Viable(g, w, por, actions)
    {
      hide Lawful, CacheOk, Commutes, InAlphabet, Unambiguous, SkipsAreExcused, TranspositionTable.Valid;
      f := Filtered([], 0, 0);
      for n := 0 to |actions|
        invariant Wired()
        invariant f == Viable(g, w, por, actions[..n])
      {
        var a := actions[n];
        assert actions[..n + 1][..n] == actions[..n];
        if Blocked(a, Keys(w.path)) {
          f := f.(dependency := f.dependency + 1);
        } else {
          var skip := false;
          if por && a.order < w.path[|w.path| - 1].order {
            var e := verifier.Verify(w.states[|w.states| - 1], w.path[|w.path| - 1], a);
            skip := e.independent;
          }
          if skip {
            f := f.(por := f.por + 1);
          } else {
            f := f.(actions := f.actions + [a]);
          }
        }
      }
      assert actions[..|actions|] == actions;
    }

    /** Apply the surviving actions, dropping those that turn out not to be legal. */
    method Realize(state: LazyState<S>, actions: seq<Action>) returns (children: seq<LazyState<S>>)
      ensures children == Realized(g, state, actions)
    {
      children := [];
      for n := 0 to |actions|
        invariant children == Realized(g, state, actions[..n])
      {
        assert actions[..n + 1][..n] == actions[..n];
        var child := g.apply(Some(state), actions[n]);
        if child.Some? {
          children := children + [child.value];
        }
      }
      assert actions[..|actions|] == actions;
    }

    method AddRanked(w: Work<S, K>, state: LazyState<S>, depth: nat, children: seq<LazyState<S>>)
      requires Wired()
      modifies this, table, table.repr
      ensures Wired() && fresh(table.repr - old(table.repr)) && old(table.repr) <= table.repr
      ensures Snap() == AddChildren(g, cfg, old(Snap()), w, state, depth, children)
    {
      hide AddState, CacheOk, TranspositionTable.Valid;
      for n := 0 to |children|
        invariant Wired() && fresh(table.repr - old(table.repr)) && old(table.repr) <= table.repr
        invariant Snap() == AddChildren(g, cfg, old(Snap()), w, state, depth, children[..n])
      {
        var child := children[n];
        assert children[..n + 1][..n] == children[..n];
        AddOne(child, Some(w.key), depth, w.path + [child.action], w.states + [Some(state)]);
      }
      assert children[..|children|] == children;
    }

    /** Filter and realise the frontier of a record, charging the counters for it. */
    method Prepare(w: Work<S, K>, record: StateRecord<S, K>) returns (children: seq<LazyState<S>>)
      requires Wired() && Trusted() && w.path != [] && w.states != []
      requires record in table.repr && g.made(record.state)
      requires InAlphabet(g, w.path[|w.path| - 1]) && MadeOrRoot(g, w.states[|w.states| - 1])
      modifies this`counts, verifier
      ensures Wired() && children == Children(g, cfg, record.View(), w)
      ensures counts == Charged(g, cfg, old(counts), record.View(), w)
    {
      hide Lawful, CacheOk, Viable, Realized, Unambiguous, SkipsAreExcused, TranspositionTable.Valid;
      var actions := g.enabled(record.state);
      forall a | a in actions ensures InAlphabet(g, a) {}
      var f := Filter(record.state, w, cfg.por && cfg.porDecider(record.state, actions, record.depthMinimum), actions);
      children := Realize(record.state, f.actions);
      counts := counts.(raw := counts.raw + |actions|, por := counts.por + f.por,
                        dependency := counts.dependency + f.dependency, constructed := counts.constructed + |children|);
    }

    /** Expand one record: filter, realise, rank and intern its children. */
    method ExpandOne(w: Work<S, K>, record: StateRecord<S, K>) returns (ok: bool)
      requires Wired() && Trusted() && w.path != [] && w.states != []
      requires record in table.repr && record.bytes == w.key && w.key in table.view
          && record.View() == table.view[w.key]
      requires g.made(record.state) && InAlphabet(g, w.path[|w.path| - 1]) && MadeOrRoot(g, w.states[|w.states| - 1])
      modifies this, table, table.repr, verifier
      ensures Wired() && fresh(table.repr - old(table.repr)) && old(table.repr) <= table.repr
      ensures ok <==> Expand(g, cfg, old(Snap()), w).Some?
      ensures ok ==> Snap() == Expand(g, cfg, old(Snap()), w).value
    {
      hide Lawful, CacheOk, AddChildren, Viable, Realized, Ranked, Unambiguous, SkipsAreExcused, Charged, Children,
          TranspositionTable.Valid;
      ghost var node := table.view[w.key];
      var children := Prepare(w, record);
      var scores := cfg.score(record.state, children, record.depthMinimum + 1, w.path);
      assert scores == Scores(g, cfg, node, w);
      if |scores| != |children| {
        return false;
      }
      AddRanked(w, record.state, record.depthMinimum + 1, Ranked(children, scores));
      table.Mark(record, Expanded);
      return true;
    }

    /** Pop one work item and process it. */
    method PopOne() returns (ok: bool)
      requires Wired() && Trusted() && queue != []
      requires queue[0].path != [] && queue[0].states != [] && queue[0].key in table.view
      requires InAlphabet(g, queue[0].path[|queue[0].path| - 1])
          && MadeOrRoot(g, queue[0].states[|queue[0].states| - 1])
      requires g.made(table.view[queue[0].key].state)
      modifies this, table, table.repr, verifier
      ensures Wired() && fresh(table.repr - old(table.repr)) && old(table.repr) <= table.repr
      ensures ok <==> Pop(g, cfg, old(Snap())).Some?
      ensures ok ==> Snap() == Pop(g, cfg, old(Snap())).value
    {
      hide Lawful, CacheOk, Expand, Unambiguous, SkipsAreExcused, TranspositionTable.Valid;
      var w := queue[0];
      queue := queue[1..];
      var record := table.Lookup(w.key);
      if record.phase.Expanded? {
        return true;
      }
      if record.state.terminal {
        table.Mark(record, TerminalSeen);
        terminals := terminals + {w.key};
        return true;
      }
      ok := ExpandOne(w, record);
    }

    lemma OneScoreEachExpands(sn: Snapshot<S, K>)
      requires sn.queue != [] && sn.queue[0].path != [] && sn.queue[0].states != [] && sn.queue[0].key in sn.view
      requires OneScoreEach(cfg)
      ensures Pop(g, cfg, sn).Some?
    {}

    lemma RanNot(sn: Snapshot<S, K>)
      ensures Ran(g, cfg, sn, 0, sn)
    {}

    lemma RanOn(first: Snapshot<S, K>, n: nat, mid: Snapshot<S, K>, last: Snapshot<S, K>)
      requires Ran(g, cfg, first, n, mid) && !Spent(cfg, mid, n) && Popped(g, cfg, mid, last)
      ensures Ran(g, cfg, first, n + 1, last)
    {}

    /** The worklist loop. It pops until the queue is empty or, before some pop, a budget is spent. */
    method Drain(ghost d0: Discipline<K>, ghost log0: Log<S, K>, ghost por: bool)
      returns (complete: bool, ok: bool, ghost pops: nat, ghost d: Discipline<K>, ghost log: Log<S, K>)
      requires Wired() && Trusted() && SearchOk(g, ledger, d0, Snap(), log0) && Balanced(Snap(), 0) && !Lossy(d0)
      requires (cfg.por ==> por) && Drawn(g, ledger, por, table.view, edges)
      modifies this, table, table.repr, verifier
      ensures Wired()
      ensures ok ==> SearchOk(g, ledger, d, Snap(), log) && Balanced(Snap(), 0)
      ensures ok ==> Drawn(g, ledger, por, table.view, edges)
      ensures ok ==> Ran(g, cfg, old(Snap()), pops, Snap())
      ensures ok ==> if complete then queue == [] else queue != [] && Spent(cfg, Snap(), pops)
      ensures (d.Loose? <==> d0.Loose?) && (d0.Levelled? <==> d.Levelled?) && (!d0.Fifo? ==> d == d0)
      ensures OneScoreEach(cfg) ==> ok
    {
      hide Lawful, SearchOk, Balanced, CacheOk, Pop, Unambiguous, SkipsAreExcused, InAlphabet, Ran, Drawn,
          TranspositionTable.Valid;
      complete, ok, d, log := true, true, d0, log0;
      var popped := 0;
      pops := 0;
      RanNot(old(Snap()));
      while queue != []
        invariant Wired() && fresh(table.repr - old(table.repr))
        invariant SearchOk(g, ledger, d, Snap(), log) && Balanced(Snap(), 0)
        invariant Drawn(g, ledger, por, table.view, edges)
        invariant popped == pops && Ran(g, cfg, old(Snap()), pops, Snap())
        invariant (d.Loose? <==> d0.Loose?) && (d0.Levelled? <==> d.Levelled?) && (!d0.Fifo? ==> d == d0)
        decreases if counts.unique <= cfg.nodeBudget then cfg.nodeBudget + 1 - counts.unique else 0, |queue|
      {
        if || counts.unique > cfg.nodeBudget
           || (cfg.workBudget.Some? && counts.constructed >= cfg.workBudget.value)
           || cfg.interrupted(popped)
        {
          complete := false;
          return;
        }
        popped := popped + 1;
        ghost var before := Snap();
        HeadFacts(g, ledger, d, before, log);
        ghost var d', log' := PopKeeps(g, ledger, d, cfg, before, log);
        ok := PopOne();
        if !ok {
          if OneScoreEach(cfg) {
            OneScoreEachExpands(before);
          }
          return;
        }
        PopBalances(g, cfg, before);
        PopDraws(g, ledger, d, cfg, before, log, por);
        RanOn(old(Snap()), pops, before, Snap());
        pops := pops + 1;
        d, log := d', log';
      }
    }

    /** Put back the records of a checkpoint. */
    method RestoreAll(records: seq<(K, Node<S>)>)
      requires Wired() && table.view == map[] && table.repr == {}
      requires forall i, j :: 0 <= i < j < |records| ==> records[i].0 != records[j].0
      modifies this, table
      ensures Wired() && fresh(table.repr) && table.view == ViewOf(records)
      ensures unchanged(this)
    {
      hide CacheOk, TranspositionTable.Valid;
      for n := 0 to |records|
        invariant Wired() && fresh(table.repr)
        invariant table.view == ViewOf(records[..n])
        invariant unchanged(this)
      {
        assert records[..n + 1][..n] == records[..n];
        ViewOfKeys(records[..n]);
        table.Restore(records[n].0, records[n].1);
      }
      assert records[..|records|] == records;
    }

    /** Queue every restored record that was still waiting, replaying its path. */
    method Requeue(records: seq<(K, Node<S>)>) returns (ok: bool)
      requires Wired() && queue == []
      modifies this`queue
      ensures Wired()
      ensures ok <==> Rebuilt(g, records).Some?
      ensures ok ==> queue == Rebuilt(g, records).value
    {
      for n := 0 to |records|
        invariant Rebuilt(g, records[..n]) == Some(queue)
      {
        assert records[..n + 1][..n] == records[..n];
        var (k, node) := records[n];
        if node.phase.Queued? {
          var r := Replayed(g, node.path);
          if r.None? {
            RebuiltFails(g, records, n + 1);
            return false;
          }
          queue := queue + [Work(k, node.path, r.value.states)];
        }
      }
      assert records[..|records|] == records;
      return true;
    }

    /** The records in the order of their identifiers. */
    method Collect() returns (records: seq<(K, Node<S>)>)
      requires Wired() && table.IdsSeparate()
      ensures Lists(records, table.view)
      ensures forall i, j :: 0 <= i < j < |records| ==>
          var (a, b) := (table.IdOf(records[i].0), table.IdOf(records[j].0)); a.0 < b.0 || (a.0 == b.0 && a.1 < b.1)
    {
      hide CacheOk, TranspositionTable.Indexed;
      var ids := SortIds(table.records.Keys);
      records := [];
      for n := 0 to |ids|
        invariant |records| == n
        invariant forall i :: 0 <= i < n ==>
                    records[i].0 in table.view && table.view[records[i].0] == records[i].1
                      && table.IdOf(records[i].0) == ids[i]
      {
        assert ids[n] in table.records;
        var record := table.records[ids[n]];
        records := records + [(record.bytes, record.View())];
      }
      NoneUncollected(ids, records);
    }

    /** Records collected by identifier, for every identifier, are all the records. */
    lemma NoneUncollected(ids: seq<StateId>, records: seq<(K, Node<S>)>)
      requires Wired() && table.IdsSeparate() && |records| == |ids|
      requires forall id :: id in ids <==> id in table.records.Keys
      requires forall i, j :: 0 <= i < j < |ids| ==> IdLess(ids[i], ids[j])
      requires forall i :: 0 <= i < |ids| ==>
                 records[i].0 in table.view && table.view[records[i].0] == records[i].1
                   && table.IdOf(records[i].0) == ids[i]
      ensures Lists(records, table.view)
      ensures forall i, j :: 0 <= i < j < |records| ==> IdLess(table.IdOf(records[i].0), table.IdOf(records[j].0))
    {
      hide CacheOk, TranspositionTable.Indexed;
      forall k | k in table.view ensures exists r <- records :: r.0 == k {
        var record :| record in table.repr && record.bytes == k;
        var i :| 0 <= i < |ids| && ids[i] == record.id;
        assert records[i] in records && records[i].0 == k;
      }
      forall i, j | 0 <= i < j < |records| ensures records[i].0 != records[j].0 {
        assert IdLess(ids[i], ids[j]);
      }
    }

    lemma {:induction false} RebuiltFails(g: Grammar<S, K>, records: seq<(K, Node<S>)>, n: nat)
      requires n <= |records| && Rebuilt(g, records[..n]).None?
      ensures Rebuilt(g, records).None?
      decreases |records| - n
    {
      if n < |records| {
        assert records[..n + 1][..n] == records[..n];
        RebuiltFails(g, records, n + 1);
      } else {
        assert records[..n] == records;
      }
    }
  }

  predicate IdLess(a: StateId, b: StateId) {
    a.0 < b.0 || (a.0 == b.0 && a.1 < b.1)
  }

  lemma {:induction false} LeastId(ids: set<StateId>)
    requires ids != {}
    ensures exists id <- ids :: forall other <- ids :: other == id || IdLess(id, other)
  {
    var some :| some in ids;
    var id := some;
    if ids != {some} {
      LeastId(ids - {some});
      var least :| least in ids - {some} && forall other <- ids - {some} :: other == least || IdLess(least, other);
      id := if IdLess(some, least) then some else least;
      forall other | other in ids ensures other == id || IdLess(id, other) {
        assert other == some || other in ids - {some};
      }
    }
    assert forall other <- ids :: other == id || IdLess(id, other);
  }

  /** Identifiers in increasing order. */
  method SortIds(ids: set<StateId>) returns (sorted: seq<StateId>)
    ensures forall id :: id in sorted <==> id in ids
    ensures forall i, j :: 0 <= i < j < |sorted| ==> IdLess(sorted[i], sorted[j])
  {
    sorted := [];
    var remaining := ids;
    while remaining != {}
      invariant remaining <= ids && forall id :: id in sorted <==> id in ids && id !in remaining
      invariant forall i, id :: 0 <= i < |sorted| && id in remaining ==> IdLess(sorted[i], id)
      invariant forall i, j :: 0 <= i < j < |sorted| ==> IdLess(sorted[i], sorted[j])
    {
      LeastId(remaining);
      var least: StateId :| least in remaining && forall other <- remaining :: other == least || IdLess(least, other);
      sorted := sorted + [least];
      remaining := remaining - {least};
    }
  }

  function ViewOf<S, K(!new, ==)>(records: seq<(K, Node<S>)>): map<K, Node<S>> {
    if records == [] then map[]
    else ViewOf(records[..|records| - 1])[records[|records| - 1].0 := records[|records| - 1].1]
  }

  lemma {:induction false} ViewOfKeys<S, K(!new)>(records: seq<(K, Node<S>)>)
    ensures forall k :: k in ViewOf(records) <==> exists r <- records :: r.0 == k
  {
    if records != [] {
      var n := |records| - 1;
      ViewOfKeys(records[..n]);
      assert records == records[..n] + [records[n]];
    }
  }

  /** The policy keeps its side of the bargain: one score per child. */
  ghost predicate OneScoreEach<S(!new)>(cfg: Config<S>) {
    forall s, children, depth, path :: |cfg.score(s, children, depth, path)| == |children|
  }

  lemma {:induction false} ListsIsView<S, K(!new)>(records: seq<(K, Node<S>)>, view: map<K, Node<S>>)
    requires forall r <- records :: r.0 in view && view[r.0] == r.1
    ensures forall k <- ViewOf(records) :: k in view && ViewOf(records)[k] == view[k]
    ensures (forall k <- view :: exists r <- records :: r.0 == k) ==> ViewOf(records) == view
  {
    ViewOfKeys(records);
    if records != [] {
      var n := |records| - 1;
      assert forall r <- records[..n] :: r in records;
      assert records[n] in records;
      ListsIsView(records[..n], view);
    }
  }

  /** The two digests of an identifier together separate canonical forms; neither need do so alone. */
  ghost predicate Identifies<K(!new)>(digest: K -> nat, secondary: K -> nat) {
    forall k, k' :: digest(k) == digest(k') && secondary(k) == secondary(k') ==> k == k'
  }

  /** What a result says about the search that produced it. */
  function Ended<S, K(!new, ==)>(r: SearchResult<S, K>): Snapshot<S, K> {
    Snapshot(ViewOf(r.records), [], r.edges, r.terminals, r.counts)
  }

  /** A result that this engine could have produced, complete or not: its books balance and it can
      be resumed. */
  ghost predicate ValidResult<S(!new), K(!new)>(
      g: Grammar<S, K>, ledger: Ledger<K>, level: Option<K -> nat>, r: SearchResult<S, K>)
  {
    && Lists(r.records, ViewOf(r.records)) && Balanced(Ended(r), 0)
    && Resumable(g, ledger, level, ViewOf(r.records), r.terminals)
    && Drawn(g, ledger, true, ViewOf(r.records), r.edges)
  }

  /** No run that led to the result reduced anything: there is an edge for every step from its expanded
      records. */
  ghost predicate Unreduced<S(!new), K(!new)>(g: Grammar<S, K>, ledger: Ledger<K>, r: SearchResult<S, K>) {
    Drawn(g, ledger, false, ViewOf(r.records), r.edges)
  }

  /** Nothing is missing and nothing is invented. */
  ghost predicate Exact<S(!new), K(!new)>(g: Grammar<S, K>, r: SearchResult<S, K>) {
    && (forall k :: k in ViewOf(r.records) <==> Reachable(g, k))
    && (forall k :: k in r.terminals <==> TerminalForm(g, k))
  }

  ghost predicate ExactDepths<S(!new), K(!new)>(g: Grammar<S, K>, r: SearchResult<S, K>) {
    forall k <- ViewOf(r.records) :: Distance(g, k, ViewOf(r.records)[k].depthMinimum)
  }

  predicate BudgetsOk<S>(cfg: Config<S>) {
    cfg.nodeBudget >= 1 && (cfg.workBudget.Some? ==> cfg.workBudget.value >= 1)
  }

  /** A result whose queue had run dry is exact. */
  lemma DryIsExact<S(!new), K(!new)>(
      g: Grammar<S, K>, ledger: Ledger<K>, d: Discipline<K>, log: Log<S, K>, r: SearchResult<S, K>)
    requires Lawful(g, ledger) && SearchOk(g, ledger, d, Ended(r), log) && !Lossy(d)
    ensures Exact(g, r) && (!d.Loose? ==> ExactDepths(g, r))
  {
    hide Lawful, SearchOk, Reachable, TerminalForm, Distance;
    forall k
      ensures k in ViewOf(r.records) <==> Reachable(g, k)
      ensures k in r.terminals <==> TerminalForm(g, k)
      ensures k in ViewOf(r.records) && !d.Loose? ==> Distance(g, k, ViewOf(r.records)[k].depthMinimum)
    {
      DryQueueIsComplete(g, ledger, d, Ended(r), log, k);
    }
  }

  /** Where a run begins: with the initial states, or with a checkpoint whose queue is rebuilt. */
  function First<S(!new), K(!new, ==)>(g: Grammar<S, K>, cfg: Config<S>, resume: Option<SearchResult<S,
        K>>): Snapshot<S, K> {
    if resume.None? then Start(g, cfg)
    else
      var queue := Rebuilt(g, resume.value.records);
      Ended(resume.value).(queue := if queue.Some? then queue.value else [])
  }

  /** `r` is what the run leaves after `pops` pops: complete if its queue is empty by then, and
      otherwise stopped by a spent budget. */
  ghost predicate EndsRun<S(!new), K(!new)>(
      g: Grammar<S, K>, cfg: Config<S>, resume: Option<SearchResult<S, K>>, r: SearchResult<S, K>, pops: nat,
      last: Snapshot<S, K>)
  {
    && Ran(g, cfg, First(g, cfg, resume), pops, last) && last.(queue := []) == Ended(r)
    && if r.complete then last.queue == [] else last.queue != [] && Spent(cfg, last, pops)
  }

  ghost predicate RunOf<S(!new), K(!new)>(
      g: Grammar<S, K>, cfg: Config<S>, resume: Option<SearchResult<S, K>>, r: SearchResult<S, K>)
  {
    exists pops, last :: EndsRun(g, cfg, resume, r, pops, last)
  }

  /** Run a search, or resume one. With or without reduction, under any frontier policy and any
      interruptions, a result that reports completion holds exactly the reachable canonical forms
      and exactly the terminal ones; its depths are the shortest distances when the search was not
      resumed or the grammar is graded. Any other result was stopped by a budget and can be
      resumed. The edges are those of the initial states and then steps of the grammar; without
      reduction no step from an expanded record is missing. */
  method Search<S(!new), K(!new, ==)>(
      g: Grammar<S, K>, cfg: Config<S>, digest: K -> nat, secondary: K -> nat,
      resume: Option<SearchResult<S, K>>, ghost ledger: Ledger<K>, ghost level: Option<K -> nat>)
    returns (outcome: Outcome<S, K>)
    requires Lawful(g, ledger) && Identifies(digest, secondary)
    requires cfg.por ==> Unambiguous(g, digest) && SkipsAreExcused(g)
    requires level.Some? ==> Graded(g, level.value)
    requires resume.Some? ==> ValidResult(g, ledger, level, resume.value)
    ensures outcome == Failed(UnsupportedBudget) <==>
        cfg.nodeBudget < 1 || (cfg.workBudget.Some? && cfg.workBudget.value < 1)
    ensures BudgetsOk(cfg) && OneScoreEach(cfg) ==> outcome.Finished?
    ensures outcome.Finished? ==> ValidResult(g, ledger, level, outcome.result) && RunOf(g, cfg, resume, outcome.result)
    ensures outcome.Finished? && !cfg.por && (resume.None? || Unreduced(g, ledger, resume.value)) ==>
        Unreduced(g, ledger, outcome.result)
    ensures outcome.Finished? && outcome.result.complete ==>
        Exact(g, outcome.result) && Settled(ViewOf(outcome.result.records))
    ensures outcome.Finished? && outcome.result.complete && (resume.None? || level.Some?) ==>
        ExactDepths(g, outcome.result)
  {
    hide Lawful, Unambiguous, SkipsAreExcused, SearchOk, Balanced, Resumable, Lists, Graded, Reachable, TerminalForm,
        Distance, Settled,
      TranspositionTable.Valid, CacheOk, OneScoreEach, Ran, Rebuilt, Drawn;
    if !BudgetsOk(cfg) {
      return Failed(UnsupportedBudget);
    }
    var run := new CanonicalSearch(g, cfg, digest, secondary, ledger);
    assert run.table.IdsSeparate() by { TogetherSeparate(run.table); }
    ghost var d0: Discipline<K>, log0: Log<S, K>;
    ghost var por := cfg.por || (resume.Some? && !Unreduced(g, ledger, resume.value));
    if resume.Some? {
      assert Lists(resume.value.records, ViewOf(resume.value.records));
      DistinctRecords(resume.value.records, ViewOf(resume.value.records));
      run.RestoreAll(resume.value.records);
      run.edges, run.terminals, run.counts := resume.value.edges, resume.value.terminals, resume.value.counts;
      log0 := ResumeKeeps(g, ledger, level, resume.value.records, Ended(resume.value));
      d0 := Resuming(level);
      var ok := run.Requeue(resume.value.records);
      assert ok;
      BalanceIgnoresQueue(Ended(resume.value), run.queue);
      assert run.Snap() == Ended(resume.value).(queue := run.queue);
    } else {
      run.counts := Counts(|g.initial|, 0, 0, 0, 0, 0, 0, |g.initial|);
      run.AddInitialStates();
      d0, log0 := if level.Some? then Levelled(level.value) else Fifo(0), EmptyLog();
      StartKeeps(g, ledger, d0, cfg);
      StartBalances(g, cfg);
      StartDraws(g, ledger, por, cfg);
    }
    ghost var first := run.Snap();
    assert first == First(g, cfg, resume);
    var complete, ok, pops, d, log := run.Drain(d0, log0, por);
    if !ok {
      return Failed(PolicyScoreCount);
    }
    var records := run.Collect();
    var result := SearchResult(complete, records, run.edges, run.terminals, run.counts);
    ListsGiveView(records, run.table.view);
    assert run.Snap() == Ended(result).(queue := run.queue);
    BalanceIgnoresQueue(run.Snap(), []);
    assert EndsRun(g, cfg, resume, result, pops, run.Snap());
    StoppedIsResumable(g, ledger, d, run.Snap(), log);
    if !por {
      DrawnAnyway(g, ledger, run.table.view, run.edges);
    }
    if complete {
      DryIsExact(g, ledger, d, log, result);
      DrySettles(g, ledger, d, run.Snap(), log);
    }
    return Finished(result);
  }

  /** Nothing but a spent budget, the clock or the memory ceiling leaves a run incomplete. */
  lemma OnlyBudgetsStop<S(!new), K(!new)>(
      g: Grammar<S, K>, cfg: Config<S>, resume: Option<SearchResult<S, K>>, r: SearchResult<S, K>)
    requires RunOf(g, cfg, resume, r) && !r.complete
    ensures || r.counts.unique > cfg.nodeBudget
            || (cfg.workBudget.Some? && r.counts.constructed >= cfg.workBudget.value)
            || exists pops :: cfg.interrupted(pops)
  {
    hide Ran, First, ViewOf;
    var pops, last :| EndsRun(g, cfg, resume, r, pops, last);
    assert last.counts == Ended(r).counts;
    assert cfg.interrupted(pops) ==> exists n :: cfg.interrupted(n);
  }

  /** A run pops within its budgets: before its last pop, and so before every one, no budget was spent,
      and neither the clock nor the memory ceiling struck before any. */
  lemma {:induction false} PopsWithinBudgets<S(!new), K(!new)>(
      g: Grammar<S, K>, cfg: Config<S>, first: Snapshot<S, K>, n: nat, last: Snapshot<S, K>)
    requires Ran(g, cfg, first, n, last)
    ensures forall i :: 0 <= i < n ==> !cfg.interrupted(i)
    ensures n > 0 ==> exists before ::
        && Ran(g, cfg, first, n - 1, before) && Popped(g, cfg, before, last)
        && before.counts.unique <= cfg.nodeBudget
        && (cfg.workBudget.Some? ==> before.counts.constructed < cfg.workBudget.value)
    decreases n
  {
    hide Popped;
    if n > 0 {
      var before :| Ran(g, cfg, first, n - 1, before) && !Spent(cfg, before, n - 1) && Popped(g, cfg, before, last);
      PopsWithinBudgets(g, cfg, first, n - 1, before);
    }
  }

  lemma NoMoreThan<K>(some: set<K>, all: set<K>)
    requires some <= all
    ensures |some| <= |all|
  {
    assert all == some + (all - some);
  }

  /** A grammar with no more reachable forms than the node budget is searched to the end. */
  lemma EnoughBudgetCompletes<S(!new), K(!new)>(
      g: Grammar<S, K>, ledger: Ledger<K>, level: Option<K -> nat>, cfg: Config<S>, resume: Option<SearchResult<S, K>>,
      r: SearchResult<S, K>, forms: set<K>)
    requires RunOf(g, cfg, resume, r) && ValidResult(g, ledger, level, r)
    requires (forall k :: Reachable(g, k) ==> k in forms) && |forms| <= cfg.nodeBudget
    requires cfg.workBudget.None? && forall pops :: !cfg.interrupted(pops)
    ensures r.complete
  {
    hide RunOf, Reachable, ReachedIn, ViewOf, Lists, Ledgered, AllExpandedOk, LogOk, InitialIn, TerminalsOk;
    var view := ViewOf(r.records);
    RecordsAreReachable(g, ledger, level, view, r.terminals);
    NoMoreThan(view.Keys, forms);
    assert r.counts.unique == |view.Keys|;
    if !r.complete {
      OnlyBudgetsStop(g, cfg, resume, r);
    }
  }

  lemma RecordsAreReachable<S(!new), K(!new)>(
      g: Grammar<S, K>, ledger: Ledger<K>, level: Option<K -> nat>, view: map<K, Node<S>>, terminals: set<K>)
    requires Resumable(g, ledger, level, view, terminals)
    ensures forall k <- view :: Reachable(g, k)
  {
    hide AllExpandedOk, LogOk, InitialIn, TerminalsOk, ReachedIn, Leads, ParentDone;
    var log: Log<S, K> :| Explored(g, ledger, Resuming(level), view, log, log.rank.Keys);
    forall k | k in view ensures Reachable(g, k) {
      assert NodeOk(g, ledger, log.rank.Keys, k, view[k]);
    }
  }

  lemma TogetherSeparate<S(!new), K(!new)>(table: TranspositionTable<S, K>)
    requires Identifies(table.digest, table.secondary)
    ensures table.IdsSeparate()
  {
    forall k, k' | table.IdOf(k) == table.IdOf(k') ensures k == k' {}
  }

  lemma DistinctRecords<S(!new), K(!new)>(records: seq<(K, Node<S>)>, view: map<K, Node<S>>)
    requires Lists(records, view)
    ensures forall i, j :: 0 <= i < j < |records| ==> records[i].0 != records[j].0
  {}

  lemma ListsGiveView<S(!new), K(!new)>(records: seq<(K, Node<S>)>, view: map<K, Node<S>>)
    requires Lists(records, view)
    ensures ViewOf(records) == view && Lists(records, ViewOf(records))
  {
    ListsIsView(records, view);
  }

  lemma BalanceIgnoresQueue<S(!new), K(!new)>(sn: Snapshot<S, K>, queue: seq<Work<S, K>>)
    requires Balanced(sn, 0)
    ensures Balanced(sn.(queue := queue), 0)
  {}
}

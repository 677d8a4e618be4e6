/** Whole runs: starting, stopping, resuming, and what a search whose queue has run dry has found. */
module Completeness {
  import opened Actions
  import opened Grammars
  import opened Exploration
  import opened Soundness
  import opened Steps

  function EmptyLog<S, K(!new)>(): Log<S, K> {
    Log(map[], map[], 0)
  }

  // ---------- starting ----------

  /** A fresh search begins in layer 0, or with whatever levels the grammar has. */
  ghost predicate Fresh<S(!new), K(!new)>(g: Grammar<S, K>, d: Discipline<K>) {
    d == Fifo(0) || (d.Levelled? && Graded(g, d.level)) || d.Loose?
  }

  ghost predicate Starting<S(!new), K(!new)>(
      g: Grammar<S, K>, ledger: Ledger<K>, d: Discipline<K>, sn: Snapshot<S, K>)
  {
    && Explored(g, ledger, d, sn.view, EmptyLog(), {})
    && QueueOk(g, ledger, d, sn.view, {}, sn.queue, None)
    && TerminalsOk(sn.view, sn.terminals)
  }

  lemma InitialReport<S(!new), K(!new)>(g: Grammar<S, K>, ledger: Ledger<K>, d: Discipline<K>, view: map<K, Node<S>>,
        i: LazyState<S>)
    requires Fresh(g, d) && LegalIsEnabled(g) && i in g.initial
    ensures g.made(i) && ReportOk(g, ledger, d, {}, Canon(g, i), 0, [i.action])
    ensures SourceOk(g, ledger, d, view, {}, Canon(g, i), 0, [i.action], [None])
  {
    var path := [i.action];
    assert PathTo(g, path, i);
    assert |path| == 0 + 1;
  }

  lemma {:induction false} AddInitialKeeps<S(!new), K(!new)>(
      g: Grammar<S, K>, ledger: Ledger<K>, d: Discipline<K>, cfg: Config<S>, sn: Snapshot<S, K>,
      states: seq<LazyState<S>>)
    requires Fresh(g, d) && LegalIsEnabled(g) && Starting(g, ledger, d, sn) && forall i <- states :: i in g.initial
    ensures var r := AddInitial(g, cfg, sn, states);
            Starting(g, ledger, d, r) && AllIn(g, d, r.view, states, 0) && sn.view.Keys <= r.view.Keys
    decreases |states|
  {
    if states != [] {
      hide Explored, QueueOk, ReportOk, SourceOk, Fresh;
      var n, i := |states| - 1, states[|states| - 1];
      assert states == states[..n] + [i];
      var before, r := AddInitial(g, cfg, sn, states[..n]), AddInitial(g, cfg, sn, states);
      AddInitialKeeps(g, ledger, d, cfg, sn, states[..n]);
      InitialReport(g, ledger, d, before.view, i);
      StartStep(g, ledger, d, cfg, before, i);
      AllInGrows(g, d, before.view, r.view, states[..n], i, 0);
    }
  }

  lemma StartStep<S(!new), K(!new)>(
      g: Grammar<S, K>, ledger: Ledger<K>, d: Discipline<K>, cfg: Config<S>, sn: Snapshot<S, K>, i: LazyState<S>)
    requires Starting(g, ledger, d, sn)
    requires g.made(i) && ReportOk(g, ledger, d, {}, Canon(g, i), 0, [i.action])
    requires SourceOk(g, ledger, d, sn.view, {}, Canon(g, i), 0, [i.action], [None])
    ensures var r := AddState(g, cfg, sn, i, None, 0, [i.action], [None]);
            && Starting(g, ledger, d, r) && Grows(d, sn.view, r.view) && Canon(g, i) in r.view
            && (!d.Loose? ==> r.view[Canon(g, i)].depthMinimum <= 0)
  {
    hide NodesOk, AllExpandedOk, LogOk, QueueOk, Leads, ParentDone, ReachedIn, SourceOk;
    AddStateQueues(g, ledger, d, cfg, sn, {}, i, None, 0, [i.action], [None], None);
    InternedExplored(g, ledger, d, cfg, sn.view, EmptyLog(), {}, i, 0, [i.action], |sn.edges|);
    InternedGrows(g, d, cfg, sn.view, i, 0, [i.action], |sn.edges|);
  }

  lemma BlankStarts<S(!new), K(!new)>(g: Grammar<S, K>, ledger: Ledger<K>, d: Discipline<K>, initial: nat)
    requires Fresh(g, d)
    ensures Starting(g, ledger, d, Blank(initial))
  {}

  lemma AllInitialIn<S(!new), K(!new)>(g: Grammar<S, K>, d: Discipline<K>, view: map<K, Node<S>>)
    requires AllIn(g, d, view, g.initial, 0)
    ensures InitialIn(g, d, view)
  {}

  /** A fresh search satisfies the invariant. */
  lemma StartKeeps<S(!new), K(!new)>(g: Grammar<S, K>, ledger: Ledger<K>, d: Discipline<K>, cfg: Config<S>)
    requires Fresh(g, d) && Lawful(g, ledger)
    ensures SearchOk(g, ledger, d, Start(g, cfg), EmptyLog())
  {
    hide Explored, QueueOk, Fresh;
    var blank := Blank<S, K>(|g.initial|);
    assert EmptyLog<S, K>().rank.Keys == {};
    BlankStarts(g, ledger, d, |g.initial|);
    AddInitialKeeps(g, ledger, d, cfg, blank, g.initial);
    AllInitialIn(g, d, Start(g, cfg).view);
  }

  // ---------- finishing ----------

  ghost predicate TerminalForm<S(!new), K(!new)>(g: Grammar<S, K>, k: K) {
    exists path, s :: PathTo(g, path, s) && Canon(g, s) == k && s.terminal
  }

  lemma ReachableByPath<S(!new), K(!new)>(g: Grammar<S, K>, path: seq<Action>, s: LazyState<S>)
    requires PathTo(g, path, s)
    ensures ReachedIn(g, |path| - 1, Canon(g, s)) && Reachable(g, Canon(g, s))
  {
    var n: nat := |path| - 1;
    assert |path| == n + 1;
    assert ReachedIn(g, n, Canon(g, s));
  }

  /** A search never invents a form: whatever it holds, at any time, is reachable, and every form
      it has classed as terminal is the form of a reachable terminal state. */
  lemma SearchInventsNothing<S(!new), K(!new)>(
      g: Grammar<S, K>, ledger: Ledger<K>, d: Discipline<K>, sn: Snapshot<S, K>, log: Log<S, K>, k: K)
    requires Lawful(g, ledger) && SearchOk(g, ledger, d, sn, log)
    ensures k in sn.view ==> ReachedIn(g, sn.view[k].depthMinimum, k)
    ensures k in sn.terminals ==> TerminalForm(g, k)
  {
    hide AllExpandedOk, LogOk, QueueOk, InitialIn, ParentDone;
    if k in sn.view {
      assert NodeOk(g, ledger, log.rank.Keys, k, sn.view[k]);
      if k in sn.terminals {
        var s :| PathTo(g, sn.view[k].path, s) && Canon(g, s) == k;
        PathIsMade(g, sn.view[k].path, s);
        assert Alike(g, s, sn.view[k].state);
      }
    }
  }

  /** A search whose queue has run dry, reduced or not, has found exactly the reachable forms,
      exactly the terminal ones among them, and, unless `Loose`, every shortest distance. */
  lemma DryQueueIsComplete<S(!new), K(!new)>(
      g: Grammar<S, K>, ledger: Ledger<K>, d: Discipline<K>, sn: Snapshot<S, K>, log: Log<S, K>, k: K)
    requires Lawful(g, ledger) && SearchOk(g, ledger, d, sn, log) && sn.queue == [] && !Lossy(d)
    ensures k in sn.view <==> Reachable(g, k)
    ensures k in sn.terminals <==> TerminalForm(g, k)
    ensures k in sn.view && !d.Loose? ==> Distance(g, k, sn.view[k].depthMinimum)
  {
    hide Lawful, AllExpandedOk, NodesOk, LogOk, ItemsOk, Layered;
    SearchInventsNothing(g, ledger, d, sn, log, k);
    assert Settled(sn.view) by {
      DrySettles(g, ledger, d, sn, log);
    }
    forall path, s | PathTo(g, path, s) && Canon(g, s) == k
      ensures k in sn.view && (!d.Loose? ==> sn.view[k].depthMinimum <= |path| - 1)
      ensures s.terminal ==> k in sn.terminals
    {
      FinishedTable(g, ledger, d, sn.view, log, log.rank.Keys, path, s);
      if s.terminal {
        PathIsMade(g, path, s) by { assert LegalIsEnabled(g) by { LawfulIsEnabled(g, ledger); } }
        TerminalIsSeen(g, ledger, d, sn, log, s);
      }
    }
    if Reachable(g, k) {
      var n: nat :| ReachedIn(g, n, k);
      var path, s :| |path| == n + 1 && PathTo(g, path, s) && Canon(g, s) == k;
    }
  }

  lemma LawfulIsEnabled<S(!new), K(!new)>(g: Grammar<S, K>, ledger: Ledger<K>)
    requires Lawful(g, ledger)
    ensures LegalIsEnabled(g)
  {}

  lemma DrySettles<S(!new), K(!new)>(
      g: Grammar<S, K>, ledger: Ledger<K>, d: Discipline<K>, sn: Snapshot<S, K>, log: Log<S, K>)
    requires SearchOk(g, ledger, d, sn, log) && sn.queue == []
    ensures Settled(sn.view) && forall k <- sn.view :: !sn.view[k].phase.Queued?
  {
    hide AllExpandedOk, LogOk, ItemsOk, Layered, InitialIn;
    forall k | k in sn.view
        ensures !sn.view[k].phase.Queued? && (sn.view[k].phase.Expanded? || sn.view[k].state.terminal) {
      assert NodeOk(g, ledger, log.rank.Keys, k, sn.view[k]);
      assert sn.view[k].phase.Queued? ==> HasItem(sn.queue, k);
    }
  }

  lemma TerminalIsSeen<S(!new), K(!new)>(
      g: Grammar<S, K>, ledger: Ledger<K>, d: Discipline<K>, sn: Snapshot<S, K>, log: Log<S, K>, s: LazyState<S>)
    requires Lawful(g, ledger) && SearchOk(g, ledger, d, sn, log) && sn.queue == []
    requires g.made(s) && s.terminal && Canon(g, s) in sn.view
    ensures Canon(g, s) in sn.terminals
  {
    hide AllExpandedOk, LogOk, ItemsOk, Layered, InitialIn;
    var k := Canon(g, s);
    DrySettles(g, ledger, d, sn, log);
    assert NodeOk(g, ledger, log.rank.Keys, k, sn.view[k]);
    assert Alike(g, s, sn.view[k].state);
  }

  /** Partial-order reduction loses nothing: two completed searches of one grammar, under any
      policies, reductions and interruptions, agree on forms and terminals, and on depths when
      neither was resumed. */
  lemma CompletedSearchesAgree<S(!new), K(!new)>(
      g: Grammar<S, K>, ledger: Ledger<K>, d1: Discipline<K>, full: Snapshot<S, K>, log1: Log<S, K>,
      d2: Discipline<K>, reduced: Snapshot<S, K>, log2: Log<S, K>)
    requires Lawful(g, ledger)
    requires SearchOk(g, ledger, d1, full, log1) && full.queue == [] && !Lossy(d1)
    requires SearchOk(g, ledger, d2, reduced, log2) && reduced.queue == [] && !Lossy(d2)
    ensures full.view.Keys == reduced.view.Keys && full.terminals == reduced.terminals
    ensures !d1.Loose? && !d2.Loose? ==>
        forall k <- full.view :: full.view[k].depthMinimum == reduced.view[k].depthMinimum
  {
    hide SearchOk, Lawful;
    forall k
      ensures k in full.view <==> k in reduced.view
      ensures k in full.terminals <==> k in reduced.terminals
      ensures k in full.view && !d1.Loose? && !d2.Loose? ==> full.view[k].depthMinimum == reduced.view[k].depthMinimum
    {
      DryQueueIsComplete(g, ledger, d1, full, log1, k);
      DryQueueIsComplete(g, ledger, d2, reduced, log2, k);
    }
  }

  // ---------- resuming ----------

  function FirstWith<S>(states: seq<LazyState<S>>, a: Action): Option<LazyState<S>> {
    if states == [] then None
    else if states[0].action == a then Some(states[0])
    else FirstWith(states[1..], a)
  }

  datatype Replay<+S> = Replay(states: seq<Option<LazyState<S>>>, last: LazyState<S>)

  /** Rebuild the states along a recorded path by applying its actions again. */
  function Replayed<S(!new), K(!new)>(g: Grammar<S, K>, path: seq<Action>): Option<Replay<S>>
    decreases |path|
  {
    if path == [] then None
    else if |path| == 1 then
      var first := FirstWith(g.initial, path[0]);
      if first.None? then None else Some(Replay([None], first.value))
    else
      var n := |path| - 1;
      var prefix := Replayed(g, path[..n]);
      if prefix.None? then None
      else
        var next := g.apply(Some(prefix.value.last), path[n]);
        if next.None? then None
        else Some(Replay(prefix.value.states + [Some(prefix.value.last)], next.value))
  }

  lemma {:induction false} FirstWithFinds<S>(states: seq<LazyState<S>>, i: LazyState<S>)
    requires i in states
    ensures FirstWith(states, i.action).Some?
    ensures FirstWith(states, i.action).value in states && FirstWith(states, i.action).value.action == i.action
  {
    if states[0].action != i.action {
      FirstWithFinds(states[1..], i);
    }
  }

  /** Replaying a recorded path succeeds and ends in the recorded form. The replayed states need
      not be the ones first seen, but they are canonically the same. */
  lemma {:induction false} ReplayAgrees<S(!new), K(!new)>(g: Grammar<S, K>, ledger: Ledger<K>, path: seq<Action>,
        s: LazyState<S>)
    requires Lawful(g, ledger) && PathTo(g, path, s)
    ensures Replayed(g, path).Some?
    ensures var r := Replayed(g, path).value;
            && g.made(r.last) && Alike(g, r.last, s) && |r.states| == |path|
            && (|path| == 1 ==>
                r.states[0] == None && s.action == path[0] && exists i <- g.initial ::
                i.action == path[0] && Canon(g, i) == Canon(g, s))
            && (|path| > 1 ==> var p := r.states[|path| - 1];
                 && p.Some? && Leads(g, path[..|path| - 1], Canon(g, p.value))
                 && Step(g, ledger, p.value, path[|path| - 1], r.last))
    decreases |path|
  {
    if |path| == 1 {
      FirstWithFinds(g.initial, s);
      assert Alike(g, FirstWith(g.initial, s.action).value, s);
    } else {
      var n := |path| - 1;
      var p := LastStep(g, ledger, path, s);
      ReplayAgrees(g, ledger, path[..n], p);
      var q := Replayed(g, path[..n]).value.last;
      assert g.made(q) && Alike(g, p, q);
      var t := StepAlike(g, ledger, p, q, path[n], s);
      assert InAlphabet(g, path[n]);
    }
  }

  /** The work list a resumed run starts from: every queued record, in the checkpoint's order, each
      with its path replayed. `None` is the source's error for a path that can no longer be replayed. */
  function Rebuilt<S(!new), K(!new)>(g: Grammar<S, K>, records: seq<(K, Node<S>)>): Option<seq<Work<S, K>>> {
    if records == [] then Some([])
    else
      var n := |records| - 1;
      var (k, node) := records[n];
      var rest := Rebuilt(g, records[..n]);
      if rest.None? then None
      else if !node.phase.Queued? then rest
      else
        var r := Replayed(g, node.path);
        if r.None? then None else Some(rest.value + [Work(k, node.path, r.value.states)])
  }

  /** `records` lists the table's records, each once. */
  ghost predicate Lists<S(!new), K(!new)>(records: seq<(K, Node<S>)>, view: map<K, Node<S>>) {
    Faithful(records, view) && forall k <- view :: exists r <- records :: r.0 == k
  }

  /** What replaying the path of a recorded form yields. */
  lemma ReplayedLeads<S(!new), K(!new)>(g: Grammar<S, K>, ledger: Ledger<K>, done: set<K>, path: seq<Action>, k: K)
    requires Lawful(g, ledger) && Leads(g, path, k) && ParentDone(g, ledger, done, path, k)
    ensures path != [] && Replayed(g, path).Some? && |Replayed(g, path).value.states| == |path|
    ensures match Replayed(g, path).value.states[|path| - 1]
            case None => exists i <- g.initial :: i.action == path[|path| - 1] && Canon(g, i) == k
            case Some(p) =>
              Canon(g, p) in done && exists x :: Step(g, ledger, p, path[|path| - 1], x) && Canon(g, x) == k
  {
    hide Lawful, Step, Replayed;
    var s :| PathTo(g, path, s) && Canon(g, s) == k;
    ReplayAgrees(g, ledger, path, s);
    var r := Replayed(g, path).value;
    if |path| > 1 {
      var p := r.states[|path| - 1].value;
      var q, x :| && Leads(g, path[..|path| - 1], Canon(g, q)) && Canon(g, q) in done
                  && Step(g, ledger, q, path[|path| - 1], x) && Canon(g, x) == k;
      SamePathAlike(g, ledger, path[..|path| - 1], p, q);
      assert Step(g, ledger, p, path[|path| - 1], r.last) && Canon(g, r.last) == k;
    }
  }

  lemma LevelOfStep<S(!new), K(!new)>(
      g: Grammar<S, K>, ledger: Ledger<K>, d: Discipline<K>, view: map<K, Node<S>>, p: LazyState<S>, a: Action,
      x: LazyState<S>)
    requires DepthsOk(d, view) && (d.Levelled? ==> Graded(g, d.level)) && !d.Fifo?
    requires Step(g, ledger, p, a, x) && Canon(g, p) in view && Canon(g, x) in view
    ensures !d.Loose? ==> view[Canon(g, p)].depthMinimum + 1 <= view[Canon(g, x)].depthMinimum
  {}

  lemma ReplayedWork<S(!new), K(!new)>(
      g: Grammar<S, K>, ledger: Ledger<K>, d: Discipline<K>, view: map<K, Node<S>>, log: Log<S, K>, k: K)
    requires Lawful(g, ledger) && Explored(g, ledger, d, view, log, log.rank.Keys) && !d.Fifo?
    requires k in view && view[k].phase.Queued?
    ensures Replayed(g, view[k].path).Some?
    ensures WorkOk(g, ledger, d, view, log.rank.Keys, Work(k, view[k].path, Replayed(g, view[k].path).value.states))
  {
    hide AllExpandedOk, Lawful, Leads, Replayed, Step, ParentDone, Graded, DepthsOk;
    var path := view[k].path;
    assert NodeOk(g, ledger, log.rank.Keys, k, view[k]);
    ReplayedLeads(g, ledger, log.rank.Keys, path, k);
    match Replayed(g, path).value.states[|path| - 1]
    case None =>
    case Some(p) =>
      var x :| Step(g, ledger, p, path[|path| - 1], x) && Canon(g, x) == k;
      LevelOfStep(g, ledger, d, view, p, path[|path| - 1], x);
  }

  /** A path leads to one form only. */
  lemma {:induction false} OnePathOneForm<S(!new), K(!new)>(
      g: Grammar<S, K>, ledger: Ledger<K>, path: seq<Action>, s: LazyState<S>, t: LazyState<S>)
    requires Lawful(g, ledger) && PathTo(g, path, s) && PathTo(g, path, t)
    ensures Alike(g, s, t)
    decreases |path|
  {
    if |path| > 1 {
      var p := LastStep(g, ledger, path, s);
      var q := LastStep(g, ledger, path, t);
      OnePathOneForm(g, ledger, path[..|path| - 1], p, q);
      assert AlikeResults(g, g.apply(Some(p), path[|path| - 1]), g.apply(Some(q), path[|path| - 1]));
    } else {
      assert s.action == t.action;
    }
  }

  lemma SamePathAlike<S(!new), K(!new)>(
      g: Grammar<S, K>, ledger: Ledger<K>, path: seq<Action>, p: LazyState<S>, q: LazyState<S>)
    requires Lawful(g, ledger) && Leads(g, path, Canon(g, p)) && Leads(g, path, Canon(g, q))
    ensures Alike(g, p, q)
  {
    var s :| PathTo(g, path, s) && Canon(g, s) == Canon(g, p);
    var t :| PathTo(g, path, t) && Canon(g, t) == Canon(g, q);
    OnePathOneForm(g, ledger, path, s, t);
  }

  /** The queued records of a list, and only they, are rebuilt from it, each once. */
  lemma {:induction false} RebuiltItems<S(!new), K(!new)>(
      g: Grammar<S, K>, ledger: Ledger<K>, d: Discipline<K>, view: map<K, Node<S>>, log: Log<S, K>, records: seq<(K,
        Node<S>)>)
    requires Lawful(g, ledger) && Explored(g, ledger, d, view, log, log.rank.Keys) && !d.Fifo?
    requires Faithful(records, view)
    ensures Rebuilt(g, records).Some?
    ensures ItemsOk(g, ledger, d, view, log.rank.Keys, Rebuilt(g, records).value, None)
    ensures ItemsDistinct(Rebuilt(g, records).value) && ListsQueued(records, Rebuilt(g, records).value)
    decreases |records|
  {
    hide Lawful, Explored, WorkOk, Replayed;
    if records != [] {
      var n, r := |records| - 1, records[|records| - 1];
      assert records == records[..n] + [r];
      assert r in records;
      FaithfulPrefix(records, view);
      RebuiltItems(g, ledger, d, view, log, records[..n]);
      var rest := Rebuilt(g, records[..n]).value;
      if r.1.phase.Queued? {
        ReplayedWork(g, ledger, d, view, log, r.0);
        var w := Work(r.0, r.1.path, Replayed(g, r.1.path).value.states);
        assert Rebuilt(g, records).value == rest + [w];
        ListsMore(records[..n], rest, r, w);
      } else {
        ListsSame(records[..n], rest, r);
      }
    }
  }

  ghost predicate Faithful<S(!new), K(!new)>(records: seq<(K, Node<S>)>, view: map<K, Node<S>>) {
    && (forall r <- records :: r.0 in view && view[r.0] == r.1)
    && (forall i, j :: 0 <= i < j < |records| ==> records[i].0 != records[j].0)
  }

  ghost predicate ListsQueued<S(!new), K(!new)>(records: seq<(K, Node<S>)>, queue: seq<Work<S, K>>) {
    && (forall w <- queue :: exists r <- records :: r.0 == w.key)
    && (forall r <- records :: r.1.phase.Queued? ==> HasItem(queue, r.0))
  }

  lemma FaithfulPrefix<S(!new), K(!new)>(records: seq<(K, Node<S>)>, view: map<K, Node<S>>)
    requires records != [] && Faithful(records, view)
    ensures Faithful(records[..|records| - 1], view)
    ensures forall r <- records[..|records| - 1] :: r.0 != records[|records| - 1].0
  {
    forall r | r in records[..|records| - 1] ensures r in records && r.0 != records[|records| - 1].0 {
      var i :| 0 <= i < |records| - 1 && records[i] == r;
    }
  }

  lemma ListsMore<S(!new), K(!new)>(records: seq<(K, Node<S>)>, queue: seq<Work<S, K>>, r: (K, Node<S>), w: Work<S, K>)
    requires ListsQueued(records, queue) && w.key == r.0 && ItemsDistinct(queue) && forall q <- records :: q.0 != r.0
    ensures ListsQueued(records + [r], queue + [w]) && ItemsDistinct(queue + [w])
  {
    forall v | v in queue ensures v.key != w.key && exists q <- records + [r] :: q.0 == v.key {
      var q :| q in records && q.0 == v.key;
      assert q in records + [r];
    }
    assert r in records + [r];
    forall q | q in records && q.1.phase.Queued? ensures HasItem(queue + [w], q.0) {
      assert HasItem(queue, q.0);
      var v :| v in queue && v.key == q.0;
      assert v in queue + [w];
    }
    assert (queue + [w])[|queue|] == w;
  }

  lemma ListsSame<S(!new), K(!new)>(records: seq<(K, Node<S>)>, queue: seq<Work<S, K>>, r: (K, Node<S>))
    requires ListsQueued(records, queue) && !r.1.phase.Queued?
    ensures ListsQueued(records + [r], queue)
  {
    forall v | v in queue ensures exists q <- records + [r] :: q.0 == v.key {
      var q :| q in records && q.0 == v.key;
      assert q in records + [r];
    }
  }

  /** A table that a stopped run may leave behind, and a later run resume from. `level` is given
      when the grammar is known to be graded. */
  ghost predicate Resumable<S(!new), K(!new)>(
      g: Grammar<S, K>, ledger: Ledger<K>, level: Option<K -> nat>, view: map<K, Node<S>>, terminals: set<K>)
  {
    && (exists log: Log<S, K> :: Explored(g, ledger, Resuming(level), view, log, log.rank.Keys))
    && InitialIn(g, Resuming(level), view) && TerminalsOk(view, terminals)
  }

  function Resuming<K(!new)>(level: Option<K -> nat>): Discipline<K> {
    match level
    case None => Loose(false)
    case Some(l) => Levelled(l)
  }

  /** Resuming re-establishes the invariant: no queued record is lost, and each gets back a path
      context that is canonically the one it was discovered with, or another genuine one. */
  lemma ResumeKeeps<S(!new), K(!new)>(
      g: Grammar<S, K>, ledger: Ledger<K>, level: Option<K -> nat>, records: seq<(K, Node<S>)>, sn: Snapshot<S, K>)
    returns (log: Log<S, K>)
    requires Lawful(g, ledger) && Resumable(g, ledger, level, sn.view, sn.terminals) && Lists(records, sn.view)
    ensures Rebuilt(g, records).Some?
    ensures SearchOk(g, ledger, Resuming(level), sn.(queue := Rebuilt(g, records).value), log)
  {
    hide Lawful, Explored, WorkOk, InitialIn, TerminalsOk;
    log :| Explored(g, ledger, Resuming(level), sn.view, log, log.rank.Keys);
    RebuiltItems(g, ledger, Resuming(level), sn.view, log, records);
    forall k | k in sn.view && sn.view[k].phase.Queued? ensures HasItem(Rebuilt(g, records).value, k) {
      var r :| r in records && r.0 == k;
    }
  }

  /** Any search may be stopped before any pop; what it leaves is resumable. */
  lemma StoppedIsResumable<S(!new), K(!new)>(
      g: Grammar<S, K>, ledger: Ledger<K>, d: Discipline<K>, sn: Snapshot<S, K>, log: Log<S, K>)
    requires SearchOk(g, ledger, d, sn, log) && !Lossy(d)
    ensures Resumable(g, ledger, if d.Levelled? then Some(d.level) else None, sn.view, sn.terminals)
  {
    hide NodesOk, QueueOk, OriginOk, EdgesOk;
    if !d.Levelled? {
      forall k | k in sn.view && sn.view[k].phase.Expanded?
          ensures ExpandedOk(g, ledger, Loose(false), sn.view, log, k) {
        assert ExpandedOk(g, ledger, d, sn.view, log, k);
        LooseOrigin(g, ledger, d, sn.view, log.rank.Keys, k, log.origin[k]);
      }
      assert Explored(g, ledger, Loose(false), sn.view, log, log.rank.Keys);
    } else {
      assert Explored(g, ledger, d, sn.view, log, log.rank.Keys);
    }
  }

  lemma LooseOrigin<S(!new), K(!new)>(
      g: Grammar<S, K>, ledger: Ledger<K>, d: Discipline<K>, view: map<K, Node<S>>, done: set<K>, k: K, o: Origin<S>)
    requires k in view && OriginOk(g, ledger, d, view, done, k, o) && EdgesOk(g, ledger, d, view, k, o) && !Lossy(d)
    ensures OriginOk(g, ledger, Loose(false), view, done, k, o) && EdgesOk(g, ledger, Loose(false), view, k, o)
  {
    forall b, x | Step(g, ledger, view[k].state, b, x)
      ensures Followed(g, Loose(false), view, k, x) || Excused(g, o.prev, o.last, b)
    {
      assert Followed(g, d, view, k, x) || Excused(g, o.prev, o.last, b);
    }
  }
}

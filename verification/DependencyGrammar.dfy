/** The dependency fixture, for any list of actions: it meets every contract of the search, so on it
    sequence enumeration, the canonical search and the reduced search agree without being tried. */
module DependencyGrammar {
  import opened Actions
  import opened Grammars
  import opened Exploration
  import opened Soundness
  import opened Steps
  import opened Completeness
  import opened SequenceSearch
  import opened Engine
  import opened Verifier

  function KeySet(actions: seq<Action>): set<string> {
    set a | a in actions :: a.key
  }

  /** The initial state's action: it has no footprint, so the screen never passes it. */
  const ENTER: Action := Action("enter", 0, BareFootprint().(complete := false))

  function State(actions: seq<Action>, applied: set<string>, action: Action): LazyState<set<string>> {
    LazyState(applied, action, |applied| == |actions|, Possible)
  }

  function Enabled(actions: seq<Action>, applied: set<string>): seq<Action> {
    if actions == [] then []
    else
      var n := |actions| - 1;
      Enabled(actions[..n], applied) + if actions[n].key in applied then [] else [actions[n]]
  }

  /** The initial action has no footprint to read, and applying it to a state is an error. */
  function Apply(actions: seq<Action>, state: Option<LazyState<set<string>>>,
        a: Action): Option<LazyState<set<string>>> {
    if state.None? || a == ENTER then None
    else
      var applied := state.value.semantic;
      if a.key in applied || !(a.footprint.needs <= applied) then None
      else Some(State(actions, applied + {a.key}, a))
  }

  /** Applied sets are kept sorted and every other component of the state is computed from them, so
      the set itself serves as canonical form. */
  function Dependencies(actions: seq<Action>): Grammar<set<string>, set<string>> {
    Grammar(
      (s: LazyState<set<string>>) => s.semantic <= KeySet(actions) && (s.terminal <==> |s.semantic| == |actions|),
      [State(actions, {}, ENTER)],
      (s: LazyState<set<string>>) => Enabled(actions, s.semantic),
      (s: Option<LazyState<set<string>>>, a: Action) => Apply(actions, s, a),
      (s: LazyState<set<string>>) => Envelope(s.semantic, 0, 0, 0))
  }

  function Named(actions: seq<Action>): set<string> {
    set a, k | a in actions && k in a.footprint.needs + a.footprint.conflicts + {a.key} :: k
  }

  function LedgerFor(actions: seq<Action>): Ledger<set<string>> {
    var named := Named(actions);
    Ledger(named, k => k * named + {ENTER.key} * named)
  }

  lemma NamesAll(actions: seq<Action>, a: Action)
    requires a in actions
    ensures a.footprint.needs + a.footprint.conflicts + {a.key} <= Named(actions)
  {
    forall k | k in a.footprint.needs + a.footprint.conflicts + {a.key} ensures k in Named(actions) {}
  }

  /** A well-formed action list: keys are distinct, and `enter` is taken. */
  ghost predicate DistinctKeys(actions: seq<Action>) {
    && (forall i, j :: 0 <= i < j < |actions| ==> actions[i].key != actions[j].key)
    && (forall a <- actions :: a.key != ENTER.key)
  }

  lemma {:induction false} EnabledMembers(actions: seq<Action>, applied: set<string>, a: Action)
    ensures a in Enabled(actions, applied) <==> a in actions && a.key !in applied
  {
    if actions != [] {
      var n := |actions| - 1;
      EnabledMembers(actions[..n], applied, a);
      assert actions == actions[..n] + [actions[n]];
    }
  }

  lemma {:induction false} KeySetSize(actions: seq<Action>)
    requires forall i, j :: 0 <= i < j < |actions| ==> actions[i].key != actions[j].key
    ensures |KeySet(actions)| == |actions|
  {
    if actions != [] {
      var n := |actions| - 1;
      KeySetSize(actions[..n]);
      assert actions == actions[..n] + [actions[n]];
      assert KeySet(actions) == KeySet(actions[..n]) + {actions[n].key};
      assert actions[n].key !in KeySet(actions[..n]);
    }
  }

  lemma SubsetIsNoLarger(a: set<string>, b: set<string>)
    requires a <= b
    ensures |a| <= |b| && (|a| == |b| ==> a == b)
  {
    assert b == a + (b - a);
  }

  lemma AlphabetIs(actions: seq<Action>, a: Action)
    requires InAlphabet(Dependencies(actions), a)
    ensures a in actions || a == ENTER
  {
    var g := Dependencies(actions);
    if s :| g.made(s) && a in g.enabled(s) {
      EnabledMembers(actions, s.semantic, a);
    }
  }

  lemma AppliesOnlyListed(actions: seq<Action>, s: LazyState<set<string>>, a: Action)
    requires DistinctKeys(actions) && Dependencies(actions).made(s) && InAlphabet(Dependencies(actions), a)
    requires Dependencies(actions).apply(Some(s), a).Some?
    ensures a in actions && a.key !in s.semantic && a.footprint.needs <= s.semantic
    ensures s.semantic + {a.key} <= KeySet(actions) && |s.semantic| < |actions|
  {
    AlphabetIs(actions, a);
    KeySetSize(actions);
    SubsetIsNoLarger(s.semantic, KeySet(actions));
    assert a.key in KeySet(actions);
  }

  lemma FixtureIsLegal(actions: seq<Action>, s: LazyState<set<string>>, a: Action)
    requires DistinctKeys(actions) && Dependencies(actions).made(s) && InAlphabet(Dependencies(actions), a)
    requires Dependencies(actions).apply(Some(s), a).Some?
    ensures var g, ledger, t := Dependencies(actions), LedgerFor(actions), Dependencies(actions).apply(Some(s),
        a).value;
            && g.made(t) && t.action == a && a in g.enabled(s)
            && a.footprint.needs <= ledger.applied(Canon(g, s))
            && ledger.applied(Canon(g, t)) == ledger.applied(Canon(g, s)) + {a.key} * ledger.named
  {
    AppliesOnlyListed(actions, s, a);
    EnabledMembers(actions, s.semantic, a);
    NamesAll(actions, a);
  }

  lemma FixtureRespectsForm(actions: seq<Action>)
    ensures RespectsForm(Dependencies(actions)) && RootIsInitial(Dependencies(actions))
  {}

  lemma FixtureNames(actions: seq<Action>, a: Action)
    requires InAlphabet(Dependencies(actions), a)
    ensures a.footprint.needs <= Named(actions) && a.footprint.conflicts <= Named(actions)
  {
    AlphabetIs(actions, a);
    if a in actions {
      NamesAll(actions, a);
    }
  }

  /** An order the reduction skips is legal the other way round, so its detour is not complete. */
  lemma FixtureExcuses(actions: seq<Action>)
    requires DistinctKeys(actions)
    ensures SkipsAreExcused(Dependencies(actions))
  {
    hide Named, KeySet, Enabled, DistinctKeys, StaticScreen, InAlphabet;
    var g := Dependencies(actions);
    forall prev, last, b | MadeOrRoot(g, prev) && InAlphabet(g, last) && InAlphabet(g, b) && Redundant(g, prev, last, b)
      ensures Excused(g, prev, last, b)
    {
      AppliesOnlyListed(actions, prev.value, b);
      AppliesOnlyListed(actions, g.apply(prev, b).value, last);
    }
  }

  lemma FixtureStarts(actions: seq<Action>)
    ensures var g, ledger := Dependencies(actions), LedgerFor(actions);
            forall i <- g.initial :: g.made(i) && ledger.applied(Canon(g, i)) == {i.action.key} * ledger.named
  {}

  lemma FixtureKeysIdentify(actions: seq<Action>)
    requires DistinctKeys(actions)
    ensures KeysIdentify(Dependencies(actions))
  {
    hide InAlphabet, Dependencies;
    forall a, b | InAlphabet(Dependencies(actions), a) && InAlphabet(Dependencies(actions), b) && a.key == b.key
        ensures a == b {
      AlphabetIs(actions, a);
      AlphabetIs(actions, b);
    }
  }

  lemma FixtureStep(actions: seq<Action>, history: seq<Action>, p: LazyState<set<string>>, a: Action,
                    s: LazyState<set<string>>)
    requires DistinctKeys(actions) && p.semantic <= KeySet(actions) && Move(Dependencies(actions), history, p, a, s)
    ensures a in actions && a.key !in p.semantic && s.semantic == p.semantic + {a.key}
    ensures s.semantic <= KeySet(actions) && (s.terminal <==> s.semantic == KeySet(actions))
  {
    EnabledMembers(actions, p.semantic, a);
    assert a.key in KeySet(actions);
    KeySetSize(actions);
    SubsetIsNoLarger(s.semantic, KeySet(actions));
  }

  lemma FixtureRoot(actions: seq<Action>, path: seq<Action>, s: LazyState<set<string>>)
    requires DistinctKeys(actions) && PathTo(Dependencies(actions), path, s) && |path| == 1
    ensures path[0] == ENTER && s.semantic == {} && (s.terminal <==> KeySet(actions) == {})
  {
    KeySetSize(actions);
    assert s == State(actions, {}, ENTER);
    assert |KeySet(actions)| == 0 ==> KeySet(actions) == {};
  }

  lemma NoEmptyPath(actions: seq<Action>, path: seq<Action>, s: LazyState<set<string>>)
    requires PathTo(Dependencies(actions), path, s)
    ensures path != []
  {}

  lemma FixtureLast(actions: seq<Action>, path: seq<Action>, s: LazyState<set<string>>)
    returns (p: LazyState<set<string>>)
    requires PathTo(Dependencies(actions), path, s) && |path| > 1
    ensures var n := |path| - 1;
            PathTo(Dependencies(actions), path[..n], p) && Move(Dependencies(actions), path[..n], p, path[n], s)
  {
    hide Dependencies, Move;
    var n := |path| - 1;
    assert PathOnward(Dependencies(actions), path[..n], path[n], s);
    p :| PathTo(Dependencies(actions), path[..n], p) && Move(Dependencies(actions), path[..n], p, path[n], s);
  }

  /** What the fixture's paths are: after entering, listed actions, none twice; the state holds exactly
      their keys, and is terminal exactly when all keys have been applied. */
  lemma {:induction false} FixturePaths(actions: seq<Action>, path: seq<Action>, s: LazyState<set<string>>)
    requires DistinctKeys(actions) && PathTo(Dependencies(actions), path, s)
    ensures path != [] && path[0] == ENTER && s.semantic == Keys(path[1..]) && |s.semantic| == |path| - 1
    ensures forall a <- path[1..] :: a in actions
    ensures s.semantic <= KeySet(actions) && (s.terminal <==> s.semantic == KeySet(actions))
    decreases |path|
  {
    hide Enabled, DistinctKeys, Dependencies, Move, KeySet, PathTo;
    var n := |path| - 1;
    NoEmptyPath(actions, path, s);
    if n == 0 {
      FixtureRoot(actions, path, s);
    } else {
      var p := FixtureLast(actions, path, s);
      FixturePaths(actions, path[..n], p);
      FixtureStep(actions, path[..n], p, path[n], s);
      assert path[1..] == path[..n][1..] + [path[n]];
      KeysOfAppend(path[..n][1..], path[n]);
    }
  }

  /** The fixture meets every contract of the search, for every action list with distinct keys. */
  lemma FixtureIsLawful(actions: seq<Action>)
    requires DistinctKeys(actions)
    ensures Lawful(Dependencies(actions), LedgerFor(actions)) && SkipsAreExcused(Dependencies(actions))
    ensures KeysIdentify(Dependencies(actions))
    ensures Graded(Dependencies(actions), (k: set<string>) => |k|)
  {
    hide Named, KeySet, Dependencies, InAlphabet, RespectsForm, RootIsInitial, DistinctKeys, Graded;
    var g, ledger := Dependencies(actions), LedgerFor(actions);
    FixtureRespectsForm(actions);
    FixtureExcuses(actions);
    FixtureStarts(actions);
    forall s, a | g.made(s) && InAlphabet(g, a) && g.apply(Some(s), a).Some?
      ensures var t := g.apply(Some(s), a).value;
              && g.made(t) && t.action == a && a in g.enabled(s)
              && a.footprint.needs <= ledger.applied(Canon(g, s))
              && ledger.applied(Canon(g, t)) == ledger.applied(Canon(g, s)) + {a.key} * ledger.named
    {
      FixtureIsLegal(actions, s, a);
    }
    forall a | InAlphabet(g, a)
      ensures a.footprint.needs <= ledger.named && a.footprint.conflicts <= ledger.named
    {
      FixtureNames(actions, a);
    }
    FixtureKeysIdentify(actions);
    FixtureIsGraded(actions);
  }

  lemma FixtureIsGraded(actions: seq<Action>)
    ensures Graded(Dependencies(actions), (k: set<string>) => |k|)
  {
    var g := Dependencies(actions);
    var level := (k: set<string>) => |k|;
    forall s, a | g.apply(Some(s), a).Some?
      ensures level(Canon(g, g.apply(Some(s), a).value)) == level(Canon(g, s)) + 1
    {
      assert a.key !in s.semantic;
    }
  }

  lemma PathStatesArePossible(actions: seq<Action>, path: seq<Action>, s: LazyState<set<string>>)
    requires PathTo(Dependencies(actions), path, s)
    ensures s.status.Possible?
  {
    var g := Dependencies(actions);
    if |path| > 1 {
      var n := |path| - 1;
      assert PathOnward(g, path[..n], path[n], s);
      var p :| PathTo(g, path[..n], p) && Move(g, path[..n], p, path[n], s);
    }
  }

  lemma LegalIsUnblocked(actions: seq<Action>, path: seq<Action>, s: LazyState<set<string>>, a: Action)
    requires DistinctKeys(actions) && a.footprint.conflicts == {}
    requires Dependencies(actions).made(s) && a in Dependencies(actions).enabled(s)
    requires Dependencies(actions).apply(Some(s), a).Some?
    requires Keys(path) * Named(actions) == s.semantic * Named(actions) + {ENTER.key} * Named(actions)
    ensures !Blocked(a, Keys(path))
  {
    hide Named, KeySet, Dependencies, Enabled, Apply, DistinctKeys, Keys;
    EnabledInAlphabet(actions, s, a);
    AppliesOnlyListed(actions, s, a);
    NamesAll(actions, a);
    NeedsMet(a.footprint.needs, Keys(path), s.semantic, Named(actions), {ENTER.key});
  }

  lemma EnabledInAlphabet(actions: seq<Action>, s: LazyState<set<string>>, a: Action)
    requires Dependencies(actions).made(s) && a in Dependencies(actions).enabled(s)
    ensures InAlphabet(Dependencies(actions), a)
  {}

  lemma NeedsMet(needs: set<string>, keys: set<string>, applied: set<string>, named: set<string>, entered: set<string>)
    requires needs <= applied && needs <= named && keys * named == applied * named + entered * named
    ensures needs <= keys
  {
    forall k | k in needs ensures k in keys {
      assert k in applied * named + entered * named;
    }
  }

  /** States are never marked impossible and, without declared conflicts, the dependency guard only
      holds back what the grammar would refuse. */
  lemma FixtureIsTransparent(actions: seq<Action>)
    requires DistinctKeys(actions) && forall a <- actions :: a.footprint.conflicts == {}
    ensures AllPossible(Dependencies(actions)) && GuardIsIdle(Dependencies(actions))
  {
    hide Lawful, PathTo, Blocked, KeysIdentify, Graded;
    var g := Dependencies(actions);
    FixtureIsLawful(actions);
    LawfulIsEnabled(g, LedgerFor(actions));
    forall path, s | PathTo(g, path, s) ensures s.status.Possible? {
      PathStatesArePossible(actions, path, s);
    }
    forall path, s, a | PathTo(g, path, s) && a in g.enabled(s) && g.apply(Some(s), a).Some?
      ensures !Blocked(a, Keys(path))
    {
      PathIsMade(g, path, s);
      LedgerOfPath(g, LedgerFor(actions), path, s);
      EnabledMembers(actions, s.semantic, a);
      LegalIsUnblocked(actions, path, s, a);
    }
  }

  // ---------- how large the fixture is ----------

  function Pow2(n: nat): nat {
    if n == 0 then 1 else 2 * Pow2(n - 1)
  }

  /** The states generated below one with `m` actions to go, if no action waits for another. */
  function Tail(m: nat): nat {
    if m == 0 then 0 else m * (1 + Tail(m - 1))
  }

  function Subsets(s: set<string>): set<set<string>> {
    set k: set<string> | k <= s
  }

  function With(some: set<set<string>>, x: string): set<set<string>> {
    set k | k in some :: k + {x}
  }

  lemma SubsetsSplit(s: set<string>, x: string, k: set<string>)
    requires x in s
    ensures k in Subsets(s) <==> k in Subsets(s - {x}) || k in With(Subsets(s - {x}), x)
    ensures !(k in Subsets(s - {x}) && k in With(Subsets(s - {x}), x))
  {
    if k <= s && x in k {
      assert k == (k - {x}) + {x} && k - {x} in Subsets(s - {x});
    }
  }

  lemma SubsetsOfNone()
    ensures |Subsets({})| == 1
  {
    forall k ensures k in Subsets({}) <==> k in {{}} {
      assert k <= {} <==> k == {};
    }
    assert Subsets({}) == {{}};
  }

  lemma {:induction false} WithIsAsMany(some: set<set<string>>, x: string)
    requires forall k <- some :: x !in k
    ensures |With(some, x)| == |some|
    decreases |some|
  {
    if some != {} {
      var k :| k in some;
      WithIsAsMany(some - {k}, x);
      assert k + {x} !in With(some - {k}, x) by {
        forall j | j in some - {k} ensures j + {x} != k + {x} {
          assert j == (j + {x}) - {x} && k == (k + {x}) - {x};
        }
      }
      assert With(some, x) == With(some - {k}, x) + {k + {x}};
    }
  }

  lemma SubsetsDouble(s: set<string>, x: string)
    requires x in s
    ensures |Subsets(s)| == 2 * |Subsets(s - {x})|
  {
    var rest, with := Subsets(s - {x}), With(Subsets(s - {x}), x);
    WithIsAsMany(rest, x) by { assert forall k <- rest :: x !in k; }
    hide Subsets, With;
    forall k ensures (k in Subsets(s) <==> k in rest || k in with) && !(k in rest && k in with) {
      SubsetsSplit(s, x, k);
    }
    assert Subsets(s) == rest + with && rest !! with;
  }

  lemma {:induction false} CountSubsets(s: set<string>)
    ensures |Subsets(s)| == Pow2(|s|)
    decreases |s|
  {
    hide Subsets;
    if s == {} {
      SubsetsOfNone();
    } else {
      var x :| x in s;
      CountSubsets(s - {x});
      SubsetsDouble(s, x);
    }
  }

  lemma IntersectMore(applied: set<string>, keys: set<string>, key: string)
    requires key !in keys
    ensures |applied * (keys + {key})| == |applied * keys| + if key in applied then 1 else 0
  {
    if key in applied {
      assert applied * (keys + {key}) == applied * keys + {key};
    } else {
      assert applied * (keys + {key}) == applied * keys;
    }
  }

  lemma {:induction false} CountEnabled(actions: seq<Action>, applied: set<string>)
    requires forall i, j :: 0 <= i < j < |actions| ==> actions[i].key != actions[j].key
    ensures |Enabled(actions, applied)| + |applied * KeySet(actions)| == |actions|
  {
    if actions == [] {
      assert applied * KeySet(actions) == {};
    } else {
      var n := |actions| - 1;
      CountEnabled(actions[..n], applied);
      assert KeySet(actions) == KeySet(actions[..n]) + {actions[n].key} by {
        assert actions == actions[..n] + [actions[n]];
      }
      assert actions[n].key !in KeySet(actions[..n]);
      hide KeySet;
      IntersectMore(applied, KeySet(actions[..n]), actions[n].key);
    }
  }

  function Below(actions: seq<Action>): LazyState<set<string>> -> nat {
    (s: LazyState<set<string>>) => if |s.semantic| <= |actions| then Tail(|actions| - |s.semantic|) else 0
  }

  lemma {:induction false} RealizedIsSmall(g: Grammar<set<string>, set<string>>, s: LazyState<set<string>>,
        actions: seq<Action>)
    ensures |Realized(g, s, actions)| <= |actions|
  {
    if actions != [] {
      RealizedIsSmall(g, s, actions[..|actions| - 1]);
    }
  }

  lemma {:induction false} EqualWeights(weight: LazyState<set<string>> -> nat, states: seq<LazyState<set<string>>>,
        w: nat)
    requires forall s <- states :: weight(s) == w
    ensures TotalWeight(weight, states) == |states| * w
  {
    if states != [] {
      EqualWeights(weight, states[1..], w);
    }
  }

  lemma Scale(a: nat, b: nat, w: nat)
    requires a <= b
    ensures a + a * w <= b * (1 + w)
  {
    assert b * (1 + w) - a * (1 + w) == (b - a) * (1 + w);
  }

  lemma FewEnabled(actions: seq<Action>, s: LazyState<set<string>>)
    requires DistinctKeys(actions) && Dependencies(actions).made(s) && !s.terminal
    ensures |s.semantic| < |actions| && |Dependencies(actions).enabled(s)| == |actions| - |s.semantic|
  {
    KeySetSize(actions);
    CountEnabled(actions, s.semantic);
    hide KeySet, Enabled;
    SubsetIsNoLarger(s.semantic, KeySet(actions));
    assert s.semantic * KeySet(actions) == s.semantic;
  }

  lemma ChildIsLarger(actions: seq<Action>, s: LazyState<set<string>>, a: Action)
    requires Dependencies(actions).apply(Some(s), a).Some?
    ensures |Dependencies(actions).apply(Some(s), a).value.semantic| == |s.semantic| + 1
  {
    assert a.key !in s.semantic;
  }

  lemma ChildrenWeighLess(actions: seq<Action>, s: LazyState<set<string>>)
    requires DistinctKeys(actions) && Dependencies(actions).made(s) && !s.terminal
    ensures |Expansion(Dependencies(actions), s)| + TotalWeight(Below(actions),
        Expansion(Dependencies(actions), s)) <= Below(actions)(s)
  {
    hide KeySet, Named, Realized, Dependencies;
    var g := Dependencies(actions);
    var enabled, children := g.enabled(s), Expansion(g, s);
    FewEnabled(actions, s);
    var m := |actions| - |s.semantic|;
    RealizedIsSmall(g, s, enabled);
    forall c | c in children ensures Below(actions)(c) == Tail(m - 1) {
      RealizedMembers(g, s, enabled, c);
      var a :| a in enabled && g.apply(Some(s), a) == Some(c);
      ChildIsLarger(actions, s, a);
    }
    EqualWeights(Below(actions), children, Tail(m - 1));
    Scale(|children|, m, Tail(m - 1));
  }

  lemma FixtureIsWeighted(actions: seq<Action>)
    requires DistinctKeys(actions) && forall a <- actions :: a.footprint.conflicts == {}
    ensures Weighted(Dependencies(actions), Below(actions))
  {
    hide Dependencies, DistinctKeys, TotalWeight, Below, GuardIsIdle, AllPossible, Lawful;
    var g := Dependencies(actions);
    FixtureIsLawful(actions);
    LawfulIsEnabled(g, LedgerFor(actions));
    FixtureIsTransparent(actions);
    forall s | Derivable(g, s) && s.status.Possible? && !s.terminal
      ensures |Expansion(g, s)| + TotalWeight(Below(actions), Expansion(g, s)) <= Below(actions)(s)
    {
      var n: nat :| Derived(g, n, s);
      var path := DerivedByPath(g, n, s);
      PathIsMade(g, path, s);
      ChildrenWeighLess(actions, s);
    }
  }

  lemma FormsAreSubsets(actions: seq<Action>, k: set<string>)
    requires DistinctKeys(actions) && Reachable(Dependencies(actions), k)
    ensures k in Subsets(KeySet(actions))
  {
    hide DistinctKeys, Lawful;
    var g := Dependencies(actions);
    FixtureIsLawful(actions);
    LawfulIsEnabled(g, LedgerFor(actions));
    var n: nat :| ReachedIn(g, n, k);
    var path, s :| |path| == n + 1 && PathTo(g, path, s) && Canon(g, s) == k;
    PathIsMade(g, path, s);
  }

  /** A configuration that never stops a search of `n` actions early. */
  ghost predicate Ample(cfg: Config<set<string>>, n: nat) {
    && cfg.nodeBudget >= Pow2(n) && cfg.workBudget.None? && OneScoreEach(cfg) && forall pops :: !cfg.interrupted(pops)
  }

  lemma {:induction false} Pow2Positive(n: nat)
    ensures Pow2(n) >= 1
  {
    if n > 0 {
      Pow2Positive(n - 1);
    }
  }

  lemma AmpleCompletes(actions: seq<Action>, cfg: Config<set<string>>, r: SearchResult<set<string>, set<string>>)
    requires DistinctKeys(actions) && Ample(cfg, |actions|)
    requires ValidResult(Dependencies(actions), LedgerFor(actions), None, r)
        && RunOf(Dependencies(actions), cfg, None, r)
    ensures r.complete
  {
    hide Dependencies, Reachable, ValidResult, RunOf, Subsets;
    KeySetSize(actions);
    CountSubsets(KeySet(actions));
    forall k | Reachable(Dependencies(actions), k) ensures k in Subsets(KeySet(actions)) {
      FormsAreSubsets(actions, k);
    }
    EnoughBudgetCompletes(Dependencies(actions), LedgerFor(actions), None, cfg, None, r, Subsets(KeySet(actions)));
  }

  /** What the qualification campaign checks by example, for every action list: if the enumeration,
      the canonical search and the reduced search all complete, as they do whenever the budgets are
      ample, their terminal forms are the same. */
  method Qualify(actions: seq<Action>, nodeBudget: nat, full: Config<set<string>>, reduced: Config<set<string>>,
                 digest: set<string> -> nat, secondary: set<string> -> nat)
    returns (compared: bool, parity: bool)
    requires DistinctKeys(actions) && (forall a <- actions :: a.footprint.conflicts == {})
        && Identifies(digest, secondary)
    requires full.por || reduced.por ==> Unambiguous(Dependencies(actions), digest)
    ensures nodeBudget >= 1 + Tail(|actions|) && Ample(full, |actions|) && Ample(reduced, |actions|) ==> compared
    ensures compared ==> parity
  {
    hide Lawful, KeysIdentify, ValidResult, RunOf, Graded, Dependencies, LegalIsEnabled, AllPossible, GuardIsIdle,
        Weighted,
      SkipsAreExcused, SequenceTerminal, TerminalForm, Reachable, ViewOf, ExactDepths, Identifies, Unambiguous,
      OneScoreEach;
    var g := Dependencies(actions);
    ghost var ledger := LedgerFor(actions);
    LawfulIsEnabled(g, ledger) by { FixtureIsLawful(actions); }
    FixtureIsLawful(actions);
    FixtureIsTransparent(actions);
    var complete, expected, generated := EnumerateSequences(g, nodeBudget, Below(actions));
    GeneratesAtMost(actions, generated);
    var a := Search(g, full, digest, secondary, None, ledger, None);
    var b := Search(g, reduced, digest, secondary, None, ledger, None);
    Pow2Positive(|actions|);
    if Ample(full, |actions|) && Ample(reduced, |actions|) {
      AmpleCompletes(actions, full, a.result);
      AmpleCompletes(actions, reduced, b.result);
    }
    if !complete || a.Failed? || b.Failed? || !a.result.complete || !b.result.complete {
      return false, false;
    }
    forall k
      ensures k in expected <==> k in a.result.terminals
      ensures k in expected <==> k in b.result.terminals
    {
      TerminalParity(g, k);
    }
    return true, expected == a.result.terminals && expected == b.result.terminals;
  }

  lemma GeneratesAtMost(actions: seq<Action>, generated: nat)
    requires DistinctKeys(actions) && forall a <- actions :: a.footprint.conflicts == {}
    requires var g := Dependencies(actions);
             Weighted(g, Below(actions)) ==> generated <= |g.initial| + TotalWeight(Below(actions), g.initial)
    ensures generated <= 1 + Tail(|actions|)
  {
    hide Weighted;
    FixtureIsWeighted(actions);
    var initial := Dependencies(actions).initial;
    assert initial[1..] == [];
    assert TotalWeight(Below(actions), initial) == Below(actions)(initial[0]);
  }
}

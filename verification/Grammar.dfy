/** Lazy grammars, canonical forms, the contracts the search relies on, and reachability. */
module Grammars {
  import opened Actions

  datatype Option<+T> = None | Some(value: T)

  datatype Status = Possible | Impossible | Dominated

  datatype LazyState<+S> = LazyState(semantic: S, action: Action, terminal: bool, status: Status)

  /** What canonicalisation reports about a state. `bytes` is the canonical form and the sole
      authority for merging; `raw` identifies the form before renaming. */
  datatype Envelope<+K> = Envelope(bytes: K, raw: nat, alphaRenames: nat, symmetryPermutations: nat)

  /** An action-native grammar together with the canonicaliser the search applies to its states.
      `made` tells the states the grammar constructs from other values of the state type.
      `apply(None, a)` is what the source asks when it looks for an alternative first action. */
  datatype Grammar<!S(!new), !K(!new)> = Grammar(
    made: LazyState<S> -> bool,
    initial: seq<LazyState<S>>,
    enabled: LazyState<S> -> seq<Action>,
    apply: (Option<LazyState<S>>, Action) -> Option<LazyState<S>>,
    envelope: LazyState<S> -> Envelope<K>)

  function Canon<S(!new), K(!new)>(g: Grammar<S, K>, s: LazyState<S>): K {
    g.envelope(s).bytes
  }

  predicate Alike<S(!new), K(!new, ==)>(g: Grammar<S, K>, s: LazyState<S>, t: LazyState<S>) {
    Canon(g, s) == Canon(g, t)
  }

  predicate AlikeResults<S(!new), K(!new, ==)>(g: Grammar<S, K>, x: Option<LazyState<S>>, y: Option<LazyState<S>>) {
    match (x, y)
    case (None, None) => true
    case (Some(s), Some(t)) => Alike(g, s, t)
    case _ => false
  }

  // ---------- contracts ----------

  /** The actions the grammar ever offers. */
  ghost predicate InAlphabet<S(!new), K(!new)>(g: Grammar<S, K>, a: Action) {
    || (exists s :: g.made(s) && a in g.enabled(s))
    || (exists i <- g.initial :: i.action == a)
  }

  /** Canonically equal states are interchangeable: they agree on being terminal, enable the same
      actions and have canonically equal successors. */
  ghost predicate RespectsForm<S(!new), K(!new)>(g: Grammar<S, K>) {
    forall s, t {:trigger Alike(g, s, t)} :: Alike(g, s, t) && g.made(s) && g.made(t) ==>
      && s.terminal == t.terminal
      && (forall a :: a in g.enabled(s) <==> a in g.enabled(t))
      && (forall a :: InAlphabet(g, a) ==> AlikeResults(g, g.apply(Some(s), a), g.apply(Some(t), a)))
  }

  /** A legal action was enabled, and its result records it. */
  ghost predicate LegalIsEnabled<S(!new), K(!new)>(g: Grammar<S, K>) {
    && (forall i <- g.initial :: g.made(i))
    && (forall s, a {:trigger g.apply(Some(s), a)} :: g.made(s) && InAlphabet(g, a) && g.apply(Some(s), a).Some? ==>
          var t := g.apply(Some(s), a).value;
          g.made(t) && t.action == a && a in g.enabled(s))
  }

  ghost predicate MadeOrRoot<S(!new), K(!new)>(g: Grammar<S, K>, state: Option<LazyState<S>>) {
    state.Some? ==> g.made(state.value)
  }

  /** Applying an action to the absent root yields the initial state carrying it, or nothing. */
  ghost predicate RootIsInitial<S(!new), K(!new)>(g: Grammar<S, K>) {
    && (forall a :: InAlphabet(g, a) && g.apply(None, a).Some? ==>
          && g.made(g.apply(None, a).value)
          && exists i <- g.initial :: i.action == a && Alike(g, i, g.apply(None, a).value))
    && (forall i, j :: i in g.initial && j in g.initial && i.action == j.action ==> Alike(g, i, j))
  }

  /** Which applied keys matter (`named`), and how a canonical form determines those among them
      that have been applied. */
  datatype Ledger<!K(!new)> = Ledger(named: set<string>, applied: K -> set<string>)

  /** Every key a footprint needs or conflicts with is named by the ledger, the canonical form
      determines the named keys applied so far, and an action with an unmet need is not legal. */
  ghost predicate KeepsLedger<S(!new), K(!new)>(g: Grammar<S, K>, ledger: Ledger<K>) {
    && (forall a {:trigger InAlphabet(g, a)} :: InAlphabet(g, a) ==>
          a.footprint.needs <= ledger.named && a.footprint.conflicts <= ledger.named)
    && (forall i <- g.initial :: ledger.applied(Canon(g, i)) == {i.action.key} * ledger.named)
    && (forall s, a {:trigger g.apply(Some(s), a)} :: g.made(s) && InAlphabet(g, a) && g.apply(Some(s), a).Some? ==>
          && a.footprint.needs <= ledger.applied(Canon(g, s))
          && ledger.applied(Canon(g, g.apply(Some(s), a).value))
             == ledger.applied(Canon(g, s)) + {a.key} * ledger.named)
  }

  /** Action keys identify actions. */
  ghost predicate KeysIdentify<S(!new), K(!new)>(g: Grammar<S, K>) {
    forall a, b {:trigger InAlphabet(g, a), InAlphabet(g, b)} ::
      InAlphabet(g, a) && InAlphabet(g, b) && a.key == b.key ==> a == b
  }

  ghost predicate Lawful<S(!new), K(!new)>(g: Grammar<S, K>, ledger: Ledger<K>) {
    RespectsForm(g) && LegalIsEnabled(g) && RootIsInitial(g) && KeepsLedger(g, ledger)
  }

  // ---------- reachability ----------

  /** `a` may be tried at `s` after `history`, and leads to `t`. */
  predicate Move<S(!new, ==), K(!new)>(g: Grammar<S, K>, history: seq<Action>, s: LazyState<S>, a: Action,
        t: LazyState<S>) {
    !s.terminal && a in g.enabled(s) && !Blocked(a, Keys(history)) && g.apply(Some(s), a) == Some(t)
  }

  /** The unreduced search space: `path` is an action sequence that leads to `s`. */
  ghost predicate PathTo<S(!new), K(!new)>(g: Grammar<S, K>, path: seq<Action>, s: LazyState<S>)
    decreases |path|, 0
  {
    if |path| <= 1 then
      |path| == 1 && s in g.initial && s.action == path[0]
    else
      PathOnward(g, path[..|path| - 1], path[|path| - 1], s)
  }

  ghost predicate PathOnward<S(!new), K(!new)>(g: Grammar<S, K>, prefix: seq<Action>, a: Action, s: LazyState<S>)
    decreases |prefix|, 1
  {
    exists p :: PathTo(g, prefix, p) && Move(g, prefix, p, a, s)
  }

  /** The canonical form `k` is reached by some path of `n` actions after the initial one. */
  ghost predicate ReachedIn<S(!new), K(!new)>(g: Grammar<S, K>, n: nat, k: K) {
    exists path, s :: |path| == n + 1 && PathTo(g, path, s) && Canon(g, s) == k
  }

  ghost predicate Reachable<S(!new), K(!new)>(g: Grammar<S, K>, k: K) {
    exists n: nat :: ReachedIn(g, n, k)
  }

  /** `n` is the length of the shortest path to `k`. */
  ghost predicate Distance<S(!new), K(!new)>(g: Grammar<S, K>, k: K, n: nat) {
    ReachedIn(g, n, k) && forall i: nat :: ReachedIn(g, i, k) ==> n <= i
  }

  /** A path of actions leads to the canonical form `k`. */
  ghost predicate Leads<S(!new), K(!new)>(g: Grammar<S, K>, path: seq<Action>, k: K) {
    exists s :: PathTo(g, path, s) && Canon(g, s) == k
  }
}

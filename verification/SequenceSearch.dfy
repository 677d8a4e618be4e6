/** The qualification baseline: enumerate action sequences with no transposition table, and when its
    terminal forms are those of the canonical search. */
module SequenceSearch {
  import opened Actions
  import opened Grammars
  import opened Exploration
  import opened Soundness
  import opened Completeness
  import Steps

  /** The grammar's own expansion of a state. */
  function Expansion<S(!new), K(!new)>(g: Grammar<S, K>, s: LazyState<S>): seq<LazyState<S>> {
    Realized(g, s, g.enabled(s))
  }

  /** `s` is generated by some action sequence through possible, nonterminal states. Unlike the
      canonical search the enumeration drops impossible and dominated states, and has no
      dependency guard of its own. */
  ghost predicate Derived<S(!new), K(!new)>(g: Grammar<S, K>, n: nat, s: LazyState<S>) {
    if n == 0 then s in g.initial
    else exists p :: Derived(g, n - 1, p) && p.status.Possible? && !p.terminal && s in Expansion(g, p)
  }

  ghost predicate SequenceTerminal<S(!new), K(!new)>(g: Grammar<S, K>, k: K) {
    exists n: nat, s :: Derived(g, n, s) && s.status.Possible? && s.terminal && Canon(g, s) == k
  }

  ghost predicate Derivable<S(!new), K(!new)>(g: Grammar<S, K>, s: LazyState<S>) {
    exists n: nat :: Derived(g, n, s)
  }

  /** The invariant of the enumeration: `seen` states have been taken off the queue. */
  ghost predicate Enumerating<S(!new), K(!new)>(
      g: Grammar<S, K>, seen: set<LazyState<S>>, queue: seq<LazyState<S>>, terminals: set<K>)
  {
    && (forall s :: s in seen || s in queue ==> Derivable(g, s))
    && (forall i <- g.initial :: i in seen || i in queue)
    && (forall p <- seen :: p.status.Possible? && !p.terminal ==>
        forall s <- Expansion(g, p) :: s in seen || s in queue)
    && (forall k :: k in terminals <==> exists s <- seen :: s.status.Possible? && s.terminal && Canon(g, s) == k)
  }

  lemma {:induction false} EverythingSeen<S(!new), K(!new)>(
      g: Grammar<S, K>, seen: set<LazyState<S>>, terminals: set<K>, n: nat, s: LazyState<S>)
    requires Enumerating(g, seen, [], terminals) && Derived(g, n, s)
    ensures s in seen
    decreases n
  {
    if n > 0 {
      var p :| Derived(g, n - 1, p) && p.status.Possible? && !p.terminal && s in Expansion(g, p);
      EverythingSeen(g, seen, terminals, n - 1, p);
    }
  }

  lemma EnumerationStep<S(!new), K(!new)>(
      g: Grammar<S, K>, seen: set<LazyState<S>>, queue: seq<LazyState<S>>, terminals: set<K>)
    requires queue != [] && Enumerating(g, seen, queue, terminals)
    ensures var s := queue[0];
            Enumerating(g, seen + {s},
                        if s.status.Possible? && !s.terminal then queue[1..] + Expansion(g, s) else queue[1..],
                        if s.status.Possible? && s.terminal then terminals + {Canon(g, s)} else terminals)
  {
    var s := queue[0];
    var expands := s.status.Possible? && !s.terminal;
    var rest := if expands then queue[1..] + Expansion(g, s) else queue[1..];
    assert forall x :: x in queue <==> x == s || x in queue[1..];
    assert forall x :: x in rest <==> x in queue[1..] || (expands && x in Expansion(g, s));
    forall x | x in rest ensures Derivable(g, x) {
      if x !in queue[1..] {
        var n: nat :| Derived(g, n, s);
        assert Derived(g, n + 1, x);
      }
    }
  }

  function TotalWeight<S(!new)>(weight: LazyState<S> -> nat, states: seq<LazyState<S>>): nat {
    if states == [] then 0 else weight(states[0]) + TotalWeight(weight, states[1..])
  }

  lemma {:induction false} TotalWeightAdds<S(!new)>(weight: LazyState<S> -> nat, a: seq<LazyState<S>>,
        b: seq<LazyState<S>>)
    ensures TotalWeight(weight, a + b) == TotalWeight(weight, a) + TotalWeight(weight, b)
  {
    if a == [] {
      assert a + b == b;
    } else {
      assert (a + b)[1..] == a[1..] + b;
      TotalWeightAdds(weight, a[1..], b);
    }
  }

  /** `weight` bounds how many states are generated below a state. */
  ghost predicate Weighted<S(!new), K(!new)>(g: Grammar<S, K>, weight: LazyState<S> -> nat) {
    forall s {:trigger Derivable(g, s)} :: Derivable(g, s) && s.status.Possible? && !s.terminal ==>
      |Expansion(g, s)| + TotalWeight(weight, Expansion(g, s)) <= weight(s)
  }

  /** Enumerate every action sequence, or stop once too many states have been generated. */
  method EnumerateSequences<S(!new), K(!new, ==)>(g: Grammar<S, K>, nodeBudget: nat, ghost weight: LazyState<S> -> nat)
    returns (complete: bool, terminals: set<K>, generated: nat)
    ensures !complete ==> generated > nodeBudget
    ensures Weighted(g, weight) ==> generated <= |g.initial| + TotalWeight(weight, g.initial)
    ensures forall k <- terminals :: SequenceTerminal(g, k)
    ensures complete ==> forall k :: k in terminals <==> SequenceTerminal(g, k)
  {
    var queue := g.initial;
    ghost var seen: set<LazyState<S>> := {};
    complete, terminals, generated := true, {}, |queue|;
    assert forall i <- g.initial :: Derived(g, 0, i);
    while queue != []
      invariant Enumerating(g, seen, queue, terminals)
      invariant Weighted(g, weight) ==>
          generated + TotalWeight(weight, queue) <= |g.initial| + TotalWeight(weight, g.initial)
      decreases if generated <= nodeBudget then nodeBudget + 1 - generated else 0, |queue|
    {
      if generated > nodeBudget {
        complete := false;
        break;
      }
      EnumerationStep(g, seen, queue, terminals);
      var s := queue[0];
      assert Derivable(g, s);
      TotalWeightAdds(weight, queue[1..], Expansion(g, s));
      queue := queue[1..];
      seen := seen + {s};
      if s.status.Possible? {
        if s.terminal {
          terminals := terminals + {Canon(g, s)};
        } else {
          var children := Expansion(g, s);
          generated := generated + |children|;
          queue := queue + children;
        }
      }
    }
    forall k | k in terminals ensures SequenceTerminal(g, k) {
      var s :| s in seen && s.status.Possible? && s.terminal && Canon(g, s) == k;
      assert Derivable(g, s);
    }
    if complete {
      forall k | SequenceTerminal(g, k) ensures k in terminals {
        var n: nat, s :| Derived(g, n, s) && s.status.Possible? && s.terminal && Canon(g, s) == k;
        EverythingSeen(g, seen, terminals, n, s);
      }
    }
  }

  // ---------- parity with the canonical search ----------

  /** No state on the way is marked impossible or dominated: the canonical search ignores the mark. */
  ghost predicate AllPossible<S(!new), K(!new)>(g: Grammar<S, K>) {
    forall path, s {:trigger PathTo(g, path, s)} :: PathTo(g, path, s) ==> s.status.Possible?
  }

  /** The dependency guard never holds back an action that the grammar would apply. */
  ghost predicate GuardIsIdle<S(!new), K(!new)>(g: Grammar<S, K>) {
    forall path, s, a {:trigger PathTo(g, path, s), g.apply(Some(s), a)} ::
      PathTo(g, path, s) && a in g.enabled(s) && g.apply(Some(s), a).Some? ==> !Blocked(a, Keys(path))
  }

  lemma {:induction false} DerivedByPath<S(!new), K(!new)>(g: Grammar<S, K>, n: nat, s: LazyState<S>)
        returns (path: seq<Action>)
    requires LegalIsEnabled(g) && GuardIsIdle(g) && Derived(g, n, s)
    ensures PathTo(g, path, s)
    decreases n
  {
    if n == 0 {
      path := [s.action];
    } else {
      var p :| Derived(g, n - 1, p) && p.status.Possible? && !p.terminal && s in Expansion(g, p);
      var prefix := DerivedByPath(g, n - 1, p);
      Steps.RealizedMembers(g, p, g.enabled(p), s);
      var a :| a in g.enabled(p) && g.apply(Some(p), a) == Some(s);
      PathAppend(g, prefix, p, a, s);
      path := prefix + [a];
    }
  }

  lemma {:induction false} PathIsDerived<S(!new), K(!new)>(g: Grammar<S, K>, path: seq<Action>, s: LazyState<S>)
    requires AllPossible(g) && PathTo(g, path, s)
    ensures Derived(g, |path| - 1, s)
    decreases |path|
  {
    if |path| > 1 {
      var n := |path| - 1;
      assert PathOnward(g, path[..n], path[n], s);
      var p :| PathTo(g, path[..n], p) && Move(g, path[..n], p, path[n], s);
      PathIsDerived(g, path[..n], p);
      Steps.RealizedMembers(g, p, g.enabled(p), s);
      assert Derived(g, n - 1, p);
    }
  }

  /** Each difference between the two searches accounts for one direction of terminal parity; with
      neither, they have the same terminal forms. */
  lemma TerminalParity<S(!new), K(!new)>(g: Grammar<S, K>, k: K)
    requires LegalIsEnabled(g)
    ensures GuardIsIdle(g) ==> (SequenceTerminal(g, k) ==> TerminalForm(g, k))
    ensures AllPossible(g) ==> (TerminalForm(g, k) ==> SequenceTerminal(g, k))
  {
    if GuardIsIdle(g) && SequenceTerminal(g, k) {
      var n: nat, s :| Derived(g, n, s) && s.status.Possible? && s.terminal && Canon(g, s) == k;
      var path := DerivedByPath(g, n, s);
    }
    if AllPossible(g) && TerminalForm(g, k) {
      var path, s :| PathTo(g, path, s) && Canon(g, s) == k && s.terminal;
      PathIsDerived(g, path, s);
      var n: nat := |path| - 1;
      assert Derived(g, n, s);
    }
  }
}

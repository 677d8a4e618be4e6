/** The independence verifier: a footprint screen, then both orders of a pair tried at the actual
    state, with the verdict cached under the digest of the state and the two action keys. */
module Verifier {
  import opened Actions
  import opened Grammars
  import opened Exploration
  import opened Commutation

  datatype Evidence = Evidence(independent: bool, reason: string)

  type CacheKey = (Option<nat>, string, string)

  /** The uncached verdict. */
  function Judge<S(!new), K(!new, ==)>(g: Grammar<S, K>, state: Option<LazyState<S>>, left: Action,
        right: Action): Evidence {
    var screen := StaticScreen(left, right);
    if screen.Rejected? then Evidence(false, screen.reason)
    else
      var l, r := g.apply(state, left), g.apply(state, right);
      var lr := if l.Some? then g.apply(l, right) else None;
      var rl := if r.Some? then g.apply(r, left) else None;
      if lr.None? || rl.None? then Evidence(false, "both action orders are not legal")
      else if Alike(g, lr.value, rl.value) then Evidence(true, "state-scoped AB/BA canonical equality")
      else Evidence(false, "AB/BA states differ")
  }

  lemma JudgeDecidesCommutes<S(!new), K(!new)>(g: Grammar<S, K>, state: Option<LazyState<S>>, left: Action,
        right: Action)
    ensures Judge(g, state, left, right).independent <==> Commutes(g, state, left, right)
  {}

  /** Both orders are legal and lead to one canonical form. */
  ghost predicate OrdersMeet<S(!new), K(!new)>(g: Grammar<S, K>, state: Option<LazyState<S>>, a: Action, b: Action) {
    exists l, r, lr, rl ::
      && g.apply(state, a) == Some(l) && g.apply(Some(l), b) == Some(lr)
      && g.apply(state, b) == Some(r) && g.apply(Some(r), a) == Some(rl) && Canon(g, lr) == Canon(g, rl)
  }

  /** What independence means, without the screen: compatible footprints and orders that meet. */
  lemma IndependenceMeans<S(!new), K(!new)>(g: Grammar<S, K>, state: Option<LazyState<S>>, a: Action, b: Action)
    ensures Commutes(g, state, a, b) <==> Compatible(a, b) && OrdersMeet(g, state, a, b)
  {
    ScreenDecides(a, b);
    hide StaticScreen, Compatible;
    if Commutes(g, state, a, b) {
      var l, r := g.apply(state, a).value, g.apply(state, b).value;
      var lr, rl := g.apply(Some(l), b).value, g.apply(Some(r), a).value;
      assert g.apply(state, a) == Some(l) && g.apply(Some(l), b) == Some(lr) && g.apply(Some(r), a) == Some(rl);
    }
  }

  lemma CommutesIsSymmetric<S(!new), K(!new)>(g: Grammar<S, K>, state: Option<LazyState<S>>, a: Action, b: Action)
    ensures Commutes(g, state, a, b) <==> Commutes(g, state, b, a)
  {
    ScreenIsSymmetric(a, b);
  }

  /** Independence is a property of the canonical form, so evidence may be shared between states. */
  lemma CommutesRespectsForm<S(!new), K(!new)>(g: Grammar<S, K>, s: LazyState<S>, t: LazyState<S>, a: Action, b: Action)
    requires RespectsForm(g) && LegalIsEnabled(g) && g.made(s) && g.made(t) && Alike(g, s, t)
    requires InAlphabet(g, a) && InAlphabet(g, b)
    ensures Commutes(g, Some(s), a, b) <==> Commutes(g, Some(t), a, b)
  {
    assert AlikeResults(g, g.apply(Some(s), a), g.apply(Some(t), a));
    assert AlikeResults(g, g.apply(Some(s), b), g.apply(Some(t), b));
    if g.apply(Some(s), a).Some? && g.apply(Some(s), b).Some? {
      var l, l' := g.apply(Some(s), a).value, g.apply(Some(t), a).value;
      var r, r' := g.apply(Some(s), b).value, g.apply(Some(t), b).value;
      assert Alike(g, l, l') && Alike(g, r, r');
      assert AlikeResults(g, g.apply(Some(l), b), g.apply(Some(l'), b));
      assert AlikeResults(g, g.apply(Some(r), a), g.apply(Some(r'), a));
    }
  }

  function KeyOf<S(!new), K(!new)>(
      g: Grammar<S, K>, digest: K -> nat, state: Option<LazyState<S>>, left: Action, right: Action): CacheKey
  {
    (if state.None? then None else Some(digest(Canon(g, state.value))), left.key, right.key)
  }

  datatype Query<+S> = Query(state: Option<LazyState<S>>, left: Action, right: Action)

  /** A question the search may put to the verifier. */
  ghost predicate Askable<S(!new), K(!new)>(g: Grammar<S, K>, q: Query<S>) {
    MadeOrRoot(g, q.state) && InAlphabet(g, q.left) && InAlphabet(g, q.right)
  }

  function KeyFor<S(!new), K(!new)>(g: Grammar<S, K>, digest: K -> nat, q: Query<S>): CacheKey {
    KeyOf(g, digest, q.state, q.left, q.right)
  }

  predicate Independent<S(!new), K(!new, ==)>(g: Grammar<S, K>, q: Query<S>) {
    Commutes(g, q.state, q.left, q.right)
  }

  /** Questions that share a cache entry have the same answer. Digests may collide, as long as they
      do so only where the actions behave alike. */
  ghost predicate Unambiguous<S(!new), K(!new)>(g: Grammar<S, K>, digest: K -> nat) {
    forall p, q {:trigger KeyFor(g, digest, p), KeyFor(g, digest, q)} ::
      Askable(g, p) && Askable(g, q) && KeyFor(g, digest, p) == KeyFor(g, digest, q) ==>
        (Independent(g, p) <==> Independent(g, q))
  }

  /** Every cached verdict is the verdict of every question it answers. */
  ghost predicate CacheOk<S(!new), K(!new)>(g: Grammar<S, K>, digest: K -> nat, cache: map<CacheKey, Evidence>) {
    forall q {:trigger KeyFor(g, digest, q)} ::
      Askable(g, q) && KeyFor(g, digest, q) in cache ==>
        (cache[KeyFor(g, digest, q)].independent <==> Independent(g, q))
  }

  /** The cache once `q` has been asked: a new verdict is stored under both orders of the pair. */
  function Asked<S(!new), K(!new, ==)>(
      g: Grammar<S, K>, digest: K -> nat, cache: map<CacheKey, Evidence>, q: Query<S>): map<CacheKey, Evidence>
  {
    if KeyFor(g, digest, q) in cache then cache
    else
      var e := Judge(g, q.state, q.left, q.right);
      cache[KeyFor(g, digest, q) := e][KeyOf(g, digest, q.state, q.right, q.left) := e]
  }

  /** Asking a question keeps the cache right. */
  lemma CacheKeeps<S(!new), K(!new)>(g: Grammar<S, K>, digest: K -> nat, cache: map<CacheKey, Evidence>, q: Query<S>)
    requires Unambiguous(g, digest) && CacheOk(g, digest, cache) && Askable(g, q)
    ensures CacheOk(g, digest, Asked(g, digest, cache, q))
  {
    hide InAlphabet, Judge, Commutes;
    var after := Asked(g, digest, cache, q);
    var swapped := Query(q.state, q.right, q.left);
    assert KeyFor(g, digest, swapped) == KeyOf(g, digest, q.state, q.right, q.left);
    JudgeDecidesCommutes(g, q.state, q.left, q.right);
    CommutesIsSymmetric(g, q.state, q.left, q.right);
    forall p | Askable(g, p) && KeyFor(g, digest, p) in after
      ensures after[KeyFor(g, digest, p)].independent <==> Independent(g, p)
    {
      if after != cache {
        assert KeyFor(g, digest, p) == KeyFor(g, digest, q) ==> (Independent(g, p) <==> Independent(g, q));
        assert KeyFor(g, digest, p) == KeyFor(g, digest, swapped) ==> (Independent(g, p) <==> Independent(g, swapped));
      }
    }
  }

  lemma Served<S(!new), K(!new)>(g: Grammar<S, K>, digest: K -> nat, cache: map<CacheKey, Evidence>, q: Query<S>)
    requires CacheOk(g, digest, cache) && Askable(g, q) && KeyFor(g, digest, q) in cache
    ensures cache[KeyFor(g, digest, q)].independent <==> Independent(g, q)
  {}

  /** Both orders of every cached pair have one entry. */
  ghost predicate Mirrored(cache: map<CacheKey, Evidence>) {
    forall k <- cache :: (k.0, k.2, k.1) in cache && cache[(k.0, k.2, k.1)] == cache[k]
  }

  /** Asking stores the verdict for both orders and leaves every other entry alone; asking again, in either
      order, tries nothing. */
  lemma AskedOnce<S(!new), K(!new)>(g: Grammar<S, K>, digest: K -> nat, cache: map<CacheKey, Evidence>, q: Query<S>)
    requires Mirrored(cache)
    ensures var after, swapped := Asked(g, digest, cache, q), Query(q.state, q.right, q.left);
            && Mirrored(after) && KeyFor(g, digest, q) in after && KeyFor(g, digest, swapped) in after
            && (forall k <- cache :: k in after && after[k] == cache[k])
            && (forall k <- after :: k in cache || k == KeyFor(g, digest, q) || k == KeyFor(g, digest, swapped))
            && Asked(g, digest, after, q) == after && Asked(g, digest, after, swapped) == after
  {
    hide Judge;
    var (k, m) := (KeyFor(g, digest, q), KeyOf(g, digest, q.state, q.right, q.left));
    assert m == (k.0, k.2, k.1) && (m.0, m.2, m.1) == k;
    assert KeyFor(g, digest, Query(q.state, q.right, q.left)) == m;
    assert k in cache <==> m in cache;
  }

  /** The reason given with a verdict is true. */
  lemma JudgeGivesReason<S(!new), K(!new)>(g: Grammar<S, K>, state: Option<LazyState<S>>, left: Action, right: Action)
    ensures var e := Judge(g, state, left, right);
            if e.independent then e.reason == "state-scoped AB/BA canonical equality"
            else || (StaticScreen(left, right).Rejected? && Holds(e.reason, left, right))
                 || (e.reason == "both action orders are not legal" && !OrdersLegal(g, state, left, right))
                 || (e.reason == "AB/BA states differ" && OrdersLegal(g, state, left, right)
                     && !OrdersMeet(g, state, left, right))
  {
    if StaticScreen(left, right).Rejected? {
      ReasonHolds(left, right);
    }
    hide StaticScreen, Holds;
  }

  /** Both orders can be taken to their end. */
  ghost predicate OrdersLegal<S(!new), K(!new)>(g: Grammar<S, K>, state: Option<LazyState<S>>, a: Action, b: Action) {
    (exists l, lr :: g.apply(state, a) == Some(l) && g.apply(Some(l), b) == Some(lr))
    && (exists r, rl :: g.apply(state, b) == Some(r) && g.apply(Some(r), a) == Some(rl))
  }

  /** The cache after a series of questions. */
  function CacheAfter<S(!new), K(!new, ==)>(g: Grammar<S, K>, digest: K -> nat,
        asked: seq<Query<S>>): map<CacheKey, Evidence> {
    if asked == [] then map[]
    else Asked(g, digest, CacheAfter(g, digest, asked[..|asked| - 1]), asked[|asked| - 1])
  }

  lemma {:induction false} TruthfulAfter<S(!new), K(!new)>(g: Grammar<S, K>, digest: K -> nat, asked: seq<Query<S>>)
    requires Unambiguous(g, digest) && forall q <- asked :: Askable(g, q)
    ensures CacheOk(g, digest, CacheAfter(g, digest, asked))
  {
    if asked != [] {
      var n := |asked| - 1;
      TruthfulAfter(g, digest, asked[..n]);
      CacheKeeps(g, digest, CacheAfter(g, digest, asked[..n]), asked[n]);
    }
  }

  /** Two questions that share an entry and differ in their answers: asking one spoils the cache. */
  lemma OneQuestionSpoils<S(!new), K(!new)>(g: Grammar<S, K>, digest: K -> nat, p: Query<S>, q: Query<S>)
    requires Askable(g, p) && Askable(g, q)
    requires KeyFor(g, digest, p) == KeyFor(g, digest, q) && (Independent(g, p) <==> !Independent(g, q))
    ensures !CacheOk(g, digest, CacheAfter(g, digest, [p]))
  {
    hide InAlphabet, Judge, Commutes;
    assert [p][..0] == [];
    assert CacheAfter(g, digest, [p]) == Asked(g, digest, map[], p);
    JudgeDecidesCommutes(g, p.state, p.left, p.right);
  }

  /** The cache stays truthful, whatever is asked, exactly when questions that share an entry never
      differ in their answers. */
  lemma TruthfulExactlyWhenUnambiguous<S(!new), K(!new)>(g: Grammar<S, K>, digest: K -> nat)
    ensures Unambiguous(g, digest) <==>
            forall asked: seq<Query<S>> :: (forall q <- asked :: Askable(g, q)) ==>
                CacheOk(g, digest, CacheAfter(g, digest, asked))
  {
    hide Askable, Independent, KeyFor, CacheOk, CacheAfter;
    if Unambiguous(g, digest) {
      forall asked: seq<Query<S>> | forall q <- asked :: Askable(g, q)
          ensures CacheOk(g, digest, CacheAfter(g, digest, asked)) {
        TruthfulAfter(g, digest, asked);
      }
    } else {
      var p, q :| && Askable(g, p) && Askable(g, q) && KeyFor(g, digest, p) == KeyFor(g, digest, q)
                  && !(Independent(g, p) <==> Independent(g, q));
      OneQuestionSpoils(g, digest, p, q);
      assert forall x <- [p] :: Askable(g, x);
    }
  }

  /** The digest separates canonical forms. */
  ghost predicate Separates<K(!new)>(digest: K -> nat) {
    forall k, k' :: digest(k) == digest(k') ==> k == k'
  }

  /** Digests that never collide are more than enough, if keys identify actions. */
  lemma SeparatingIsUnambiguous<S(!new), K(!new)>(g: Grammar<S, K>, digest: K -> nat)
    requires RespectsForm(g) && LegalIsEnabled(g) && KeysIdentify(g) && Separates(digest)
    ensures Unambiguous(g, digest)
  {
    hide RespectsForm, LegalIsEnabled, InAlphabet, Commutes;
    forall p, q | Askable(g, p) && Askable(g, q) && KeyFor(g, digest, p) == KeyFor(g, digest, q)
      ensures Independent(g, p) <==> Independent(g, q)
    {
      if p.state.Some? {
        CommutesRespectsForm(g, p.state.value, q.state.value, p.left, p.right);
      }
    }
  }

  class IndependenceVerifier<S(!new), K(!new, ==)> {
    const g: Grammar<S, K>
    const digest: K -> nat
    var cache: map<CacheKey, Evidence>

    constructor (g: Grammar<S, K>, digest: K -> nat)
      ensures this.g == g && this.digest == digest && cache == map[]
    {
      this.g, this.digest, this.cache := g, digest, map[];
    }

    /** Answer from the cache if the entry is there, otherwise try both orders and store the verdict. */
    method Verify(state: Option<LazyState<S>>, left: Action, right: Action) returns (e: Evidence)
      modifies this
      ensures cache == Asked(g, digest, old(cache), Query(state, left, right))
      ensures e == cache[KeyOf(g, digest, state, left, right)]
      ensures Unambiguous(g, digest) && CacheOk(g, digest, old(cache)) && Askable(g, Query(state, left, right)) ==>
                && CacheOk(g, digest, cache) && (e.independent <==> Commutes(g, state, left, right))
                && (e.independent <==> Compatible(left, right) && OrdersMeet(g, state, left, right))
    {
      IndependenceMeans(g, state, left, right);
      hide Unambiguous, CacheOk, Askable, Judge, Commutes, Compatible, OrdersMeet;
      ghost var q := Query(state, left, right);
      if Unambiguous(g, digest) && CacheOk(g, digest, cache) && Askable(g, q) {
        CacheKeeps(g, digest, cache, q);
        Served(g, digest, Asked(g, digest, cache, q), q);
      }
      var key := KeyOf(g, digest, state, left, right);
      if key !in cache {
        e := Judge(g, state, left, right);
        cache := cache[key := e][KeyOf(g, digest, state, right, left) := e];
      }
      return cache[key];
    }
  }
}

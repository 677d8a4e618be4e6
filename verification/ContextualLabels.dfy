/** Contextual labels of a search forest: what each state leads to, how far away and at what cost, and
    the preferences between actions drawn from that. The forest is given by its trees. */
module ContextualLabels {
  import opened Grammars

  const TIERS: nat := 4

  type Tier = t: nat | t <= TIERS

  /** A state with its own terminal, if it owns one, and the states discovered from it. */
  datatype Tree = Tree(terminal: Option<Tier>, cost: real, children: seq<Tree>)

  /** `byTier[t]` is the distance to a terminal of at least tier `t`; index 0 is unused. */
  datatype Metric = Metric(tier: Tier, distance: Option<nat>, byTier: seq<Option<nat>>, cost: real, counts: seq<nat>)

  function OwnTier(t: Tree): Tier {
    if t.terminal.Some? then t.terminal.value else 0
  }

  // ---------- the computation ----------

  function Maximum(own: Tier, ms: seq<Metric>): Tier {
    if ms == [] then own
    else
      var rest := Maximum(own, ms[..|ms| - 1]);
      if ms[|ms| - 1].tier > rest then ms[|ms| - 1].tier else rest
  }

  /** The least distance known to any child, one step further. */
  function Nearest(ms: seq<Metric>, tier: nat): Option<nat>
    requires tier <= TIERS && forall k :: 0 <= k < |ms| ==> |ms[k].byTier| == TIERS + 1
  {
    if ms == [] then None
    else
      var rest, last := Nearest(ms[..|ms| - 1], tier), ms[|ms| - 1].byTier[tier];
      if last.None? then rest
      else if rest.None? || last.value + 1 < rest.value then Some(last.value + 1) else rest
  }

  function TotalCost(own: real, ms: seq<Metric>): real {
    if ms == [] then own else TotalCost(own, ms[..|ms| - 1]) + ms[|ms| - 1].cost
  }

  function TotalCount(own: nat, ms: seq<Metric>, tier: nat): nat
    requires tier <= TIERS && forall k :: 0 <= k < |ms| ==> |ms[k].counts| == TIERS + 1
  {
    if ms == [] then own else TotalCount(own, ms[..|ms| - 1], tier) + ms[|ms| - 1].counts[tier]
  }

  function Children(t: Tree): (ms: seq<Metric>)
    ensures |ms| == |t.children|
    ensures forall k :: 0 <= k < |ms| ==> ms[k] == MetricOf(t.children[k])
    decreases t, 0
  {
    seq(|t.children|, k requires 0 <= k < |t.children| => MetricOf(t.children[k]))
  }

  function MetricOf(t: Tree): (m: Metric)
    ensures |m.byTier| == TIERS + 1 && |m.counts| == TIERS + 1
    decreases t, 1
  {
    var ms := Children(t);
    var own := OwnTier(t);
    var best := Maximum(own, ms);
    Metric(
      best,
      if own == best && own > 0 then Some(0) else if best == 0 then None else Nearest(ms, best),
      seq(TIERS + 1, tier requires 0 <= tier <= TIERS =>
        if tier == 0 then None else if t.terminal.Some? && own >= tier then Some(0) else Nearest(ms, tier)),
      TotalCost(t.cost, ms),
      seq(TIERS + 1, tier requires 0 <= tier <= TIERS =>
        TotalCount(OwnCount(t, tier), ms, tier)))
  }

  // ---------- what it means ----------

  /** `n` lies `d` steps below `t`. */
  ghost predicate Below(t: Tree, d: nat, n: Tree)
    decreases d
  {
    if d == 0 then n == t else exists k :: 0 <= k < |t.children| && Below(t.children[k], d - 1, n)
  }

  ghost predicate Leads(t: Tree, d: nat, tier: nat) {
    exists n :: Below(t, d, n) && n.terminal.Some? && n.terminal.value >= tier
  }

  lemma LeadsStep(t: Tree, d: nat, tier: nat)
    requires d > 0
    ensures Leads(t, d, tier) <==> exists k :: 0 <= k < |t.children| && Leads(t.children[k], d - 1, tier)
  {
    if Leads(t, d, tier) {
      var n :| Below(t, d, n) && n.terminal.Some? && n.terminal.value >= tier;
      var k :| 0 <= k < |t.children| && Below(t.children[k], d - 1, n);
      assert Leads(t.children[k], d - 1, tier);
    }
    if k :| 0 <= k < |t.children| && Leads(t.children[k], d - 1, tier) {
      var n :| Below(t.children[k], d - 1, n) && n.terminal.Some? && n.terminal.value >= tier;
      assert Below(t, d, n);
    }
  }

  lemma LeadsHere(t: Tree, tier: nat)
    ensures Leads(t, 0, tier) <==> t.terminal.Some? && t.terminal.value >= tier
  {
    assert Below(t, 0, t);
  }

  /** `d` is the length of the shortest way to a terminal of at least this tier. */
  ghost predicate Shortest(t: Tree, tier: nat, d: Option<nat>) {
    match d
    case None => forall e: nat :: !Leads(t, e, tier)
    case Some(n) => Leads(t, n, tier) && forall e: nat :: e < n ==> !Leads(t, e, tier)
  }

  lemma MetricUnfolds(t: Tree)
    ensures MetricOf(t).tier == Maximum(OwnTier(t), Children(t))
    ensures forall tier :: 1 <= tier <= TIERS ==>
      MetricOf(t).byTier[tier] == if t.terminal.Some? && OwnTier(t) >= tier then Some(0) else Nearest(Children(t), tier)
    ensures MetricOf(t).cost == TotalCost(t.cost, Children(t))
    ensures forall tier :: 0 <= tier <= TIERS ==>
      MetricOf(t).counts[tier] == TotalCount(OwnCount(t, tier), Children(t), tier)
  {
    hide Maximum, Nearest, TotalCost, TotalCount, Children;
  }

  lemma {:induction false} NearestIsLeast(ms: seq<Metric>, tier: nat)
    requires tier <= TIERS && forall k :: 0 <= k < |ms| ==> |ms[k].byTier| == TIERS + 1
    ensures match Nearest(ms, tier) {
              case None => forall k :: 0 <= k < |ms| ==> ms[k].byTier[tier].None?
              case Some(n) => (exists k ::
                0 <= k < |ms| && ms[k].byTier[tier].Some? && n == ms[k].byTier[tier].value + 1)
                              && forall k :: 0 <= k < |ms| && ms[k].byTier[tier].Some? ==>
                                  n <= ms[k].byTier[tier].value + 1
            }
    decreases |ms|
  {
    if ms != [] {
      var init := ms[..|ms| - 1];
      NearestIsLeast(init, tier);
      if Nearest(init, tier).Some? {
        var k :| 0 <= k < |init| && init[k].byTier[tier].Some?
            && Nearest(init, tier).value == init[k].byTier[tier].value + 1;
        assert ms[k] == init[k];
      }
    }
  }

  /** No way through a child is shorter than what the children know. */
  lemma NotCloser(t: Tree, tier: nat, e: nat)
    requires 1 <= tier <= TIERS && Leads(t, e, tier) && e > 0
    requires forall k :: 0 <= k < |t.children| ==> Shortest(t.children[k], tier, MetricOf(t.children[k]).byTier[tier])
    ensures Nearest(Children(t), tier).Some? && Nearest(Children(t), tier).value <= e
  {
    LeadsStep(t, e, tier);
    var k :| 0 <= k < |t.children| && Leads(t.children[k], e - 1, tier);
    assert Shortest(t.children[k], tier, MetricOf(t.children[k]).byTier[tier]);
    NearestIsLeast(Children(t), tier);
    hide Leads, MetricOf, Nearest;
    assert Children(t)[k].byTier[tier].Some?;
  }

  lemma LeadsThrough(t: Tree, tier: nat, k: nat, d: nat)
    requires k < |t.children| && Shortest(t.children[k], tier, Some(d))
    ensures Leads(t, d + 1, tier)
  {
    assert Leads(t.children[k], d, tier);
    hide Leads, Shortest;
    LeadsStep(t, d + 1, tier);
  }

  lemma NearestChild(t: Tree, tier: nat) returns (k: nat)
    requires 1 <= tier <= TIERS && Nearest(Children(t), tier).Some?
    ensures k < |t.children| && MetricOf(t.children[k]).byTier[tier].Some?
    ensures Nearest(Children(t), tier).value == MetricOf(t.children[k]).byTier[tier].value + 1
  {
    NearestIsLeast(Children(t), tier);
    hide MetricOf, Nearest;
    k :| 0 <= k < |t.children| && Children(t)[k].byTier[tier].Some?
      && Nearest(Children(t), tier).value == Children(t)[k].byTier[tier].value + 1;
  }

  lemma Attained(t: Tree, tier: nat)
    requires 1 <= tier <= TIERS && Nearest(Children(t), tier).Some?
    requires forall k :: 0 <= k < |t.children| ==> Shortest(t.children[k], tier, MetricOf(t.children[k]).byTier[tier])
    ensures Leads(t, Nearest(Children(t), tier).value, tier)
  {
    hide Leads, MetricOf, Nearest, Shortest;
    var k := NearestChild(t, tier);
    LeadsThrough(t, tier, k, MetricOf(t.children[k]).byTier[tier].value);
  }

  /** The distances are those of shortest ways. */
  lemma {:induction false} DistancesAreShortest(t: Tree, tier: nat)
    requires 1 <= tier <= TIERS
    ensures Shortest(t, tier, MetricOf(t).byTier[tier])
    decreases t
  {
    MetricUnfolds(t);
    LeadsHere(t, tier);
    hide MetricOf, Leads, Nearest;
    forall k | 0 <= k < |t.children| ensures Shortest(t.children[k], tier, MetricOf(t.children[k]).byTier[tier]) {
      DistancesAreShortest(t.children[k], tier);
    }
    if !(t.terminal.Some? && OwnTier(t) >= tier) {
      forall e: nat | Leads(t, e, tier)
          ensures Nearest(Children(t), tier).Some? && Nearest(Children(t), tier).value <= e {
        NotCloser(t, tier, e);
      }
      if Nearest(Children(t), tier).Some? {
        Attained(t, tier);
      }
    }
  }

  /** A higher tier is never nearer. */
  lemma DistancesGrow(t: Tree, tier: nat)
    requires 1 <= tier < TIERS
    ensures MetricOf(t).byTier[tier + 1].Some? ==>
      MetricOf(t).byTier[tier].Some? && MetricOf(t).byTier[tier].value <= MetricOf(t).byTier[tier + 1].value
  {
    DistancesAreShortest(t, tier);
    DistancesAreShortest(t, tier + 1);
    hide MetricOf;
    if MetricOf(t).byTier[tier + 1].Some? {
      var n := MetricOf(t).byTier[tier + 1].value;
      assert Leads(t, n, tier + 1);
      assert Leads(t, n, tier) by {
        var x :| Below(t, n, x) && x.terminal.Some? && x.terminal.value >= tier + 1;
      }
    }
  }

  lemma {:induction false} MaximumIsGreatest(own: Tier, ms: seq<Metric>)
    ensures Maximum(own, ms) >= own && forall k :: 0 <= k < |ms| ==> Maximum(own, ms) >= ms[k].tier
    ensures Maximum(own, ms) == own || exists k :: 0 <= k < |ms| && Maximum(own, ms) == ms[k].tier
    decreases |ms|
  {
    if ms != [] {
      var init := ms[..|ms| - 1];
      MaximumIsGreatest(own, init);
      if k :| 0 <= k < |init| && Maximum(own, init) == init[k].tier {
        assert ms[k] == init[k];
      }
    }
  }

  /** The best tier is that of a descendant terminal, none is better; 0 stands for no useful one. */
  lemma {:induction false} BestTierIsBest(t: Tree, d: nat, n: Tree)
    requires Below(t, d, n)
    ensures OwnTier(n) <= MetricOf(t).tier
    decreases d
  {
    MetricUnfolds(t);
    MaximumIsGreatest(OwnTier(t), Children(t));
    hide MetricOf, Maximum;
    if d > 0 {
      var k :| 0 <= k < |t.children| && Below(t.children[k], d - 1, n);
      BestTierIsBest(t.children[k], d - 1, n);
      assert Children(t)[k] == MetricOf(t.children[k]);
    }
  }

  lemma {:induction false} BestTierIsReached(t: Tree) returns (d: nat)
    requires MetricOf(t).tier > 0
    ensures Leads(t, d, MetricOf(t).tier)
    decreases t
  {
    MetricUnfolds(t);
    MaximumIsGreatest(OwnTier(t), Children(t));
    hide MetricOf, Maximum;
    var best := MetricOf(t).tier;
    if OwnTier(t) == best {
      LeadsHere(t, best);
      d := 0;
    } else {
      var k :| 0 <= k < |t.children| && best == Children(t)[k].tier;
      var e := BestTierIsReached(t.children[k]);
      d := e + 1;
      LeadsStep(t, d, best);
    }
  }

  /** The separately computed distance is the one to the best tier. */
  lemma DistanceIsToBest(t: Tree)
    ensures MetricOf(t).distance == if MetricOf(t).tier == 0 then None else MetricOf(t).byTier[MetricOf(t).tier]
  {
    MetricUnfolds(t);
    MaximumIsGreatest(OwnTier(t), Children(t));
    hide Maximum, Nearest, TotalCost, TotalCount, Children;
  }

  // ---------- sums over the subtree ----------

  function AllOf(ts: seq<Tree>): seq<Tree>
    decreases ts, 0
  {
    if ts == [] then [] else AllOf(ts[..|ts| - 1]) + States(ts[|ts| - 1])
  }

  /** Every state of a tree, once. */
  function States(t: Tree): seq<Tree>
    decreases t, 0
  {
    [t] + AllOf(t.children)
  }

  function CostOf(s: seq<Tree>): real {
    if s == [] then 0.0 else CostOf(s[..|s| - 1]) + s[|s| - 1].cost
  }

  function CountOf(s: seq<Tree>, tier: nat): nat {
    if s == [] then 0
    else CountOf(s[..|s| - 1], tier) + (if s[|s| - 1].terminal.Some? && s[|s| - 1].terminal.value == tier then 1 else 0)
  }

  lemma {:induction false} SumsAppend(s: seq<Tree>, u: seq<Tree>, tier: nat)
    ensures CostOf(s + u) == CostOf(s) + CostOf(u) && CountOf(s + u, tier) == CountOf(s, tier) + CountOf(u, tier)
    decreases |u|
  {
    if u == [] {
      assert s + u == s;
    } else {
      SumsAppend(s, u[..|u| - 1], tier);
      assert (s + u)[..|s + u| - 1] == s + u[..|u| - 1];
    }
  }

  function OwnCount(t: Tree, tier: nat): nat {
    if t.terminal.Some? && t.terminal.value == tier then 1 else 0
  }

  /** One child more. */
  lemma NextChild(t: Tree, n: nat, tier: nat)
    requires n < |t.children| && tier <= TIERS
    ensures TotalCost(t.cost, Children(t)[..n + 1]) ==
        TotalCost(t.cost, Children(t)[..n]) + MetricOf(t.children[n]).cost
    ensures TotalCount(OwnCount(t, tier), Children(t)[..n + 1], tier) ==
            TotalCount(OwnCount(t, tier), Children(t)[..n], tier) + MetricOf(t.children[n]).counts[tier]
    ensures AllOf(t.children[..n + 1]) == AllOf(t.children[..n]) + States(t.children[n])
  {
    var ms, ts := Children(t), t.children;
    hide MetricOf, Children, States, OwnCount;
    assert ms[..n + 1][..n] == ms[..n] && ts[..n + 1][..n] == ts[..n];
  }

  lemma {:induction false} PrefixSums(t: Tree, n: nat, tier: nat)
    requires n <= |t.children| && tier <= TIERS
    ensures TotalCost(t.cost, Children(t)[..n]) == t.cost + CostOf(AllOf(t.children[..n]))
    ensures TotalCount(OwnCount(t, tier), Children(t)[..n], tier) ==
        OwnCount(t, tier) + CountOf(AllOf(t.children[..n]), tier)
    decreases t, n
  {
    hide MetricOf, Children, States, OwnCount;
    if n > 0 {
      PrefixSums(t, n - 1, tier);
      SumsAreExact(t.children[n - 1], tier);
      NextChild(t, n - 1, tier);
      SumsAppend(AllOf(t.children[..n - 1]), States(t.children[n - 1]), tier);
      hide TotalCost, TotalCount, AllOf, CostOf, CountOf;
    }
  }

  lemma StatesSums(t: Tree, tier: nat)
    ensures CostOf(States(t)) == t.cost + CostOf(AllOf(t.children))
    ensures CountOf(States(t), tier) == OwnCount(t, tier) + CountOf(AllOf(t.children), tier)
  {
    SumsAppend([t], AllOf(t.children), tier);
    assert [t][..0] == [];
    hide AllOf;
  }

  /** Costs and terminal counts are exact sums over the subtree. */
  lemma {:induction false} SumsAreExact(t: Tree, tier: nat)
    requires tier <= TIERS
    ensures MetricOf(t).cost == CostOf(States(t)) && MetricOf(t).counts[tier] == CountOf(States(t), tier)
    decreases t, |t.children| + 1
  {
    MetricUnfolds(t);
    hide MetricOf, TotalCost, TotalCount, Children, AllOf, CostOf, CountOf, States;
    StatesSums(t, tier);
    PrefixSums(t, |t.children|, tier);
    assert Children(t)[..|t.children|] == Children(t) && t.children[..|t.children|] == t.children;
  }

  // ---------- the auditor ----------

  /** The auditor's own recursion for the best tier below a state. */
  function AuditTier(t: Tree): nat
    decreases t, 0
  {
    AuditMaximum(OwnTier(t), t.children)
  }

  function AuditMaximum(own: nat, ts: seq<Tree>): nat
    decreases ts, 1
  {
    if ts == [] then own
    else
      var rest, last := AuditMaximum(own, ts[1..]), AuditTier(ts[0]);
      if last > rest then last else rest
  }

  /** The auditor recomputes the labelled tier, whatever the order in which either goes through the
      children. */
  lemma {:induction false} AuditorAgrees(t: Tree)
    ensures AuditTier(t) == MetricOf(t).tier
    decreases t, 1, 0
  {
    hide MetricOf, Maximum, AuditMaximum;
    TierOf(t);
    AuditIsGreatest(t, OwnTier(t), t.children);
    var best, audited := MetricOf(t).tier, AuditTier(t);
    if audited != OwnTier(t) {
      var k :| 0 <= k < |t.children| && audited == MetricOf(t.children[k]).tier;
    }
    if best != OwnTier(t) {
      var k :| 0 <= k < |t.children| && best == MetricOf(t.children[k]).tier;
    }
  }

  lemma TierOf(t: Tree)
    ensures MetricOf(t).tier >= OwnTier(t) && forall k :: 0 <= k < |t.children| ==>
        MetricOf(t).tier >= MetricOf(t.children[k]).tier
    ensures MetricOf(t).tier == OwnTier(t) || exists k ::
        0 <= k < |t.children| && MetricOf(t).tier == MetricOf(t.children[k]).tier
  {
    MetricUnfolds(t);
    MaximumIsGreatest(OwnTier(t), Children(t));
    hide MetricOf, Maximum;
  }

  lemma {:induction false} AuditIsGreatest(t: Tree, own: nat, ts: seq<Tree>)
    requires forall k :: 0 <= k < |ts| ==> ts[k] in t.children
    ensures AuditMaximum(own, ts) >= own && forall k :: 0 <= k < |ts| ==> AuditMaximum(own, ts) >= MetricOf(ts[k]).tier
    ensures AuditMaximum(own, ts) == own || exists k :: 0 <= k < |ts| && AuditMaximum(own, ts) == MetricOf(ts[k]).tier
    decreases t, 0, |ts|
  {
    hide MetricOf;
    if ts != [] {
      AuditorAgrees(ts[0]);
      var rest := ts[1..];
      AuditIsGreatest(t, own, rest);
      if k :| 0 <= k < |rest| && AuditMaximum(own, rest) == MetricOf(rest[k]).tier {
        assert ts[k + 1] == rest[k];
      }
      forall k | 0 <= k < |ts| ensures AuditMaximum(own, ts) >= MetricOf(ts[k]).tier {
        if k > 0 {
          assert rest[k - 1] == ts[k];
        }
      }
    }
  }

  // ---------- preferences ----------

  const FAR: nat := 1_000_000_000

  datatype Outcome = Outcome(action: string, tier: Tier, distance: Option<nat>, cost: real)

  function Far(o: Outcome): nat {
    if o.tier > 0 && o.distance.Some? then o.distance.value else FAR
  }

  /** Higher tier first, then shorter, then cheaper, then by name. */
  predicate Better(before: (string, string) -> bool, a: Outcome, b: Outcome) {
    if a.tier != b.tier then a.tier > b.tier
    else if Far(a) != Far(b) then Far(a) < Far(b)
    else if a.cost != b.cost then a.cost < b.cost
    else before(a.action, b.action)
  }

  ghost predicate StrictOrder(before: (string, string) -> bool) {
    && (forall x :: !before(x, x))
    && (forall x, y, z {:trigger before(x, y), before(y, z)} :: before(x, y) && before(y, z) ==> before(x, z))
    && (forall x, y :: x != y ==> before(x, y) || before(y, x))
  }

  ghost predicate DistinctActions(labels: seq<Outcome>) {
    forall i, j :: 0 <= i < j < |labels| ==> labels[i].action != labels[j].action
  }

  ghost predicate InOrder(before: (string, string) -> bool, ordered: seq<Outcome>) {
    forall i, j :: 0 <= i < j < |ordered| ==> Better(before, ordered[i], ordered[j])
  }

  /** `a` is not farther than `b` from a terminal of their tier; an unknown distance counts as 10^9. */
  ghost predicate NoFarther(a: Outcome, b: Outcome) {
    match (a.distance, b.distance)
    case (Some(x), Some(y)) => x <= y
    case (Some(x), None) => x <= 1_000_000_000
    case (None, Some(y)) => y >= 1_000_000_000
    case (None, None) => true
  }

  /** Distances count in the tiers above the lowest only. */
  ghost predicate SameDistance(a: Outcome, b: Outcome) {
    a.tier == 0 || (NoFarther(a, b) && NoFarther(b, a))
  }

  /** `a` may come before `b`: its tier is not lower; in the same tier it is not farther; at the same
      distance it is not dearer; at the same cost its name comes first. */
  ghost predicate Precedes(before: (string, string) -> bool, a: Outcome, b: Outcome) {
    && a.tier >= b.tier
    && (a.tier == b.tier && a.tier > 0 ==> NoFarther(a, b))
    && (a.tier == b.tier && SameDistance(a, b) ==> a.cost <= b.cost)
    && (a.tier == b.tier && SameDistance(a, b) && a.cost == b.cost ==> before(a.action, b.action))
  }

  lemma BetterPrecedes(before: (string, string) -> bool, a: Outcome, b: Outcome)
    requires StrictOrder(before) && a.action != b.action
    ensures Better(before, a, b) <==> Precedes(before, a, b)
  {
  }

  lemma OrderedPrecede(before: (string, string) -> bool, ordered: seq<Outcome>)
    requires StrictOrder(before) && InOrder(before, ordered)
    ensures forall i, j :: 0 <= i < j < |ordered| ==> Precedes(before, ordered[i], ordered[j])
  {
    forall i, j | 0 <= i < j < |ordered| ensures Precedes(before, ordered[i], ordered[j]) {
      assert Better(before, ordered[i], ordered[j]);
    }
  }

  /** The actions of a frontier, best first. */
  method Rank(before: (string, string) -> bool, labels: seq<Outcome>) returns (ordered: seq<Outcome>)
    requires StrictOrder(before) && DistinctActions(labels)
    ensures forall i, j :: 0 <= i < j < |ordered| ==> Precedes(before, ordered[i], ordered[j])
    ensures InOrder(before, ordered) && multiset(ordered) == multiset(labels)
  {
    ordered := [];
    for i := 0 to |labels|
      invariant InOrder(before, ordered) && multiset(ordered) == multiset(labels[..i])
    {
      var at := 0;
      while at < |ordered| && Better(before, ordered[at], labels[i])
        invariant 0 <= at <= |ordered| && forall k :: 0 <= k < at ==> Better(before, ordered[k], labels[i])
      {
        at := at + 1;
      }
      NewAction(labels, i, ordered);
      InsertKeeps(before, ordered, at, labels[i]);
      assert labels[..i + 1] == labels[..i] + [labels[i]];
      assert ordered == ordered[..at] + ordered[at..];
      ordered := ordered[..at] + [labels[i]] + ordered[at..];
    }
    assert labels[..|labels|] == labels;
    OrderedPrecede(before, ordered);
  }

  lemma NewAction(labels: seq<Outcome>, i: nat, ordered: seq<Outcome>)
    requires i < |labels| && DistinctActions(labels) && multiset(ordered) == multiset(labels[..i])
    ensures forall k :: 0 <= k < |ordered| ==> ordered[k].action != labels[i].action
  {
    forall k | 0 <= k < |ordered| ensures ordered[k].action != labels[i].action {
      assert ordered[k] in multiset(labels[..i]);
      var j :| 0 <= j < i && labels[..i][j] == ordered[k];
    }
  }

  lemma BetterIsOrder(before: (string, string) -> bool, a: Outcome, b: Outcome, c: Outcome)
    requires StrictOrder(before)
    ensures !Better(before, a, a)
    ensures a.action != b.action ==> Better(before, a, b) || Better(before, b, a)
    ensures Better(before, a, b) && Better(before, b, c) ==> Better(before, a, c)
  {
  }

  lemma InsertKeeps(before: (string, string) -> bool, ordered: seq<Outcome>, at: nat, o: Outcome)
    requires StrictOrder(before) && InOrder(before, ordered) && at <= |ordered|
    requires forall k :: 0 <= k < at ==> Better(before, ordered[k], o)
    requires at < |ordered| ==> !Better(before, ordered[at], o)
    requires forall k :: 0 <= k < |ordered| ==> ordered[k].action != o.action
    ensures InOrder(before, ordered[..at] + [o] + ordered[at..])
  {
    hide StrictOrder, Better;
    var after := ordered[..at] + [o] + ordered[at..];
    forall k | at <= k < |ordered| ensures Better(before, o, ordered[k]) {
      BetterIsOrder(before, o, ordered[at], ordered[k]);
      BetterIsOrder(before, ordered[at], o, o);
    }
    forall i, j | 0 <= i < j < |after| ensures Better(before, after[i], after[j]) {
      assert after[i] == if i < at then ordered[i] else if i == at then o else ordered[i - 1];
      assert after[j] == if j < at then ordered[j] else if j == at then o else ordered[j - 1];
    }
  }

  /** The pairs taken from the ranks: whatever comes earlier is preferred. */
  function Pairs(ordered: seq<Outcome>): set<(string, string)> {
    set i, j | 0 <= i < |ordered| && 0 <= j < |ordered| && i < j :: (ordered[i].action, ordered[j].action)
  }

  lemma PositionDecides(before: (string, string) -> bool, ordered: seq<Outcome>, i: nat, j: nat)
    requires StrictOrder(before) && InOrder(before, ordered) && i < |ordered| && j < |ordered|
    ensures Better(before, ordered[i], ordered[j]) <==> i < j
    ensures ordered[i] == ordered[j] <==> i == j
  {
    hide Better, StrictOrder;
    BetterIsOrder(before, ordered[i], ordered[j], ordered[i]);
    BetterIsOrder(before, ordered[i], ordered[i], ordered[i]);
  }

  lemma PairAt(before: (string, string) -> bool, ordered: seq<Outcome>, i: nat, j: nat)
    requires StrictOrder(before) && InOrder(before, ordered) && i < |ordered| && j < |ordered|
    requires forall x, y :: x in ordered && y in ordered && x.action == y.action ==> x == y
    ensures (ordered[i].action, ordered[j].action) in Pairs(ordered) <==> i < j
  {
    hide InOrder, StrictOrder;
    if (ordered[i].action, ordered[j].action) in Pairs(ordered) {
      var k, l :| 0 <= k < |ordered| && 0 <= l < |ordered| && k < l
                  && (ordered[k].action, ordered[l].action) == (ordered[i].action, ordered[j].action);
      PositionDecides(before, ordered, i, k);
      PositionDecides(before, ordered, j, l);
    }
  }

  lemma PlaceOf(labels: seq<Outcome>, ordered: seq<Outcome>, a: Outcome) returns (i: nat)
    requires multiset(ordered) == multiset(labels) && a in labels
    ensures i < |ordered| && ordered[i] == a
  {
    assert a in multiset(labels);
    i :| 0 <= i < |ordered| && ordered[i] == a;
  }

  /** The preference pairs are exactly the better-than relation, a strict total order on the actions: one
      pair for any two actions, with the one that may come first in front. */
  lemma PairsAreBetter(before: (string, string) -> bool, labels: seq<Outcome>, ordered: seq<Outcome>, a: Outcome,
        b: Outcome)
    requires StrictOrder(before) && DistinctActions(labels) && InOrder(before, ordered)
        && multiset(ordered) == multiset(labels)
    requires a in labels && b in labels
    ensures (a.action, b.action) in Pairs(ordered) <==> Better(before, a, b)
    ensures (a.action, b.action) in Pairs(ordered) <==> a.action != b.action && Precedes(before, a, b)
  {
    PairsPrecede(before, a, b);
    hide StrictOrder, DistinctActions, InOrder, Better, Pairs;
    SameActions(labels, ordered);
    var i := PlaceOf(labels, ordered, a);
    var j := PlaceOf(labels, ordered, b);
    PositionDecides(before, ordered, i, j);
    PairAt(before, ordered, i, j);
  }

  lemma PairsPrecede(before: (string, string) -> bool, a: Outcome, b: Outcome)
    requires StrictOrder(before)
    ensures a.action != b.action ==> (Better(before, a, b) <==> Precedes(before, a, b))
    ensures a == b ==> !Better(before, a, b)
  {
  }

  /** In the ranking, too, an action occurs once. */
  lemma SameActions(labels: seq<Outcome>, ordered: seq<Outcome>)
    requires DistinctActions(labels) && multiset(ordered) == multiset(labels)
    ensures forall x, y :: x in ordered && y in ordered && x.action == y.action ==> x == y
  {
    forall x, y | x in ordered && y in ordered && x.action == y.action ensures x == y {
      assert x in multiset(ordered) && y in multiset(ordered);
      var i :| 0 <= i < |labels| && labels[i] == x;
      var j :| 0 <= j < |labels| && labels[j] == y;
    }
  }
}

/** Where the search does not meet what its documentation promises, with concrete inputs. */
module Findings {
  import opened Actions
  import opened Grammars
  import opened Exploration
  import opened Soundness
  import opened Completeness
  import opened SequenceSearch
  import opened Verifier
  import opened Losses
  import Steps

  /** Fixture states are numbers, and a number is its own canonical form. */
  type Spot = LazyState<nat>

  const ENTER: Action := Action("enter", 0, BareFootprint().(complete := false))
  const LOW: Action := Action("a", 1, BareFootprint())
  const HIGH: Action := Action("b", 2, BareFootprint())

  /** A transition system over numbers: `low` and `high` give the successor of a state, if any. */
  datatype Table = Table(low: map<nat, nat>, high: map<nat, nat>, terminal: set<nat>)

  function At(t: Table, n: nat, a: Action): Spot {
    LazyState(n, a, n in t.terminal, Possible)
  }

  function Offers(t: Table, n: nat): seq<Action> {
    (if n in t.low then [LOW] else []) + (if n in t.high then [HIGH] else [])
  }

  function Apply(t: Table, s: Option<Spot>, a: Action): Option<Spot> {
    if s.None? then None
    else if a == LOW && s.value.semantic in t.low then Some(At(t, t.low[s.value.semantic], a))
    else if a == HIGH && s.value.semantic in t.high then Some(At(t, t.high[s.value.semantic], a))
    else None
  }

  function Fixture(t: Table): Grammar<nat, nat> {
    Grammar(
      (s: Spot) => s.terminal <==> s.semantic in t.terminal,
      [At(t, 0, ENTER)],
      (s: Spot) => Offers(t, s.semantic),
      (s: Option<Spot>, a: Action) => Apply(t, s, a),
      (s: Spot) => Envelope(s.semantic, 0, 0, 0))
  }

  /** A search in the grammar's own order; `smaller` compares encoded paths. */
  function Searching(por: bool, smaller: (seq<Action>, seq<Action>) -> bool): Config<nat> {
    Config(por, (s, actions, depth) => true,
           (s: Spot, children: seq<Spot>, depth: nat, path: seq<Action>) => seq(|children|, i => 0.0),
           smaller, 100, None, n => false)
  }

  function Reduced(smaller: (seq<Action>, seq<Action>) -> bool): Config<nat> {
    Searching(true, smaller)
  }

  // ---------- evaluating small searches ----------

  lemma RankedInOrder(children: seq<Spot>)
    requires |children| <= 2
    ensures Ranked(children, seq(|children|, i => 0.0)) == children
  {
    var scores := seq(|children|, i => 0.0);
    if |children| == 1 {
      assert RankedPairs(children[..0], scores[..0]) == [];
    } else if |children| == 2 {
      assert children[..1][..0] == [] && scores[..1][..0] == [];
      assert RankedPairs(children[..1], scores[..1]) == [(children[0], 0.0)];
      assert RankedPairs(children, scores) == [(children[0], 0.0), (children[1], 0.0)];
    }
  }

  /** The child of `s` by `a`, if the action is legal and the reduction keeps it after `w`;
      fixtures declare no needs and no conflicts. */
  function ChildBy(t: Table, por: bool, w: Work<nat, nat>, s: Spot, a: Action): seq<Spot>
    requires w.path != [] && w.states != []
  {
    var child := Apply(t, Some(s), a);
    if child.Some?
      && !(por && Redundant(Fixture(t), w.states[|w.states| - 1], w.path[|w.path| - 1], a)) then [child.value] else []
  }

  lemma ChildrenBy(t: Table, por: bool, smaller: (seq<Action>, seq<Action>) -> bool, node: Node<nat>, w: Work<nat, nat>)
    requires w.path != [] && w.states != []
    ensures Children(Fixture(t), Searching(por, smaller), node, w) ==
        ChildBy(t, por, w, node.state, LOW) + ChildBy(t, por, w, node.state, HIGH)
  {
    hide Viable, Realized, ChildBy, Kids;
    KidsOffered(t, por, w, node.state);
    assert Fixture(t).enabled(node.state) == Offers(t, node.state.semantic);
    assert Kids(t, por, w, node.state, Offers(t, node.state.semantic)) ==
        Children(Fixture(t), Searching(por, smaller), node, w) by {
      KidsAreChildren(t, por, smaller, node, w);
    }
  }

  lemma KidsAreChildren(t: Table, por: bool, smaller: (seq<Action>, seq<Action>) -> bool, node: Node<nat>, w: Work<nat,
        nat>)
    requires w.path != [] && w.states != []
    ensures Kids(t, por, w, node.state, Offers(t, node.state.semantic)) ==
        Children(Fixture(t), Searching(por, smaller), node, w)
  {
    hide Viable, Realized, Offers;
  }

  lemma KidsOffered(t: Table, por: bool, w: Work<nat, nat>, s: Spot)
    requires w.path != [] && w.states != []
    ensures Kids(t, por, w, s, Offers(t, s.semantic)) == ChildBy(t, por, w, s, LOW) + ChildBy(t, por, w, s, HIGH)
  {
    hide ChildBy, Kids, Fixture, BareFootprint;
    var low := if s.semantic in t.low then [LOW] else [];
    Childless(t, por, w, s);
    IllegalChild(t, por, w, s);
    OneMore(t, por, w, s, [], LOW);
    OneMore(t, por, w, s, low, HIGH);
    assert low + [] == low && [] + [LOW] == [LOW];
    assert Kids(t, por, w, s, low) == ChildBy(t, por, w, s, LOW);
  }

  function Kids(t: Table, por: bool, w: Work<nat, nat>, s: Spot, actions: seq<Action>): seq<Spot>
    requires w.path != [] && w.states != []
  {
    Realized(Fixture(t), s, Viable(Fixture(t), w, por, actions).actions)
  }

  lemma Childless(t: Table, por: bool, w: Work<nat, nat>, s: Spot)
    requires w.path != [] && w.states != []
    ensures Kids(t, por, w, s, []) == []
  {}

  lemma IllegalChild(t: Table, por: bool, w: Work<nat, nat>, s: Spot)
    requires w.path != [] && w.states != []
    ensures s.semantic !in t.low ==> ChildBy(t, por, w, s, LOW) == []
    ensures s.semantic !in t.high ==> ChildBy(t, por, w, s, HIGH) == []
  {}

  lemma OneMore(t: Table, por: bool, w: Work<nat, nat>, s: Spot, actions: seq<Action>, a: Action)
    requires w.path != [] && w.states != [] && (a == LOW || a == HIGH)
    ensures Kids(t, por, w, s, actions + [a]) == Kids(t, por, w, s, actions) + ChildBy(t, por, w, s, a)
  {
    hide Redundant, Keys;
    var g := Fixture(t);
    assert (actions + [a])[..|actions|] == actions;
    var kept := Viable(g, w, por, actions).actions;
    assert (kept + [a])[..|kept|] == kept;
    assert !Blocked(a, Keys(w.path));
  }

  function AddChild(g: Grammar<nat, nat>, cfg: Config<nat>, sn: Snapshot<nat, nat>, w: Work<nat, nat>, s: Spot,
        depth: nat, c: Spot): Snapshot<nat, nat> {
    AddState(g, cfg, sn, c, Some(w.key), depth, w.path + [c.action], w.states + [Some(s)])
  }

  lemma AddNew(t: Table, cfg: Config<nat>, sn: Snapshot<nat, nat>, w: Work<nat, nat>, s: Spot, depth: nat, c: Spot)
    requires c.semantic !in sn.view
    ensures var r, path, states := AddChild(Fixture(t), cfg, sn, w, s, depth,
        c), w.path + [c.action], w.states + [Some(s)];
            && r.view == sn.view[c.semantic := Node(c, path, [|sn.edges|], depth, depth, Queued)]
            && r.queue == sn.queue + [Work(c.semantic, path, states)] && |r.edges| == |sn.edges| + 1
  {}

  lemma AddKnown(t: Table, cfg: Config<nat>, sn: Snapshot<nat, nat>, w: Work<nat, nat>, s: Spot, depth: nat, c: Spot)
    requires c.semantic in sn.view
    ensures var r := AddChild(Fixture(t), cfg, sn, w, s, depth, c);
            && r.view == sn.view[c.semantic := Merged(cfg.smallerPath, sn.view[c.semantic], depth, w.path + [c.action],
                |sn.edges|)]
            && r.queue == sn.queue && |r.edges| == |sn.edges| + 1
  {}

  /** What popping a record with at most two children does, in the grammar's own order. */
  lemma PopPair(g: Grammar<nat, nat>, por: bool, smaller: (seq<Action>, seq<Action>) -> bool, sn: Snapshot<nat, nat>,
        children: seq<Spot>)
    requires sn.queue != [] && sn.queue[0].path != [] && sn.queue[0].states != [] && sn.queue[0].key in sn.view
    requires var node := sn.view[sn.queue[0].key];
             && !node.phase.Expanded? && !node.state.terminal && |children| <= 2
             && Children(g, Searching(por, smaller), node, sn.queue[0]) == children
    ensures var cfg, w := Searching(por, smaller), sn.queue[0];
            var node := sn.view[w.key];
            var rest := sn.(queue := sn.queue[1..], counts := Charged(g, cfg, sn.counts, node, w));
            var depth := node.depthMinimum + 1;
            var grown := if |children| == 0 then rest
                         else if |children| == 1 then AddChild(g, cfg, rest, w, node.state, depth, children[0])
                         else AddChild(g, cfg, AddChild(g, cfg, rest, w, node.state, depth, children[0]), w,
                           node.state, depth, children[1]);
            && w.key in grown.view
            && Pop(g, cfg, sn) == Some(grown.(view := SetPhase(grown.view, w.key, Expanded)))
  {
    hide Viable, Realized, Ranked, RankedPairs, Charged, Children, AddState;
    RankedInOrder(children);
    var cfg, w := Searching(por, smaller), sn.queue[0];
    var node := sn.view[w.key];
    assert Scores(g, cfg, node, w) == seq(|children|, i => 0.0);
    var rest := sn.(queue := sn.queue[1..], counts := Charged(g, cfg, sn.counts, node, w));
    InternPair(g, cfg, rest, w, node.state, node.depthMinimum + 1, children);
  }

  lemma InternPair(g: Grammar<nat, nat>, cfg: Config<nat>, sn: Snapshot<nat, nat>, w: Work<nat, nat>, s: Spot,
        depth: nat, children: seq<Spot>)
    requires |children| <= 2
    ensures AddChildren(g, cfg, sn, w, s, depth, children) ==
              if |children| == 0 then sn
              else if |children| == 1 then AddChild(g, cfg, sn, w, s, depth, children[0])
              else AddChild(g, cfg, AddChild(g, cfg, sn, w, s, depth, children[0]), w, s, depth, children[1])
  {
    hide AddState;
    if |children| == 1 {
      assert children[..0] == [];
    } else if |children| == 2 {
      assert children[..1][..0] == [];
      assert AddChildren(g, cfg, sn, w, s, depth, children[..1]) == AddChild(g, cfg, sn, w, s, depth, children[0]);
    }
  }

  // ---------- a terminal state with a legal action ----------

  /** Two commuting actions whose second order passes through a terminal state. */
  const DIAMOND: Table := Table(map[0 := 1, 2 := 3], map[0 := 2, 1 := 3], {1})

  function Never(): (seq<Action>, seq<Action>) -> bool {
    (p, q) => false
  }

  function Ignore(): Config<nat> {
    Reduced(Never())
  }

  /** After `high`, the action `low` is skipped, because both orders are legal and equal. */
  lemma DiamondSkips()
    ensures Redundant(Fixture(DIAMOND), Some(At(DIAMOND, 0, ENTER)), HIGH, LOW)
  {}

  lemma DiamondStart()
    ensures var sn := Start(Fixture(DIAMOND), Ignore());
            && sn.queue == [Work(0, [ENTER], [None])]
            && sn.view == map[0 := Node(At(DIAMOND, 0, ENTER), [ENTER], [0], 0, 0, Queued)]
  {
    var g := Fixture(DIAMOND);
    assert g.initial[..0] == [];
    assert AddInitial(g, Ignore(), Blank(1), g.initial[..0]) == Blank(1);
  }

  lemma DiamondFirstChildren()
    ensures var w := Work(0, [ENTER], [None]);
            Children(Fixture(DIAMOND), Ignore(), Node(At(DIAMOND, 0, ENTER), [ENTER], [0], 0, 0, Queued), w) ==
              [At(DIAMOND, 1, LOW), At(DIAMOND, 2, HIGH)]
  {
    var w := Work(0, [ENTER], [None]);
    hide Children;
    ChildrenBy(DIAMOND, true, Never(), Node(At(DIAMOND, 0, ENTER), [ENTER], [0], 0, 0, Queued), w);
    assert ChildBy(DIAMOND, true, w, At(DIAMOND, 0, ENTER), LOW) == [At(DIAMOND, 1, LOW)];
    assert ChildBy(DIAMOND, true, w, At(DIAMOND, 0, ENTER), HIGH) == [At(DIAMOND, 2, HIGH)];
  }

  lemma DiamondFirst(sn: Snapshot<nat, nat>)
    requires sn.queue == [Work(0, [ENTER], [None])]
    requires sn.view == map[0 := Node(At(DIAMOND, 0, ENTER), [ENTER], [0], 0, 0, Queued)]
    ensures Pop(Fixture(DIAMOND), Ignore(), sn).Some?
    ensures var r := Pop(Fixture(DIAMOND), Ignore(), sn).value;
            && r.queue == [Work(1, [ENTER, LOW], [None, Some(At(DIAMOND, 0, ENTER))]),
                Work(2, [ENTER, HIGH], [None, Some(At(DIAMOND, 0, ENTER))])]
            && r.view.Keys == {0, 1, 2}
            && r.view[1].state == At(DIAMOND, 1, LOW) && r.view[2].state == At(DIAMOND, 2, HIGH)
            && r.view[1].phase.Queued? && r.view[2].phase.Queued? && r.view[0].phase.Expanded?
  {
    hide Viable, Realized, Ranked, Expand, AddChildren, Charged, Children, AddChild;
    var g, cfg, w := Fixture(DIAMOND), Ignore(), sn.queue[0];
    var first, second := At(DIAMOND, 1, LOW), At(DIAMOND, 2, HIGH);
    DiamondFirstChildren();
    PopPair(g, true, Never(), sn, [first, second]);
    var rest := sn.(queue := sn.queue[1..], counts := Charged(g, cfg, sn.counts, sn.view[0], w));
    AddNew(DIAMOND, cfg, rest, w, At(DIAMOND, 0, ENTER), 1, first);
    AddNew(DIAMOND, cfg, AddChild(g, cfg, rest, w, At(DIAMOND, 0, ENTER), 1, first), w, At(DIAMOND, 0, ENTER), 1,
      second);
    assert w.path + [LOW] == [ENTER, LOW] && w.path + [HIGH] == [ENTER, HIGH];
    assert w.states + [Some(At(DIAMOND, 0, ENTER))] == [None, Some(At(DIAMOND, 0, ENTER))];
    assert sn.queue[1..] == [];
  }

  lemma DiamondSecond(sn: Snapshot<nat, nat>)
    requires sn.queue == [Work(1, [ENTER, LOW], [None, Some(At(DIAMOND, 0, ENTER))]),
        Work(2, [ENTER, HIGH], [None, Some(At(DIAMOND, 0, ENTER))])]
    requires sn.view.Keys == {0, 1, 2} && sn.view[1].state == At(DIAMOND, 1, LOW)
        && sn.view[2].state == At(DIAMOND, 2, HIGH)
    requires sn.view[1].phase.Queued? && sn.view[2].phase.Queued?
    ensures var g, cfg := Fixture(DIAMOND), Ignore();
            && Pop(g, cfg, sn).Some?
            && var sn' := Pop(g, cfg, sn).value;
               && sn'.queue == [Work(2, [ENTER, HIGH], [None, Some(At(DIAMOND, 0, ENTER))])]
                   && sn'.queue[0].key in sn'.view
               && Pop(g, cfg, sn').Some? && Pop(g, cfg, sn').value.queue == [] && 3 !in Pop(g, cfg, sn').value.view
  {
    hide Viable, Realized, Ranked, Expand, AddChildren, Charged, Children;
    var g, cfg := Fixture(DIAMOND), Ignore();
    var sn' := Pop(g, cfg, sn).value;
    var w := sn'.queue[0];
    DiamondSecondChildren(sn'.view[2]);
    PopPair(g, true, Never(), sn', []);
  }

  lemma DiamondSecondChildren(node: Node<nat>)
    requires node.state == At(DIAMOND, 2, HIGH)
    ensures Children(Fixture(DIAMOND), Ignore(), node, Work(2, [ENTER, HIGH], [None, Some(At(DIAMOND, 0, ENTER))])) ==
        []
  {
    var w := Work(2, [ENTER, HIGH], [None, Some(At(DIAMOND, 0, ENTER))]);
    hide Children;
    DiamondSkips();
    ChildrenBy(DIAMOND, true, Never(), node, w);
    assert ChildBy(DIAMOND, true, w, node.state, LOW) == [] && ChildBy(DIAMOND, true, w, node.state, HIGH) == [];
  }

  lemma TableAlphabet(t: Table, a: Action)
    requires InAlphabet(Fixture(t), a)
    ensures a == ENTER || a == LOW || a == HIGH
  {}

  /** Every fixture meets the contracts. */
  lemma FixtureContracts(t: Table)
    ensures var g := Fixture(t);
            Lawful(g, Nothing()) && KeysIdentify(g)
  {
    hide RespectsForm, RootIsInitial, KeepsLedger, KeysIdentify, LegalIsEnabled, Fixture;
    FixtureRespectsForm(t);
    FixtureKeysIdentify(t);
    FixtureRoot(t);
    FixtureLegal(t);
  }

  lemma FixtureKeysIdentify(t: Table)
    ensures KeysIdentify(Fixture(t))
  {
    forall a | InAlphabet(Fixture(t), a) ensures a == ENTER || a == LOW || a == HIGH {
      TableAlphabet(t, a);
    }
    hide InAlphabet, Fixture;
  }

  lemma FixtureRoot(t: Table)
    ensures RootIsInitial(Fixture(t)) && KeepsLedger(Fixture(t), Nothing())
  {}

  lemma FixtureLegal(t: Table)
    ensures LegalIsEnabled(Fixture(t))
  {
    forall a | InAlphabet(Fixture(t), a) ensures a == ENTER || a == LOW || a == HIGH {
      TableAlphabet(t, a);
    }
    hide InAlphabet;
  }

  lemma FixtureRespectsForm(t: Table)
    ensures RespectsForm(Fixture(t))
  {}

  function Nothing(): Ledger<nat> {
    Ledger({}, k => {})
  }

  /** The verifier does not look at `terminal`, so on a lawful grammar whose skips are not all excused
      the reduction can lose a state. */
  lemma TerminalWithLegalActionLosesAState()
    ensures Lawful(Fixture(DIAMOND), Nothing()) && KeysIdentify(Fixture(DIAMOND)) && Reachable(Fixture(DIAMOND), 3)
    ensures !SkipsAreExcused(Fixture(DIAMOND)) && OnlyRepeats(Fixture(DIAMOND), Nothing(), 3)
    ensures var g, cfg := Fixture(DIAMOND), Ignore();
            exists a: Snapshot<nat, nat>, b: Snapshot<nat, nat>, c: Snapshot<nat, nat> ::
              Popped(g, cfg, Start(g, cfg), a) && Popped(g, cfg, a, b) && Popped(g, cfg, b, c) && c.queue == []
                && 3 !in c.view
  {
    hide Pop, Start, Lawful, KeysIdentify, Reachable, Fixture, Searching, SkipsAreExcused, OnlyRepeats;
    var g, cfg := Fixture(DIAMOND), Ignore();
    FixtureContracts(DIAMOND);
    DiamondHasNoExcuse();
    DiamondOnlyRepeats();
    DiamondStart();
    var s := Start(g, cfg);
    DiamondFirst(s);
    var a := Pop(g, cfg, s).value;
    DiamondSecond(a);
    var b := Pop(g, cfg, a).value;
    var c := Pop(g, cfg, b).value;
    assert Popped(g, cfg, s, a) && Popped(g, cfg, a, b) && Popped(g, cfg, b, c);
    DiamondReaches();
  }

  lemma DiamondHasNoExcuse()
    ensures !SkipsAreExcused(Fixture(DIAMOND))
  {
    var g, prev := Fixture(DIAMOND), Some(At(DIAMOND, 0, ENTER));
    DiamondSkips();
    assert MadeOrRoot(g, prev) && LOW in g.enabled(prev.value) && HIGH in g.enabled(prev.value);
    assert !Excused(g, prev, HIGH, LOW);
  }

  /** The only way to 3 is `low` from 2, and the only way to 2 is `high` from 0. */
  lemma DiamondOnlyRepeats()
    ensures OnlyRepeats(Fixture(DIAMOND), Nothing(), 3)
  {
    hide BareFootprint, StaticScreen;
    var g := Fixture(DIAMOND);
    forall s, b, x, o | Soundness.Step(g, Nothing(), s, b, x) && Canon(g, x) == 3
        && Discovers(g, Nothing(), o, Canon(g, s))
      ensures Redundant(g, o.prev, o.last, b)
    {
      assert s.semantic == 2 && b == LOW;
      assert o.prev.Some? && o.prev.value.semantic == 0 && o.last == HIGH;
      DiamondSkipsFrom(o.prev.value);
    }
  }

  lemma DiamondSkipsFrom(s: Spot)
    requires s.semantic == 0
    ensures Redundant(Fixture(DIAMOND), Some(s), HIGH, LOW)
  {}

  /** When the first half of the pair is terminal too, its record is never expanded: nothing is skipped
      and nothing needs an excuse. So it is where states become terminal at a limit while their actions
      stay legal. */
  lemma EndedPairsNeedNoExcuse()
    ensures var g := Fixture(DIAMOND.(terminal := {1, 2}));
            && Lawful(g, Nothing()) && SkipsAreExcused(g)
            && exists prev, last, b :: Redundant(g, prev, last, b) && !Excused(g, prev, last, b)
  {
    var t := DIAMOND.(terminal := {1, 2});
    var g := Fixture(t);
    FixtureContracts(t);
    EndedSkips(t);
    hide Lawful, StaticScreen, BareFootprint;
    forall prev, last, b | Redundant(g, prev, last, b) ensures !GoesOn(g, prev, last) {
      EndedGoesNowhere(t, prev, last, b);
    }
  }

  lemma EndedSkips(t: Table)
    requires t == DIAMOND.(terminal := {1, 2})
    ensures Redundant(Fixture(t), Some(At(t, 0, ENTER)), HIGH, LOW)
        && !Excused(Fixture(t), Some(At(t, 0, ENTER)), HIGH, LOW)
  {}

  /** Every pair of legal orders starts with a step into 1 or 2. */
  lemma EndedGoesNowhere(t: Table, prev: Option<Spot>, last: Action, b: Action)
    requires t == DIAMOND.(terminal := {1, 2})
    requires Redundant(Fixture(t), prev, last, b)
    ensures !GoesOn(Fixture(t), prev, last)
  {
    hide StaticScreen, BareFootprint;
  }

  lemma DiamondReaches()
    ensures Reachable(Fixture(DIAMOND), 3)
  {
    var g := Fixture(DIAMOND);
    var s0, s2, s3 := At(DIAMOND, 0, ENTER), At(DIAMOND, 2, HIGH), At(DIAMOND, 3, LOW);
    assert PathTo(g, [ENTER], s0);
    assert Move(g, [ENTER], s0, HIGH, s2);
    PathAppend(g, [ENTER], s0, HIGH, s2);
    assert Move(g, [ENTER] + [HIGH], s2, LOW, s3);
    PathAppend(g, [ENTER] + [HIGH], s2, LOW, s3);
    ReachableByPath(g, [ENTER] + [HIGH] + [LOW], s3);
  }

  // ---------- depths after a resume ----------

  /** Two commuting actions after 1, and a direct edge to 2 that is found first but whose encoded
      path is larger than the longer one. */
  const DETOUR: Table := Table(map[0 := 1, 1 := 3, 2 := 4], map[0 := 2, 1 := 2, 3 := 4], {})

  /** How encoded paths compare: action by action, and a proper prefix comes after what extends it,
      because a comma sorts before a closing bracket. */
  predicate PathLess(p: seq<Action>, q: seq<Action>) {
    if p == [] then false
    else if q == [] then true
    else if p[0].order != q[0].order then p[0].order < q[0].order
    else PathLess(p[1..], q[1..])
  }

  function Encoded(): (seq<Action>, seq<Action>) -> bool {
    (p, q) => PathLess(p, q)
  }

  function Stop(n: nat, a: Action): Spot {
    At(DETOUR, n, a)
  }

  function Work1(): Work<nat, nat> { Work(1, [ENTER, LOW], [None, Some(Stop(0, ENTER))]) }

  function Work2(): Work<nat, nat> { Work(2, [ENTER, HIGH], [None, Some(Stop(0, ENTER))]) }

  function Work3(): Work<nat, nat> { Work(3, [ENTER, LOW, LOW], [None, Some(Stop(0, ENTER)), Some(Stop(1, LOW))]) }

  /** The same record of 2 after a resume: its recorded path is now the longer one. */
  function Work2Again(): Work<nat, nat> { Work(2, [ENTER, LOW, HIGH], [None, Some(Stop(0, ENTER)), Some(Stop(1,
        LOW))]) }

  function Work4(): Work<nat, nat> {
    Work(4, [ENTER, LOW, LOW, HIGH], [None, Some(Stop(0, ENTER)), Some(Stop(1, LOW)), Some(Stop(3, LOW))])
  }

  lemma DetourStart()
    ensures var sn := Start(Fixture(DETOUR), Reduced(Encoded()));
            && sn.queue == [Work(0, [ENTER], [None])]
            && sn.view == map[0 := Node(Stop(0, ENTER), [ENTER], [0], 0, 0, Queued)] && |sn.edges| == 1
  {
    var g := Fixture(DETOUR);
    assert g.initial[..0] == [];
    assert AddInitial(g, Reduced(Encoded()), Blank(1), g.initial[..0]) == Blank(1);
  }

  /** Seen from 1, `low` after `high` repeats `high` after `low`. */
  lemma DetourSkips()
    ensures Commutes(Fixture(DETOUR), Some(Stop(1, LOW)), HIGH, LOW)
  {}

  lemma DetourChildren0(node: Node<nat>)
    requires node.state == Stop(0, ENTER)
    ensures Children(Fixture(DETOUR), Reduced(Encoded()), node, Work(0, [ENTER], [None])) ==
        [Stop(1, LOW), Stop(2, HIGH)]
  {
    hide Children, Commutes;
    var w := Work(0, [ENTER], [None]);
    ChildrenBy(DETOUR, true, Encoded(), node, w);
    assert ChildBy(DETOUR, true, w, node.state, LOW) == [Stop(1, LOW)];
    assert ChildBy(DETOUR, true, w, node.state, HIGH) == [Stop(2, HIGH)];
  }

  lemma DetourChildren1(node: Node<nat>)
    requires node.state == Stop(1, LOW)
    ensures Children(Fixture(DETOUR), Reduced(Encoded()), node, Work1()) == [Stop(3, LOW), Stop(2, HIGH)]
  {
    hide Children, Commutes;
    ChildrenBy(DETOUR, true, Encoded(), node, Work1());
    assert ChildBy(DETOUR, true, Work1(), node.state, LOW) == [Stop(3, LOW)];
    assert ChildBy(DETOUR, true, Work1(), node.state, HIGH) == [Stop(2, HIGH)];
  }

  lemma DetourChildren2(node: Node<nat>)
    requires node.state == Stop(2, HIGH)
    ensures Children(Fixture(DETOUR), Reduced(Encoded()), node, Work2Again()) == []
  {
    hide Children, Commutes;
    ChildrenBy(DETOUR, true, Encoded(), node, Work2Again());
    DetourSkips();
    assert ChildBy(DETOUR, true, Work2Again(), node.state, LOW) == [];
    assert ChildBy(DETOUR, true, Work2Again(), node.state, HIGH) == [];
  }

  lemma DetourChildren3(node: Node<nat>)
    requires node.state == Stop(3, LOW)
    ensures Children(Fixture(DETOUR), Reduced(Encoded()), node, Work3()) == [Stop(4, HIGH)]
  {
    hide Children, Commutes;
    ChildrenBy(DETOUR, true, Encoded(), node, Work3());
    assert ChildBy(DETOUR, true, Work3(), node.state, LOW) == [];
    assert ChildBy(DETOUR, true, Work3(), node.state, HIGH) == [Stop(4, HIGH)];
  }

  /** The table after the initial record has been expanded. */
  ghost predicate AfterRoot(sn: Snapshot<nat, nat>) {
    && sn.queue == [Work1(), Work2()] && |sn.edges| == 3 && sn.view.Keys == {0, 1, 2} && sn.view[0].phase.Expanded?
    && sn.view[1] == Node(Stop(1, LOW), [ENTER, LOW], [1], 1, 1, Queued)
    && sn.view[2] == Node(Stop(2, HIGH), [ENTER, HIGH], [2], 1, 1, Queued)
  }

  lemma DetourFirst(sn: Snapshot<nat, nat>)
    requires sn.queue == [Work(0, [ENTER], [None])]
    requires sn.view == map[0 := Node(Stop(0, ENTER), [ENTER], [0], 0, 0, Queued)] && |sn.edges| == 1
    ensures Pop(Fixture(DETOUR), Reduced(Encoded()), sn).Some?
        && AfterRoot(Pop(Fixture(DETOUR), Reduced(Encoded()), sn).value)
  {
    hide Viable, Realized, Ranked, Expand, AddChildren, Charged, Children, AddChild, Fixture, BareFootprint, Pop;
    var g, cfg, w, s := Fixture(DETOUR), Reduced(Encoded()), sn.queue[0], Stop(0, ENTER);
    DetourChildren0(sn.view[0]);
    PopPair(g, true, Encoded(), sn, [Stop(1, LOW), Stop(2, HIGH)]);
    var rest := sn.(queue := sn.queue[1..], counts := Charged(g, cfg, sn.counts, sn.view[0], w));
    var one := AddChild(g, cfg, rest, w, s, 1, Stop(1, LOW));
    AddNew(DETOUR, cfg, rest, w, s, 1, Stop(1, LOW));
    AddNew(DETOUR, cfg, one, w, s, 1, Stop(2, HIGH));
    assert w.path + [LOW] == [ENTER, LOW] && w.path + [HIGH] == [ENTER, HIGH];
    assert w.states + [Some(s)] == [None, Some(s)];
    assert sn.queue[1..] == [];
  }

  /** The checkpoint: 1 has been expanded too, and the longer path to 2 has replaced the shorter. */
  ghost predicate Checkpoint(sn: Snapshot<nat, nat>) {
    && sn.view.Keys == {0, 1, 2, 3} && sn.view[0].phase.Expanded? && sn.view[1].phase.Expanded?
    && sn.view[2].state == Stop(2, HIGH) && sn.view[2].path == [ENTER, LOW, HIGH] && sn.view[2].depthMinimum == 1
    && sn.view[3].state == Stop(3, LOW) && sn.view[3].path == [ENTER, LOW, LOW] && sn.view[3].depthMinimum == 2
    && sn.view[2].phase.Queued? && sn.view[3].phase.Queued?
  }

  /** The record table once both children of 1 have been interned. */
  ghost predicate Grown(view: map<nat, Node<nat>>) {
    && view.Keys == {0, 1, 2, 3} && view[0].phase.Expanded?
    && view[2].state == Stop(2, HIGH) && view[2].path == [ENTER, LOW, HIGH] && view[2].depthMinimum == 1
        && view[2].phase.Queued?
    && view[3].state == Stop(3, LOW) && view[3].path == [ENTER, LOW, LOW] && view[3].depthMinimum == 2
        && view[3].phase.Queued?
  }

  lemma DetourGrown(sn: Snapshot<nat, nat>, rest: Snapshot<nat, nat>)
    requires AfterRoot(sn) && rest.view == sn.view && |rest.edges| == 3
    ensures var g, cfg, w, s := Fixture(DETOUR), Reduced(Encoded()), Work1(), Stop(1, LOW);
            Grown(AddChild(g, cfg, AddChild(g, cfg, rest, w, s, 2, Stop(3, LOW)), w, s, 2, Stop(2, HIGH)).view)
  {
    hide AddChild, Fixture, BareFootprint, Encoded, PathLess;
    var g, cfg, w, s := Fixture(DETOUR), Reduced(Encoded()), Work1(), Stop(1, LOW);
    var one := AddChild(g, cfg, rest, w, s, 2, Stop(3, LOW));
    AddNew(DETOUR, cfg, rest, w, s, 2, Stop(3, LOW));
    AddKnown(DETOUR, cfg, one, w, s, 2, Stop(2, HIGH));
    assert w.path + [LOW] == [ENTER, LOW, LOW] && w.path + [HIGH] == [ENTER, LOW, HIGH];
    LongerIsSmaller();
  }

  lemma DetourSecond(sn: Snapshot<nat, nat>)
    requires AfterRoot(sn)
    ensures Pop(Fixture(DETOUR), Reduced(Encoded()), sn).Some?
        && Checkpoint(Pop(Fixture(DETOUR), Reduced(Encoded()), sn).value)
  {
    hide Viable, Realized, Ranked, Expand, AddChildren, Charged, Children, AddChild, Fixture, BareFootprint, Encoded,
        Pop;
    var g, cfg, w := Fixture(DETOUR), Reduced(Encoded()), sn.queue[0];
    DetourChildren1(sn.view[1]);
    PopPair(g, true, Encoded(), sn, [Stop(3, LOW), Stop(2, HIGH)]);
    DetourGrown(sn, sn.(queue := sn.queue[1..], counts := Charged(g, cfg, sn.counts, sn.view[1], w)));
  }

  lemma LongerIsSmaller()
    ensures Encoded()([ENTER, LOW, HIGH], [ENTER, HIGH])
  {
    assert [ENTER, LOW, HIGH][1..] == [LOW, HIGH] && [ENTER, HIGH][1..] == [HIGH];
    assert PathLess([ENTER, LOW, HIGH], [ENTER, HIGH]);
  }

  lemma DetourReplay()
    ensures Replayed(Fixture(DETOUR), [ENTER, LOW, HIGH]) == Some(Replay(Work2Again().states, Stop(2, HIGH)))
    ensures Replayed(Fixture(DETOUR), [ENTER, LOW, LOW]) == Some(Replay(Work3().states, Stop(3, LOW)))
  {
    hide BareFootprint;
    var g := Fixture(DETOUR);
    assert [ENTER, LOW, HIGH][..2] == [ENTER, LOW] && [ENTER, LOW, LOW][..2] == [ENTER, LOW]
        && [ENTER, LOW][..1] == [ENTER];
    assert Replayed(g, [ENTER]) == Some(Replay([None], Stop(0, ENTER)));
    assert Replayed(g, [ENTER, LOW]) == Some(Replay([None] + [Some(Stop(0, ENTER))], Stop(1, LOW)));
    assert [None] + [Some(Stop(0, ENTER))] + [Some(Stop(1, LOW))] == Work2Again().states;
  }

  lemma DetourRebuilt(sn: Snapshot<nat, nat>)
    requires Checkpoint(sn)
    ensures Rebuilt(Fixture(DETOUR), [(0, sn.view[0]), (1, sn.view[1]), (2, sn.view[2]), (3, sn.view[3])]) ==
        Some([Work2Again(), Work3()])
  {
    hide Replayed, Fixture, BareFootprint;
    DetourReplay();
    var g := Fixture(DETOUR);
    var r0: (nat, Node<nat>), r1: (nat, Node<nat>) := (0, sn.view[0]), (1, sn.view[1]);
    var r2: (nat, Node<nat>), r3: (nat, Node<nat>) := (2, sn.view[2]), (3, sn.view[3]);
    assert [r0, r1, r2, r3][..3] == [r0, r1, r2] && [r0, r1, r2][..2] == [r0, r1] && [r0, r1][..1] == [r0]
        && [r0][..0] == [];
    assert Rebuilt(g, [r0]) == Some([]);
    assert Rebuilt(g, [r0, r1]) == Some([]);
    assert Rebuilt(g, [r0, r1, r2]) == Some([] + [Work2Again()]);
    assert [] + [Work2Again()] + [Work3()] == [Work2Again(), Work3()];
  }

  /** After the resume: 2 is expanded without its child, so 4 is found only through 3. */
  lemma DetourThird(sn: Snapshot<nat, nat>)
    requires Checkpoint(sn) && sn.queue == [Work2Again(), Work3()]
    ensures Pop(Fixture(DETOUR), Reduced(Encoded()), sn).Some?
    ensures var r := Pop(Fixture(DETOUR), Reduced(Encoded()), sn).value;
            r.queue == [Work3()] && r.view.Keys == {0, 1, 2, 3} && r.view[3] == sn.view[3] && r.view[2].phase.Expanded?
  {
    hide Viable, Realized, Ranked, Expand, AddChildren, Charged, Children, AddChild, Fixture, BareFootprint, Pop;
    DetourChildren2(sn.view[2]);
    PopPair(Fixture(DETOUR), true, Encoded(), sn, []);
    assert sn.queue[1..] == [Work3()];
  }

  lemma DetourFourth(sn: Snapshot<nat, nat>)
    requires sn.queue == [Work3()] && sn.view.Keys == {0, 1, 2, 3} && sn.view[3].state == Stop(3, LOW)
    requires sn.view[3].depthMinimum == 2 && sn.view[3].phase.Queued?
    ensures Pop(Fixture(DETOUR), Reduced(Encoded()), sn).Some?
    ensures var r := Pop(Fixture(DETOUR), Reduced(Encoded()), sn).value;
            && r.queue == [Work4()] && 4 in r.view && r.view[4].state == Stop(4, HIGH) && r.view[4].depthMinimum == 3
                && r.view[4].phase.Queued?
  {
    hide Viable, Realized, Ranked, Expand, AddChildren, Charged, Children, AddChild, Fixture, BareFootprint, Pop;
    var g, cfg, w, s := Fixture(DETOUR), Reduced(Encoded()), sn.queue[0], Stop(3, LOW);
    DetourChildren3(sn.view[3]);
    PopPair(g, true, Encoded(), sn, [Stop(4, HIGH)]);
    var rest := sn.(queue := sn.queue[1..], counts := Charged(g, cfg, sn.counts, sn.view[3], w));
    AddNew(DETOUR, cfg, rest, w, s, 3, Stop(4, HIGH));
    assert w.path + [HIGH] == [ENTER, LOW, LOW, HIGH];
    assert w.states + [Some(s)] == Work4().states;
    assert sn.queue[1..] == [];
  }

  lemma DetourFifth(sn: Snapshot<nat, nat>)
    requires sn.queue == [Work4()] && 4 in sn.view && sn.view[4].state == Stop(4, HIGH)
    requires sn.view[4].depthMinimum == 3 && sn.view[4].phase.Queued?
    ensures Pop(Fixture(DETOUR), Reduced(Encoded()), sn).Some?
    ensures var r := Pop(Fixture(DETOUR), Reduced(Encoded()), sn).value;
            r.queue == [] && 4 in r.view && r.view[4].depthMinimum == 3
  {
    hide Viable, Realized, Ranked, Expand, AddChildren, Charged, Children, AddChild, BareFootprint, Redundant;
    ChildrenBy(DETOUR, true, Encoded(), sn.view[4], Work4());
    assert Children(Fixture(DETOUR), Reduced(Encoded()), sn.view[4], Work4()) == [];
    PopPair(Fixture(DETOUR), true, Encoded(), sn, []);
    assert sn.queue[1..] == [];
  }

  /** An uninterrupted search records shortest distances; one that is stopped and resumed need not.
      Here the two pops before the stop replace the path to 2 by a longer one with smaller bytes, and
      the reduction then consults a predecessor that is not on a shortest path. The resumed search
      completes with 4 at depth 3, though two actions reach it. */
  lemma ResumedDepthCanBeWrong()
    ensures Lawful(Fixture(DETOUR), Nothing()) && KeysIdentify(Fixture(DETOUR))
    ensures var g, cfg := Fixture(DETOUR), Reduced(Encoded());
            exists a: Snapshot<nat, nat>, stopped: Snapshot<nat, nat>, records: seq<(nat, Node<nat>)>,
                   c: Snapshot<nat, nat>, d: Snapshot<nat, nat>, e: Snapshot<nat, nat> ::
              && Popped(g, cfg, Start(g, cfg), a) && Popped(g, cfg, a, stopped)
              && Lists(records, stopped.view) && Rebuilt(g, records).Some?
              && Popped(g, cfg, stopped.(queue := Rebuilt(g, records).value), c) && Popped(g, cfg, c, d)
                  && Popped(g, cfg, d, e)
              && e.queue == [] && 4 in e.view && e.view[4].depthMinimum == 3 && !Distance(g, 4, 3)
  {
    hide Pop, Start, Fixture, Reduced, Encoded, BareFootprint, Rebuilt, Distance, ReachedIn, Lists, Lawful,
        KeysIdentify;
    FixtureContracts(DETOUR);
    var g, cfg := Fixture(DETOUR), Reduced(Encoded());
    DetourStart();
    DetourFirst(Start(g, cfg));
    var a := Pop(g, cfg, Start(g, cfg)).value;
    DetourSecond(a);
    var stopped := Pop(g, cfg, a).value;
    var records := [(0, stopped.view[0]), (1, stopped.view[1]), (2, stopped.view[2]), (3, stopped.view[3])];
    DetourRebuilt(stopped);
    DetourLists(stopped);
    var resumed := stopped.(queue := Rebuilt(g, records).value);
    DetourThird(resumed);
    var c := Pop(g, cfg, resumed).value;
    DetourFourth(c);
    var d := Pop(g, cfg, c).value;
    DetourFifth(d);
    var e := Pop(g, cfg, d).value;
    DetourIsShort();
    assert Popped(g, cfg, Start(g, cfg), a) && Popped(g, cfg, a, stopped);
    assert Popped(g, cfg, resumed, c) && Popped(g, cfg, c, d) && Popped(g, cfg, d, e);
  }

  lemma DetourLists(sn: Snapshot<nat, nat>)
    requires Checkpoint(sn)
    ensures Lists([(0, sn.view[0]), (1, sn.view[1]), (2, sn.view[2]), (3, sn.view[3])], sn.view)
  {
    var records := [(0, sn.view[0]), (1, sn.view[1]), (2, sn.view[2]), (3, sn.view[3])];
    forall k | k in sn.view ensures exists r <- records :: r.0 == k {
      assert records[k] in records && records[k].0 == k;
    }
  }

  lemma DetourIsShort()
    ensures !Distance(Fixture(DETOUR), 4, 3)
  {
    var g := Fixture(DETOUR);
    var s0, s2, s4 := Stop(0, ENTER), Stop(2, HIGH), Stop(4, LOW);
    assert PathTo(g, [ENTER], s0);
    assert Move(g, [ENTER], s0, HIGH, s2);
    PathAppend(g, [ENTER], s0, HIGH, s2);
    assert Move(g, [ENTER] + [HIGH], s2, LOW, s4);
    PathAppend(g, [ENTER] + [HIGH], s2, LOW, s4);
    ReachableByPath(g, [ENTER] + [HIGH] + [LOW], s4);
    assert ReachedIn(g, 2, 4);
  }

  // ---------- depths after two resumes, without reduction ----------

  /** A long way 0, 1, 3, 4 and a short way 0, 2, 4 to the state before 5. */
  const LATE: Table := Table(map[0 := 1, 1 := 3, 3 := 4, 4 := 5, 2 := 4], map[0 := 2], {})

  const L0: Spot := At(LATE, 0, ENTER)
  const L1: Spot := At(LATE, 1, LOW)
  const L2: Spot := At(LATE, 2, HIGH)
  const L3: Spot := At(LATE, 3, LOW)
  const L4: Spot := At(LATE, 4, LOW)
  const L5: Spot := At(LATE, 5, LOW)

  const Q0: Work<nat, nat> := Work(0, [ENTER], [None])
  const Q1: Work<nat, nat> := Work(1, [ENTER, LOW], [None, Some(L0)])
  const Q2: Work<nat, nat> := Work(2, [ENTER, HIGH], [None, Some(L0)])
  const Q3: Work<nat, nat> := Work(3, [ENTER, LOW, LOW], [None, Some(L0), Some(L1)])
  const Q4: Work<nat, nat> := Work(4, [ENTER, LOW, LOW, LOW], [None, Some(L0), Some(L1), Some(L3)])
  const Q5: Work<nat, nat> := Work(5, [ENTER, LOW, LOW, LOW, LOW], [None, Some(L0), Some(L1), Some(L3), Some(L4)])

  function Unreduced(): Config<nat> {
    Searching(false, Encoded())
  }

  predicate Waiting(view: map<nat, Node<nat>>, w: Work<nat, nat>, s: Spot, depth: nat) {
    && w.key in view && view[w.key].state == s && view[w.key].path == w.path
    && view[w.key].depthMinimum == depth && view[w.key].phase.Queued?
  }

  /** A record with one child that is new. */
  lemma PopNew(sn: Snapshot<nat, nat>, w: Work<nat, nat>, s: Spot, depth: nat, c: Spot, next: Work<nat, nat>)
    requires sn.queue != [] && sn.queue[0] == w && w.path != [] && w.states != []
    requires Waiting(sn.view, w, s, depth) && !s.terminal && c.semantic !in sn.view
    requires Children(Fixture(LATE), Unreduced(), sn.view[w.key], w) == [c]
    requires next == Work(c.semantic, w.path + [c.action], w.states + [Some(s)])
    ensures Pop(Fixture(LATE), Unreduced(), sn).Some?
    ensures var r := Pop(Fixture(LATE), Unreduced(), sn).value;
            && r.queue == sn.queue[1..] + [next] && Waiting(r.view, next, c, depth + 1)
            && r.view.Keys == sn.view.Keys + {c.semantic} && r.view[w.key].phase.Expanded?
            && forall k <- sn.view :: k != w.key ==> r.view[k] == sn.view[k]
  {
    hide Children, Charged, Pop, AddChild, Fixture, Encoded, BareFootprint;
    var g, cfg := Fixture(LATE), Unreduced();
    PopPair(g, false, Encoded(), sn, [c]);
    var rest := sn.(queue := sn.queue[1..], counts := Charged(g, cfg, sn.counts, sn.view[w.key], w));
    AddNew(LATE, cfg, rest, w, s, depth + 1, c);
  }

  /** A record with one child that is known already, and not the record itself. */
  lemma PopOld(sn: Snapshot<nat, nat>, w: Work<nat, nat>, s: Spot, depth: nat, c: Spot)
    requires sn.queue != [] && sn.queue[0] == w && w.path != [] && w.states != []
    requires Waiting(sn.view, w, s, depth) && !s.terminal && c.semantic in sn.view && c.semantic != w.key
    requires Children(Fixture(LATE), Unreduced(), sn.view[w.key], w) == [c]
    ensures Pop(Fixture(LATE), Unreduced(), sn).Some?
    ensures var r := Pop(Fixture(LATE), Unreduced(), sn).value;
            && r.queue == sn.queue[1..]
            && r.view.Keys == sn.view.Keys && forall k <- sn.view :: k != w.key && k != c.semantic ==>
                r.view[k] == sn.view[k]
  {
    hide Children, Charged, Pop, AddChild, Fixture, Encoded, BareFootprint, Merged;
    var g, cfg := Fixture(LATE), Unreduced();
    PopPair(g, false, Encoded(), sn, [c]);
    var rest := sn.(queue := sn.queue[1..], counts := Charged(g, cfg, sn.counts, sn.view[w.key], w));
    AddKnown(LATE, cfg, rest, w, s, depth + 1, c);
  }

  lemma LateChild(node: Node<nat>, w: Work<nat, nat>)
    requires w.path != [] && w.states != [] && node.state.semantic in LATE.low && node.state.semantic !in LATE.high
    ensures Children(Fixture(LATE), Unreduced(), node, w) == [At(LATE, LATE.low[node.state.semantic], LOW)]
  {
    hide Children, Redundant;
    ChildrenBy(LATE, false, Encoded(), node, w);
    assert ChildBy(LATE, false, w, node.state, LOW) == [At(LATE, LATE.low[node.state.semantic], LOW)];
    assert ChildBy(LATE, false, w, node.state, HIGH) == [];
  }

  /** The first two pops, up to the first stop. */
  lemma LateFirstRun() returns (a: Snapshot<nat, nat>, b: Snapshot<nat, nat>)
    ensures Popped(Fixture(LATE), Unreduced(), Start(Fixture(LATE), Unreduced()), a)
        && Popped(Fixture(LATE), Unreduced(), a, b)
    ensures b.view.Keys == {0, 1, 2, 3} && b.view[0].phase.Expanded? && b.view[1].phase.Expanded?
    ensures Waiting(b.view, Q2, L2, 1) && Waiting(b.view, Q3, L3, 2)
  {
    hide Children, Charged, Pop, AddChild, Fixture, Encoded, BareFootprint;
    var g, cfg := Fixture(LATE), Unreduced();
    var sn := Start(g, cfg);
    LateStart();
    LateFork(sn);
    a := Pop(g, cfg, sn).value;
    b := LateSecondPop(a);
  }

  lemma LateSecondPop(a: Snapshot<nat, nat>) returns (b: Snapshot<nat, nat>)
    requires a.queue == [Q1, Q2] && a.view.Keys == {0, 1, 2} && a.view[0].phase.Expanded?
    requires Waiting(a.view, Q1, L1, 1) && Waiting(a.view, Q2, L2, 1)
    ensures Popped(Fixture(LATE), Unreduced(), a, b)
    ensures b.view.Keys == {0, 1, 2, 3} && b.view[0].phase.Expanded? && b.view[1].phase.Expanded?
    ensures Waiting(b.view, Q2, L2, 1) && Waiting(b.view, Q3, L3, 2)
  {
    hide Children, Pop, Fixture, Encoded, BareFootprint;
    LateChild(a.view[1], Q1);
    PopNew(a, Q1, L1, 1, L3, Q3);
    b := Pop(Fixture(LATE), Unreduced(), a).value;
  }

  lemma LateStart()
    ensures var sn := Start(Fixture(LATE), Unreduced());
            sn.queue == [Q0] && sn.view.Keys == {0} && Waiting(sn.view, Q0, L0, 0)
  {
    var g := Fixture(LATE);
    assert g.initial[..0] == [];
    assert AddInitial(g, Unreduced(), Blank(1), g.initial[..0]) == Blank(1);
  }

  lemma LateFork(sn: Snapshot<nat, nat>)
    requires sn.queue == [Q0] && sn.view.Keys == {0} && Waiting(sn.view, Q0, L0, 0)
    ensures Popped(Fixture(LATE), Unreduced(), sn, Pop(Fixture(LATE), Unreduced(), sn).value)
    ensures var r := Pop(Fixture(LATE), Unreduced(), sn).value;
            && r.queue == [Q1, Q2] && r.view.Keys == {0, 1, 2} && r.view[0].phase.Expanded?
            && Waiting(r.view, Q1, L1, 1) && Waiting(r.view, Q2, L2, 1)
  {
    hide Children, Charged, Pop, AddChild, Fixture, Encoded, BareFootprint, Redundant;
    var g, cfg := Fixture(LATE), Unreduced();
    ChildrenBy(LATE, false, Encoded(), sn.view[0], Q0);
    assert ChildBy(LATE, false, Q0, L0, LOW) == [L1] && ChildBy(LATE, false, Q0, L0, HIGH) == [L2];
    PopPair(g, false, Encoded(), sn, [L1, L2]);
    var rest := sn.(queue := sn.queue[1..], counts := Charged(g, cfg, sn.counts, sn.view[0], Q0));
    AddNew(LATE, cfg, rest, Q0, L0, 1, L1);
    AddNew(LATE, cfg, AddChild(g, cfg, rest, Q0, L0, 1, L1), Q0, L0, 1, L2);
    assert Q0.path + [LOW] == Q1.path && Q0.path + [HIGH] == Q2.path && Q0.states + [Some(L0)] == [None, Some(L0)];
    assert sn.queue[1..] == [];
  }

  /** The replayed paths of the two checkpoints. */
  lemma LateReplays()
    ensures Replayed(Fixture(LATE), Q2.path) == Some(Replay(Q2.states, L2))
    ensures Replayed(Fixture(LATE), Q3.path) == Some(Replay(Q3.states, L3))
    ensures Replayed(Fixture(LATE), Q4.path) == Some(Replay(Q4.states, L4))
  {
    hide BareFootprint;
    var g := Fixture(LATE);
    assert Q2.path[..1] == [ENTER] && Q3.path[..2] == Q1.path && Q4.path[..3] == Q3.path && Q1.path[..1] == [ENTER];
    assert Replayed(g, [ENTER]) == Some(Replay([None], L0));
    assert [None] + [Some(L0)] == Q1.states && Q1.states + [Some(L1)] == Q3.states
        && Q3.states + [Some(L3)] == Q4.states;
    assert Replayed(g, Q1.path) == Some(Replay(Q1.states, L1));
    assert Replayed(g, Q3.path) == Some(Replay(Q3.states, L3));
  }

  /** A table of expanded records and two waiting ones, listed with `v` before `w`. */
  lemma LateRebuilt(view: map<nat, Node<nat>>, done: seq<(nat, Node<nat>)>, v: Work<nat, nat>, w: Work<nat, nat>,
        records: seq<(nat, Node<nat>)>)
    requires forall r <- done :: !r.1.phase.Queued?
    requires v.key in view && w.key in view && view[v.key].path == v.path && view[w.key].path == w.path
    requires view[v.key].phase.Queued? && view[w.key].phase.Queued?
    requires Replayed(Fixture(LATE), v.path).Some? && Replayed(Fixture(LATE), v.path).value.states == v.states
    requires Replayed(Fixture(LATE), w.path).Some? && Replayed(Fixture(LATE), w.path).value.states == w.states
    requires records == done + [(v.key, view[v.key])] + [(w.key, view[w.key])]
    ensures Rebuilt(Fixture(LATE), records) == Some([v, w])
  {
    hide Replayed, Fixture;
    var g, one := Fixture(LATE), done + [(v.key, view[v.key])];
    assert records[..|records| - 1] == one && one[..|one| - 1] == done;
    NothingRebuilt(done);
    assert Rebuilt(g, one) == Some([] + [v]);
    assert [] + [v] + [w] == [v, w];
  }

  lemma {:induction false} NothingRebuilt(done: seq<(nat, Node<nat>)>)
    requires forall r <- done :: !r.1.phase.Queued?
    ensures Rebuilt(Fixture(LATE), done) == Some([])
  {
    hide Fixture;
    if done != [] {
      NothingRebuilt(done[..|done| - 1]);
    }
  }

  /** First resume: 3 comes before 2, and one pop later the search is stopped again. */
  lemma LateSecondRun(sn: Snapshot<nat, nat>) returns (c: Snapshot<nat, nat>)
    requires sn.queue == [Q3, Q2] && sn.view.Keys == {0, 1, 2, 3} && sn.view[0].phase.Expanded?
        && sn.view[1].phase.Expanded?
    requires Waiting(sn.view, Q2, L2, 1) && Waiting(sn.view, Q3, L3, 2)
    ensures Popped(Fixture(LATE), Unreduced(), sn, c)
    ensures c.view.Keys == {0, 1, 2, 3, 4} && c.view[0].phase.Expanded? && c.view[1].phase.Expanded?
        && c.view[3].phase.Expanded?
    ensures Waiting(c.view, Q2, L2, 1) && Waiting(c.view, Q4, L4, 3)
  {
    hide Children, Pop, Fixture, Encoded, BareFootprint;
    LateChild(sn.view[3], Q3);
    PopNew(sn, Q3, L3, 2, L4, Q4);
    c := Pop(Fixture(LATE), Unreduced(), sn).value;
  }

  /** Second resume: 4 is expanded, at depth 3, before 2 shows that its distance is 2. */
  lemma LateThirdRun(sn: Snapshot<nat, nat>)
        returns (d: Snapshot<nat, nat>, e: Snapshot<nat, nat>, f: Snapshot<nat, nat>)
    requires sn.queue == [Q4, Q2] && sn.view.Keys == {0, 1, 2, 3, 4}
    requires Waiting(sn.view, Q2, L2, 1) && Waiting(sn.view, Q4, L4, 3)
    ensures var g, cfg := Fixture(LATE), Unreduced();
        Popped(g, cfg, sn, d) && Popped(g, cfg, d, e) && Popped(g, cfg, e, f)
    ensures f.queue == [] && 5 in f.view && f.view[5].depthMinimum == 4
  {
    hide Children, Charged, Pop, Fixture, Encoded, BareFootprint;
    var g, cfg := Fixture(LATE), Unreduced();
    LateChild(sn.view[4], Q4);
    PopNew(sn, Q4, L4, 3, L5, Q5);
    d := Pop(g, cfg, sn).value;
    LateChild(d.view[2], Q2);
    PopOld(d, Q2, L2, 1, L4);
    e := Pop(g, cfg, d).value;
    assert e.queue == [Q5] && Waiting(e.view, Q5, L5, 4);
    LateLeaf(e);
    f := Pop(g, cfg, e).value;
  }

  lemma LateLeaf(sn: Snapshot<nat, nat>)
    requires sn.queue == [Q5] && Waiting(sn.view, Q5, L5, 4)
    ensures Popped(Fixture(LATE), Unreduced(), sn, Pop(Fixture(LATE), Unreduced(), sn).value)
    ensures var r := Pop(Fixture(LATE), Unreduced(), sn).value;
        r.queue == [] && 5 in r.view && r.view[5].depthMinimum == 4
  {
    hide Children, Charged, Pop, Encoded, BareFootprint, Redundant;
    ChildrenBy(LATE, false, Encoded(), sn.view[5], Q5);
    assert ChildBy(LATE, false, Q5, L5, LOW) == [] && ChildBy(LATE, false, Q5, L5, HIGH) == [];
    PopPair(Fixture(LATE), false, Encoded(), sn, []);
  }

  /** A checkpoint whose queue has been rebuilt from its records. */
  ghost predicate Reopened(g: Grammar<nat, nat>, stopped: Snapshot<nat, nat>, records: seq<(nat, Node<nat>)>,
        resumed: Snapshot<nat, nat>) {
    Lists(records, stopped.view) && Rebuilt(g, records) == Some(resumed.queue)
      && resumed == stopped.(queue := resumed.queue)
  }

  lemma LateLists(view: map<nat, Node<nat>>, records: seq<(nat, Node<nat>)>)
    requires (forall r <- records :: r.0 in view && view[r.0] == r.1)
        && (forall k <- view :: exists r <- records :: r.0 == k)
    requires forall i, j :: 0 <= i < j < |records| ==> records[i].0 != records[j].0
    ensures Lists(records, view)
  {}

  lemma LateIsShort()
    ensures !Distance(Fixture(LATE), 5, 4)
  {
    var g := Fixture(LATE);
    var p := [ENTER];
    assert PathTo(g, p, L0);
    PathAppend(g, p, L0, HIGH, L2);
    PathAppend(g, p + [HIGH], L2, LOW, L4);
    PathAppend(g, p + [HIGH] + [LOW], L4, LOW, L5);
    ReachableByPath(g, p + [HIGH] + [LOW] + [LOW], L5);
    assert ReachedIn(g, 3, 5);
  }

  /** Even without reduction two resumes can leave a depth too large: each rebuilds the queue in the
      order of identifiers, the second from a checkpoint whose queue spans three layers. */
  lemma TwoResumesSpoilDepths()
    ensures Lawful(Fixture(LATE), Nothing()) && KeysIdentify(Fixture(LATE))
    ensures var g, cfg := Fixture(LATE), Unreduced();
            exists a: Snapshot<nat, nat>, b: Snapshot<nat, nat>, listed: seq<(nat, Node<nat>)>, b': Snapshot<nat, nat>,
                   c: Snapshot<nat, nat>, relisted: seq<(nat, Node<nat>)>, c': Snapshot<nat, nat>,
                   d: Snapshot<nat, nat>, e: Snapshot<nat, nat>, f: Snapshot<nat, nat> ::
              && !cfg.por && Popped(g, cfg, Start(g, cfg), a) && Popped(g, cfg, a, b)
              && Reopened(g, b, listed, b') && Popped(g, cfg, b', c)
              && Reopened(g, c, relisted, c') && Popped(g, cfg, c', d) && Popped(g, cfg, d, e) && Popped(g, cfg, e, f)
              && f.queue == [] && 5 in f.view && f.view[5].depthMinimum == 4 && !Distance(g, 5, 4)
  {
    hide Pop, Start, Fixture, Encoded, BareFootprint, Distance, Lawful, KeysIdentify, Popped, Reopened, Waiting;
    FixtureContracts(LATE);
    LateIsShort();
    var a, b := LateFirstRun();
    var listed, b' := LateFirstResume(b);
    var c := LateSecondRun(b');
    var relisted, c' := LateSecondResume(c);
    var d, e, f := LateThirdRun(c');
  }

  lemma LateFirstResume(b: Snapshot<nat, nat>) returns (listed: seq<(nat, Node<nat>)>, b': Snapshot<nat, nat>)
    requires b.view.Keys == {0, 1, 2, 3} && b.view[0].phase.Expanded? && b.view[1].phase.Expanded?
    requires Waiting(b.view, Q2, L2, 1) && Waiting(b.view, Q3, L3, 2)
    ensures Reopened(Fixture(LATE), b, listed, b') && b'.queue == [Q3, Q2] && b'.view == b.view
  {
    hide Fixture, Rebuilt, Replayed, Lists;
    LateReplays();
    var done := [(0, b.view[0]), (1, b.view[1])];
    listed := done + [(3, b.view[3])] + [(2, b.view[2])];
    LateRebuilt(b.view, done, Q3, Q2, listed);
    FourListed(b.view, listed);
    b' := b.(queue := [Q3, Q2]);
  }

  lemma LateSecondResume(c: Snapshot<nat, nat>) returns (listed: seq<(nat, Node<nat>)>, c': Snapshot<nat, nat>)
    requires c.view.Keys == {0, 1, 2, 3, 4} && c.view[0].phase.Expanded? && c.view[1].phase.Expanded?
        && c.view[3].phase.Expanded?
    requires Waiting(c.view, Q2, L2, 1) && Waiting(c.view, Q4, L4, 3)
    ensures Reopened(Fixture(LATE), c, listed, c') && c'.queue == [Q4, Q2] && c'.view == c.view
  {
    hide Fixture, Rebuilt, Replayed, Lists;
    LateReplays();
    var done := [(0, c.view[0]), (1, c.view[1]), (3, c.view[3])];
    listed := done + [(4, c.view[4])] + [(2, c.view[2])];
    LateRebuilt(c.view, done, Q4, Q2, listed);
    FiveListed(c.view, listed);
    c' := c.(queue := [Q4, Q2]);
  }

  lemma FourListed(view: map<nat, Node<nat>>, records: seq<(nat, Node<nat>)>)
    requires view.Keys == {0, 1, 2, 3}
    requires records == [(0, view[0]), (1, view[1])] + [(3, view[3])] + [(2, view[2])]
    ensures Lists(records, view)
  {
    assert records[0].0 == 0 && records[1].0 == 1 && records[2].0 == 3 && records[3].0 == 2;
    LateLists(view, records);
  }

  lemma FiveListed(view: map<nat, Node<nat>>, records: seq<(nat, Node<nat>)>)
    requires view.Keys == {0, 1, 2, 3, 4}
    requires records == [(0, view[0]), (1, view[1]), (3, view[3])] + [(4, view[4])] + [(2, view[2])]
    ensures Lists(records, view)
  {
    assert records[0].0 == 0 && records[1].0 == 1 && records[2].0 == 3 && records[3].0 == 4 && records[4].0 == 2;
    LateLists(view, records);
  }

  // ---------- evidence shared through a colliding digest ----------

  /** `a` and `b` commute at 1 but not at 2. */
  const TWINS: Table := Table(map[1 := 3, 5 := 6, 2 := 7, 8 := 10], map[1 := 5, 3 := 6, 2 := 8, 7 := 9], {})

  lemma TwinsCommuteHere()
    ensures Judge(Fixture(TWINS), Some(At(TWINS, 1, LOW)), LOW, HIGH).independent
  {}

  lemma TwinsDifferThere()
    ensures !Commutes(Fixture(TWINS), Some(At(TWINS, 2, LOW)), LOW, HIGH)
  {}

  lemma TwinsAlphabet()
    ensures InAlphabet(Fixture(TWINS), LOW) && InAlphabet(Fixture(TWINS), HIGH)
  {
    var g := Fixture(TWINS);
    assert g.made(At(TWINS, 1, LOW)) && LOW in g.enabled(At(TWINS, 1, LOW)) && HIGH in g.enabled(At(TWINS, 1, LOW));
  }

  /** The verifier's cache is keyed by the digest alone, without comparing canonical bytes. When two
      forms share a digest, as under the forced-collision canonicaliser, evidence gathered at one is
      served at the other, where it is wrong. */
  lemma CollidingDigestServesStaleEvidence()
    ensures var g, digest := Fixture(TWINS), (k: nat) => 0 as nat;
            var here, there := Query(Some(At(TWINS, 1, LOW)), LOW, HIGH), Query(Some(At(TWINS, 2, LOW)), LOW, HIGH);
            var cache := CacheAfter(g, digest, [here]);
            && Askable(g, here) && Askable(g, there)
            && Asked(g, digest, cache, there) == cache && KeyFor(g, digest, there) in cache
            && cache[KeyFor(g, digest, there)].independent && !Independent(g, there)
            && !CacheOk(g, digest, cache) && !Unambiguous(g, digest)
  {
    hide Judge, Commutes, InAlphabet, BareFootprint;
    TwinsCommuteHere();
    TwinsDifferThere();
    TwinsAlphabet();
    var g, digest := Fixture(TWINS), (k: nat) => 0 as nat;
    var here, there := Query(Some(At(TWINS, 1, LOW)), LOW, HIGH), Query(Some(At(TWINS, 2, LOW)), LOW, HIGH);
    JudgeDecidesCommutes(g, here.state, LOW, HIGH);
    assert [here][..0] == [];
    assert CacheAfter(g, digest, [here]) == Asked(g, digest, map[], here);
    assert KeyFor(g, digest, there) == KeyFor(g, digest, here);
    OneQuestionSpoils(g, digest, here, there);
  }

  // ---------- terminal parity ----------

  /** One terminal state, marked impossible by the grammar's legality check. */
  function Illegal(): Grammar<nat, nat> {
    Fixture(Table(map[], map[], {0})).(initial := [LazyState(0, ENTER, true, Impossible)])
  }

  /** The canonical search reports a terminal that the enumeration drops as impossible. */
  lemma ImpossibleTerminalBreaksParity()
    ensures TerminalForm(Illegal(), 0) && !SequenceTerminal(Illegal(), 0)
  {
    var g := Illegal();
    var s := LazyState(0, ENTER, true, Impossible);
    assert PathTo(g, [ENTER], s);
    forall n: nat, t | Derived(g, n, t) ensures !t.status.Possible? {
      OnlyImpossible(n, t);
    }
  }

  lemma NothingFollows(p: Spot)
    ensures Expansion(Illegal(), p) == []
  {}

  lemma {:induction false} OnlyImpossible(n: nat, t: Spot)
    requires Derived(Illegal(), n, t)
    ensures t == LazyState(0, ENTER, true, Impossible)
  {
    forall p ensures Expansion(Illegal(), p) == [] {
      NothingFollows(p);
    }
    hide Expansion;
  }

  const CLASH: Action := Action("c", 3, BareFootprint().(conflicts := {"enter"}))

  /** One legal action, to a terminal state, that declares a conflict with the initial action. */
  function Conflicting(): Grammar<nat, nat> {
    Grammar(
      (s: Spot) => s.terminal <==> s.semantic == 1,
      [LazyState(0, ENTER, false, Possible)],
      (s: Spot) => if s.semantic == 0 then [CLASH] else [],
      (s: Option<Spot>, a: Action) =>
        if s.Some? && s.value.semantic == 0 && a == CLASH then Some(LazyState(1, CLASH, true, Possible)) else None,
      (s: Spot) => Envelope(s.semantic, 0, 0, 0))
  }

  /** The enumeration reports a terminal that the canonical search's dependency guard holds back. */
  lemma ConflictBreaksParity()
    ensures SequenceTerminal(Conflicting(), 1) && !TerminalForm(Conflicting(), 1)
  {
    var g := Conflicting();
    var s0, s1 := LazyState(0, ENTER, false, Possible), LazyState(1, CLASH, true, Possible);
    Steps.RealizedMembers(g, s0, g.enabled(s0), s1);
    assert Derived(g, 0, s0);
    assert Derived(g, 1, s1);
    forall path, s | PathTo(g, path, s) ensures s == s0 {
      OnlyStart(path, s);
    }
  }

  /** The second action is held back by the conflict it declares with the first. */
  lemma Held(p: Spot, a: Action, s: Spot)
    ensures !Move(Conflicting(), [ENTER], p, a, s)
  {
    assert ENTER in [ENTER] && "enter" in Keys([ENTER]);
    assert "enter" in CLASH.footprint.conflicts;
    assert a == CLASH ==> "enter" in a.footprint.conflicts * Keys([ENTER]);
  }

  lemma {:induction false} OnlyStart(path: seq<Action>, s: Spot)
    requires PathTo(Conflicting(), path, s)
    ensures s == LazyState(0, ENTER, false, Possible) && path == [ENTER]
    decreases |path|
  {
    var g := Conflicting();
    if |path| > 1 {
      var n := |path| - 1;
      assert PathOnward(g, path[..n], path[n], s);
      var p :| PathTo(g, path[..n], p) && Move(g, path[..n], p, path[n], s);
      Held(p, path[n], s);
      OnlyStart(path[..n], p);
    }
  }
}

/** Best-first replay of a recorded search tree under arbitrary scores, and what its recovery curve
    says at a budget. */
module BestFirst {
  import opened Grammars

  datatype State = State(disposition: string, measured: real)

  datatype Terminal = Terminal(tier: nat, measured: real)

  datatype Choice = Choice(action: string, child: Option<string>)

  /** `ids` lists the states; `root` holds the options before any state has been entered. */
  datatype Tree = Tree(
    ids: seq<string>,
    states: map<string, State>,
    terminals: map<string, Terminal>,
    root: seq<Choice>,
    frontiers: map<string, seq<Choice>>)

  function StateCost(s: State): real {
    if s.disposition in {"canonical_duplicate", "verified_equivalent", "impossible", "dominated"} then 0.0
    else if s.measured < 0.000001 then 0.000001 else s.measured
  }

  function TerminalCost(t: Terminal): real {
    if t.measured < 0.0 then 0.0 else t.measured
  }

  /** What entering a state costs; a state without a record costs one unit. */
  function VisitCost(t: Tree, id: string): real {
    (if id in t.states then StateCost(t.states[id]) else 1.0)
    + (if id in t.terminals then TerminalCost(t.terminals[id]) else 0.0)
  }

  /** Entering a state costs nothing exactly if it has a record that says it was merged, impossible or
      dominated, and no terminal that took time. */
  lemma FreeExactly(t: Tree, id: string)
    ensures VisitCost(t, id) == 0.0 <==>
            && id in t.states && (id in t.terminals ==> t.terminals[id].measured <= 0.0)
            && var d := t.states[id].disposition;
               d == "canonical_duplicate" || d == "verified_equivalent" || d == "impossible" || d == "dominated"
    ensures VisitCost(t, id) >= 0.0
  {
  }

  predicate Useful(t: Tree, id: string) {
    id in t.terminals && t.terminals[id].tier >= 1
  }

  function Options(t: Tree, id: string): seq<Choice> {
    if id in t.frontiers then t.frontiers[id] else []
  }

  // ---------- reachability ----------

  predicate Offers(options: seq<Choice>, id: string) {
    exists k :: 0 <= k < |options| && options[k].child == Some(id)
  }

  ghost predicate Route(t: Tree, w: seq<string>) {
    && w != [] && Offers(t.root, w[0])
    && forall i :: 0 <= i < |w| - 1 ==> Offers(Options(t, w[i]), w[i + 1])
  }

  ghost predicate Explorable(t: Tree, id: string) {
    exists w :: Route(t, w) && w[|w| - 1] == id
  }

  lemma ReachRoot(t: Tree, id: string)
    requires Offers(t.root, id)
    ensures Explorable(t, id)
  {
    assert Route(t, [id]);
  }

  ghost predicate ClosedUnder(t: Tree, s: set<string>) {
    && (forall id :: Offers(t.root, id) ==> id in s)
    && (forall v, id :: v in s && Offers(Options(t, v), id) ==> id in s)
  }

  lemma {:induction false} ReachableStaysIn(t: Tree, s: set<string>, id: string)
    requires ClosedUnder(t, s) && Explorable(t, id)
    ensures id in s
  {
    var w :| Route(t, w) && w[|w| - 1] == id;
    var i := 0;
    while i < |w| - 1
      invariant 0 <= i <= |w| - 1 && w[i] in s
    {
      assert Offers(Options(t, w[i]), w[i + 1]);
      i := i + 1;
    }
  }

  // ---------- the trajectory ----------

  /** The cost so far and the useful terminals found so far. */
  datatype Point = Point(cost: real, found: set<string>)

  /** Entering one more state. */
  function Extend(t: Tree, last: Point, id: string): Point {
    Point(last.cost + VisitCost(t, id), if Useful(t, id) then last.found + {id} else last.found)
  }

  /** The points of the curve for states entered in this order. */
  function Curve(t: Tree, order: seq<string>): (c: seq<Point>)
    ensures |c| == |order| + 1
  {
    if order == [] then [Point(0.0, {})]
    else
      var before := Curve(t, order[..|order| - 1]);
      before + [Extend(t, before[|order| - 1], order[|order| - 1])]
  }

  lemma CurveAppend(t: Tree, order: seq<string>, id: string)
    ensures Curve(t, order + [id]) == Curve(t, order) + [Extend(t, Curve(t, order)[|order|], id)]
  {
    hide Extend;
    assert (order + [id])[..|order|] == order;
  }

  predicate Distinct(order: seq<string>) {
    forall i, j :: 0 <= i < j < |order| ==> order[i] != order[j]
  }

  /** Every reachable state is entered exactly once, and nothing else is. */
  ghost predicate CompleteOrder(t: Tree, order: seq<string>) {
    Distinct(order) && forall id :: id in order <==> Explorable(t, id)
  }

  // ---------- the replay ----------

  datatype Entry = Entry(priority: real, sequence: nat, choice: Choice)

  /** The state of a replay: what is queued, the next sequence number, and what has been entered. */
  datatype Visit = Visit(queue: seq<Entry>, sequence: nat, visited: set<string>, order: seq<string>)

  predicate Before(a: Entry, b: Entry) {
    a.priority > b.priority || (a.priority == b.priority && a.sequence < b.sequence)
  }

  /** Where the heap's least entry is: highest priority, and among equals the one pushed first. */
  function BestIndex(queue: seq<Entry>): (at: nat)
    requires queue != []
    ensures at < |queue| && forall k :: 0 <= k < |queue| ==> !Before(queue[k], queue[at])
  {
    var n := |queue| - 1;
    if n == 0 then 0
    else
      var at := BestIndex(queue[..n]);
      assert forall k :: 0 <= k < n ==> !Before(queue[..n][k], queue[at]);
      if Before(queue[n], queue[at]) then n else at
  }

  function Priority(scores: map<string, real>, action: string, otherwise: real): real {
    if action in scores then scores[action] else otherwise
  }

  /** Entries for options; one without a score of its own gets the given priority. */
  function Scored(scores: map<string, real>, options: seq<Choice>, otherwise: real, sequence: nat): (r: seq<Entry>)
    ensures |r| == |options|
  {
    seq(|options|, i
      requires 0 <= i < |options| => Entry(Priority(scores, options[i].action, otherwise), sequence + i, options[i]))
  }

  function Begun(t: Tree, scores: map<string, real>): Visit {
    Visit(Scored(scores, t.root, 0.0, 0), |t.root|, {}, [])
  }

  function Rest(queue: seq<Entry>): seq<Entry>
    requires queue != []
  {
    queue[..BestIndex(queue)] + queue[BestIndex(queue) + 1..]
  }

  /** Takes the best entry; its child is entered unless it is missing or was entered before. An only
      option without a score takes its parent's priority, others count as zero. */
  function Next(t: Tree, scores: map<string, real>, v: Visit): Visit
    requires v.queue != []
  {
    var best, rest := v.queue[BestIndex(v.queue)], Rest(v.queue);
    if best.choice.child.None? || best.choice.child.value in v.visited then v.(queue := rest)
    else
      var id := best.choice.child.value;
      var options := Options(t, id);
      Visit(rest + Scored(scores, options, if |options| == 1 then best.priority else 0.0, v.sequence),
            v.sequence + |options|, v.visited + {id}, v.order + [id])
  }

  function After(t: Tree, scores: map<string, real>, n: nat): Visit {
    if n == 0 then Begun(t, scores)
    else
      var v := After(t, scores, n - 1);
      if v.queue == [] then v else Next(t, scores, v)
  }

  /** The replay of `t` under `scores` enters its states in this order. */
  ghost predicate Replays(t: Tree, scores: map<string, real>, order: seq<string>) {
    exists n: nat :: After(t, scores, n).queue == [] && After(t, scores, n).order == order
  }

  lemma {:induction false} StaysAfter(t: Tree, scores: map<string, real>, n: nat, m: nat)
    requires After(t, scores, n).queue == [] && n <= m
    ensures After(t, scores, m) == After(t, scores, n)
    decreases m
  {
    hide Next, Begun;
    if n < m {
      StaysAfter(t, scores, n, m - 1);
    }
  }

  /** The scores determine the order. */
  lemma OneOrder(t: Tree, scores: map<string, real>, a: seq<string>, b: seq<string>)
    requires Replays(t, scores, a) && Replays(t, scores, b)
    ensures a == b
  {
    var n: nat :| After(t, scores, n).queue == [] && After(t, scores, n).order == a;
    var m: nat :| After(t, scores, m).queue == [] && After(t, scores, m).order == b;
    if n <= m {
      StaysAfter(t, scores, n, m);
    } else {
      StaysAfter(t, scores, m, n);
    }
  }

  // ---------- what every step keeps ----------

  predicate InQueue(queue: seq<Entry>, id: string) {
    exists k :: 0 <= k < |queue| && queue[k].choice.child == Some(id)
  }

  /** Everything offered so far is entered or queued. */
  ghost predicate NothingLost(t: Tree, visited: set<string>, queue: seq<Entry>) {
    && (forall id :: Offers(t.root, id) ==> id in visited || InQueue(queue, id))
    && (forall v, id :: v in visited && Offers(Options(t, v), id) ==> id in visited || InQueue(queue, id))
  }

  /** `id` is offered at the root or by one of these states. */
  ghost predicate OfferedBy(t: Tree, states: seq<string>, id: string) {
    Offers(t.root, id) || exists v <- states :: Offers(Options(t, v), id)
  }

  ghost predicate QueueOffered(t: Tree, v: Visit) {
    forall id :: InQueue(v.queue, id) ==> OfferedBy(t, v.order, id)
  }

  /** Every state is entered after it was offered. */
  ghost predicate Discovered(t: Tree, order: seq<string>) {
    forall j :: 0 <= j < |order| ==> OfferedBy(t, order[..j], order[j])
  }

  ghost predicate OrderOk(order: seq<string>, visited: set<string>) {
    Distinct(order) && forall id :: id in order <==> id in visited
  }

  ghost predicate VisitOk(t: Tree, v: Visit) {
    NothingLost(t, v.visited, v.queue) && QueueOffered(t, v) && OrderOk(v.order, v.visited) && Discovered(t, v.order)
  }

  lemma RestKeeps(queue: seq<Entry>, id: string)
    requires queue != []
    ensures InQueue(queue, id) <==> InQueue(Rest(queue), id) || queue[BestIndex(queue)].choice.child == Some(id)
  {
    var k, after := BestIndex(queue), Rest(queue);
    if InQueue(queue, id) {
      var i :| 0 <= i < |queue| && queue[i].choice.child == Some(id);
      if i < k {
        assert after[i] == queue[i];
      } else if i > k {
        assert after[i - 1] == queue[i];
      }
    }
    if InQueue(after, id) {
      var i :| 0 <= i < |after| && after[i].choice.child == Some(id);
      assert after[i] == queue[if i < k then i else i + 1];
    }
  }

  lemma ScoredKeeps(queue: seq<Entry>, scores: map<string, real>, options: seq<Choice>, otherwise: real, sequence: nat,
        id: string)
    ensures InQueue(queue + Scored(scores, options, otherwise, sequence), id) <==>
        InQueue(queue, id) || Offers(options, id)
  {
    var more := Scored(scores, options, otherwise, sequence);
    var after := queue + more;
    if InQueue(queue, id) {
      var i :| 0 <= i < |queue| && queue[i].choice.child == Some(id);
      assert after[i] == queue[i];
    }
    if Offers(options, id) {
      var k :| 0 <= k < |options| && options[k].child == Some(id);
      assert after[|queue| + k] == more[k];
    }
    if InQueue(after, id) {
      var i :| 0 <= i < |after| && after[i].choice.child == Some(id);
      assert after[i] == if i < |queue| then queue[i] else more[i - |queue|];
    }
  }

  lemma BegunIsOk(t: Tree, scores: map<string, real>)
    ensures VisitOk(t, Begun(t, scores))
  {
    forall id ensures InQueue(Begun(t, scores).queue, id) <==> Offers(t.root, id) {
      ScoredKeeps([], scores, t.root, 0.0, 0, id);
      assert [] + Scored(scores, t.root, 0.0, 0) == Scored(scores, t.root, 0.0, 0);
    }
    hide Scored, InQueue, Offers;
  }

  /** Passing over an entry whose child is missing or known. */
  lemma PassKeeps(t: Tree, v: Visit)
    requires v.queue != [] && VisitOk(t, v)
    requires var child := v.queue[BestIndex(v.queue)].choice.child; child.None? || child.value in v.visited
    ensures VisitOk(t, v.(queue := Rest(v.queue)))
  {
    forall id ensures InQueue(v.queue, id) <==>
        InQueue(Rest(v.queue), id) || v.queue[BestIndex(v.queue)].choice.child == Some(id) {
      RestKeeps(v.queue, id);
    }
    hide Rest, BestIndex, InQueue, Offers, Options, OfferedBy, OrderOk, Discovered;
  }

  /** Entering a new state and queueing its options. */
  lemma EnterKeeps(t: Tree, v: Visit, id: string, queue: seq<Entry>, sequence: nat)
    requires VisitOk(t, v) && id !in v.visited && InQueue(v.queue, id)
    requires forall x :: InQueue(v.queue, x) ==> x == id || InQueue(queue, x)
    requires forall x :: InQueue(queue, x) ==> InQueue(v.queue, x) || Offers(Options(t, id), x)
    requires forall x :: Offers(Options(t, id), x) ==> InQueue(queue, x)
    ensures VisitOk(t, Visit(queue, sequence, v.visited + {id}, v.order + [id]))
  {
    hide InQueue, Offers, Options, OfferedBy;
    var order := v.order + [id];
    forall x | InQueue(queue, x) ensures OfferedBy(t, order, x) {
      if InQueue(v.queue, x) {
        OfferedByMore(t, v.order, order, x);
      } else {
        OfferedByLast(t, v.order, id, x);
      }
    }
    OrderGrows(t, v.order, v.visited, id);
  }

  lemma OfferedByLast(t: Tree, order: seq<string>, id: string, x: string)
    requires Offers(Options(t, id), x)
    ensures OfferedBy(t, order + [id], x)
  {
    hide Offers, Options;
    assert id in order + [id];
  }

  lemma OrderGrows(t: Tree, order: seq<string>, visited: set<string>, id: string)
    requires OrderOk(order, visited) && Discovered(t, order) && id !in visited && OfferedBy(t, order, id)
    ensures OrderOk(order + [id], visited + {id}) && Discovered(t, order + [id])
  {
    hide OfferedBy;
    var more := order + [id];
    forall j | 0 <= j < |more| ensures OfferedBy(t, more[..j], more[j]) {
      assert more[..j] == if j < |order| then order[..j] else order;
    }
    assert id !in order;
  }

  lemma OfferedByMore(t: Tree, some: seq<string>, more: seq<string>, id: string)
    requires OfferedBy(t, some, id) && forall v <- some :: v in more
    ensures OfferedBy(t, more, id)
  {}

  lemma NextKeeps(t: Tree, scores: map<string, real>, v: Visit)
    requires v.queue != [] && VisitOk(t, v)
    ensures VisitOk(t, Next(t, scores, v))
  {
    hide VisitOk, BestIndex, Scored, InQueue, Offers, Options, Rest;
    var best := v.queue[BestIndex(v.queue)];
    if best.choice.child.None? || best.choice.child.value in v.visited {
      PassKeeps(t, v);
    } else {
      var id := best.choice.child.value;
      var r := Next(t, scores, v);
      forall x
        ensures InQueue(v.queue, x) <==> InQueue(Rest(v.queue), x) || x == id
        ensures InQueue(r.queue, x) <==> InQueue(Rest(v.queue), x) || Offers(Options(t, id), x)
      {
        RestKeeps(v.queue, x);
        var options := Options(t, id);
        ScoredKeeps(Rest(v.queue), scores, options, if |options| == 1 then best.priority else 0.0, v.sequence, x);
      }
      EnterKeeps(t, v, id, r.queue, r.sequence);
    }
  }

  lemma {:induction false} AfterIsOk(t: Tree, scores: map<string, real>, n: nat)
    ensures VisitOk(t, After(t, scores, n))
  {
    hide VisitOk, Next;
    if n == 0 {
      BegunIsOk(t, scores);
    } else {
      AfterIsOk(t, scores, n - 1);
      if After(t, scores, n - 1).queue != [] {
        NextKeeps(t, scores, After(t, scores, n - 1));
      }
    }
  }

  /** What was discovered can be explored, along states entered before it. */
  lemma {:induction false} DiscoveredRoute(t: Tree, order: seq<string>, j: nat) returns (w: seq<string>)
    requires Discovered(t, order) && j < |order|
    ensures Route(t, w) && w[|w| - 1] == order[j] && forall x <- w :: x in order[..j + 1]
    decreases j
  {
    assert OfferedBy(t, order[..j], order[j]);
    if Offers(t.root, order[j]) {
      w := [order[j]];
      assert order[..j + 1][j] == order[j];
    } else {
      var v :| v in order[..j] && Offers(Options(t, v), order[j]);
      var i :| 0 <= i < j && order[..j][i] == v;
      var before := DiscoveredRoute(t, order, i);
      w := before + [order[j]];
      forall k | 0 <= k < |w| - 1 ensures Offers(Options(t, w[k]), w[k + 1]) {
        assert k < |before| - 1 ==> Offers(Options(t, before[k]), before[k + 1]);
      }
      forall x | x in w ensures x in order[..j + 1] {
        if x in before {
          var l :| 0 <= l < i + 1 && order[..i + 1][l] == x;
          assert order[..j + 1][l] == x;
        } else {
          assert order[..j + 1][j] == x;
        }
      }
    }
  }

  /** Whatever the scores, every state reachable from the root options is entered exactly once, and
      only after it was offered. */
  lemma ReplayIsComplete(t: Tree, scores: map<string, real>, order: seq<string>)
    requires Replays(t, scores, order)
    ensures CompleteOrder(t, order) && Discovered(t, order)
  {
    var n: nat :| After(t, scores, n).queue == [] && After(t, scores, n).order == order;
    AfterIsOk(t, scores, n);
    EmptyQueueIsComplete(t, After(t, scores, n));
  }

  lemma EmptyQueueIsComplete(t: Tree, v: Visit)
    requires VisitOk(t, v) && v.queue == []
    ensures CompleteOrder(t, v.order)
  {
    assert ClosedUnder(t, v.visited);
    hide ClosedUnder, NothingLost, QueueOffered;
    forall id ensures id in v.order <==> Explorable(t, id) {
      if Explorable(t, id) {
        ReachableStaysIn(t, v.visited, id);
      }
      if id in v.order {
        var j :| 0 <= j < |v.order| && v.order[j] == id;
        var w := DiscoveredRoute(t, v.order, j);
      }
    }
  }

  // ---------- termination ----------

  /** All states the tree mentions, and so all it can ever enter. */
  function Mentioned(options: seq<Choice>): set<string> {
    set k | 0 <= k < |options| && options[k].child.Some? :: options[k].child.value
  }

  function AllMentioned(t: Tree): set<string> {
    Mentioned(t.root) + set v, id | v in t.frontiers && id in Mentioned(t.frontiers[v]) :: id
  }

  lemma OfferedIsMentioned(t: Tree, states: seq<string>, id: string)
    requires OfferedBy(t, states, id)
    ensures id in AllMentioned(t)
  {
    if Offers(t.root, id) {
      var k :| 0 <= k < |t.root| && t.root[k].child == Some(id);
    } else {
      var v :| v in states && Offers(Options(t, v), id);
      var k :| 0 <= k < |Options(t, v)| && Options(t, v)[k].child == Some(id);
      assert v in t.frontiers && id in Mentioned(t.frontiers[v]);
    }
  }

  lemma VisitedIsMentioned(t: Tree, v: Visit)
    requires VisitOk(t, v)
    ensures v.visited <= AllMentioned(t)
  {
    hide AllMentioned, OfferedBy, NothingLost, QueueOffered;
    forall id | id in v.visited ensures id in AllMentioned(t) {
      assert id in v.order;
      var j :| 0 <= j < |v.order| && v.order[j] == id;
      OfferedIsMentioned(t, v.order[..j], id);
    }
  }

  /** A step enters one more of the mentioned states or shortens the queue. */
  lemma NextAdvances(t: Tree, scores: map<string, real>, v: Visit)
    requires v.queue != [] && VisitOk(t, v)
    ensures var r := Next(t, scores, v);
        v.visited <= r.visited <= AllMentioned(t) && (r.visited == v.visited ==> |r.queue| < |v.queue|)
  {
    NextKeeps(t, scores, v);
    VisitedIsMentioned(t, Next(t, scores, v));
    hide VisitOk, AllMentioned, Scored, Options;
  }

  lemma {:induction false} ReplayEnds(t: Tree, scores: map<string, real>, n: nat) returns (m: nat)
    ensures After(t, scores, m).queue == []
    decreases AllMentioned(t) - After(t, scores, n).visited, |After(t, scores, n).queue|
  {
    hide VisitOk, AllMentioned, Next;
    var v := After(t, scores, n);
    if v.queue == [] {
      m := n;
    } else {
      AfterIsOk(t, scores, n);
      VisitedIsMentioned(t, v);
      NextAdvances(t, scores, v);
      assert After(t, scores, n + 1) == Next(t, scores, v);
      m := ReplayEnds(t, scores, n + 1);
    }
  }

  lemma ReplayExists(t: Tree, scores: map<string, real>) returns (order: seq<string>)
    ensures Replays(t, scores, order)
  {
    var m := ReplayEnds(t, scores, 0);
    order := After(t, scores, m).order;
  }

  // ---------- the code ----------

  class Replay {
    const tree: Tree
    const scores: map<string, real>
    var queue: seq<Entry>
    var sequence: nat
    var visited: set<string>
    var consumed: real
    var found: set<string>
    var curve: seq<Point>
    ghost var order: seq<string>

    ghost function Now(): Visit
      reads this
    {
      Visit(queue, sequence, visited, order)
    }

    ghost predicate Drawn()
      reads this
    {
      curve == Curve(tree, order) && curve[|order|] == Point(consumed, found)
    }

    constructor (t: Tree, scores: map<string, real>)
      ensures tree == t && this.scores == scores && Now() == Visit([], 0, {}, []) && Drawn()
    {
      tree, this.scores := t, scores;
      queue, sequence, visited, order := [], 0, {}, [];
      consumed, found, curve := 0.0, {}, [Point(0.0, {})];
    }

    /** Enters a state: its cost, and what is found there. */
    method Enter(id: string)
      requires Drawn()
      modifies `visited, `order, `consumed, `found, `curve
      ensures Drawn() && visited == old(visited) + {id} && order == old(order) + [id]
    {
      CurveAppend(tree, order, id);
      visited := visited + {id};
      order := order + [id];
      consumed := consumed + VisitCost(tree, id);
      found := if Useful(tree, id) then found + {id} else found;
      curve := curve + [Point(consumed, found)];
    }

    /** Queues options; one without a score of its own gets the given priority. */
    method PushAll(options: seq<Choice>, otherwise: real)
      modifies `queue, `sequence
      ensures queue == old(queue) + Scored(scores, options, otherwise, old(sequence))
          && sequence == old(sequence) + |options|
    {
      for i := 0 to |options|
        invariant sequence == old(sequence) + i
        invariant queue == old(queue) + Scored(scores, options, otherwise, old(sequence))[..i]
      {
        queue := queue + [Entry(Priority(scores, options[i].action, otherwise), sequence, options[i])];
        sequence := sequence + 1;
      }
    }

    method Begin()
      requires Now() == Visit([], 0, {}, []) && Drawn()
      modifies `queue, `sequence
      ensures Now() == Begun(tree, scores) && Drawn()
    {
      PushAll(tree.root, 0.0);
      assert [] + Scored(scores, tree.root, 0.0, 0) == Scored(scores, tree.root, 0.0, 0);
    }

    method Pop() returns (best: Entry)
      requires queue != []
      modifies `queue
      ensures best == old(queue)[BestIndex(old(queue))] && queue == Rest(old(queue))
    {
      var at := 0;
      for i := 1 to |queue|
        invariant 0 <= at < i <= |queue| && at == BestIndex(queue[..i])
      {
        assert queue[..i + 1][..i] == queue[..i];
        if Before(queue[i], queue[at]) {
          at := i;
        }
      }
      assert queue[..|queue|] == queue;
      best := queue[at];
      queue := queue[..at] + queue[at + 1..];
    }

    method Step()
      requires queue != [] && Drawn()
      modifies this
      ensures Drawn() && Now() == Next(tree, scores, old(Now()))
    {
      hide BestIndex, Rest, Scored, Curve;
      var best := Pop();
      if best.choice.child.None? || best.choice.child.value in visited {
        return;
      }
      var id := best.choice.child.value;
      var options := Options(tree, id);
      PushAll(options, if |options| == 1 then best.priority else 0.0);
      Enter(id);
    }
  }

  /** The curve of the one order in which the replay enters its states. */
  method Run(t: Tree, scores: map<string, real>) returns (curve: seq<Point>)
    ensures exists order :: Replays(t, scores, order) && curve == Curve(t, order)
  {
    hide AllMentioned, VisitOk, Next, Curve;
    var replay := new Replay(t, scores);
    replay.Begin();
    ghost var n := 0;
    ghost var all := AllMentioned(t);
    while replay.queue != []
      invariant replay.Drawn() && replay.tree == t && replay.scores == scores && replay.Now() == After(t, scores, n)
      decreases all - replay.visited, |replay.queue|
    {
      AfterIsOk(t, scores, n);
      NextAdvances(t, scores, replay.Now());
      replay.Step();
      n := n + 1;
    }
    curve := replay.curve;
    assert Replays(t, scores, replay.order);
  }

  // ---------- the recovery curve ----------

  lemma {:induction false} CurveGrows(t: Tree, order: seq<string>, i: nat, j: nat)
    requires i <= j <= |order|
    ensures Curve(t, order)[i].cost <= Curve(t, order)[j].cost && Curve(t, order)[i].found <= Curve(t, order)[j].found
    decreases |order|, j - i
  {
    if i < j {
      if j < |order| {
        CurveGrows(t, order[..|order| - 1], i, j);
      } else {
        CurveGrows(t, order[..|order| - 1], i, j - 1);
        hide Useful;
      }
    }
  }

  lemma {:induction false} CurveFinds(t: Tree, order: seq<string>, i: nat, id: string)
    requires i <= |order|
    ensures id in Curve(t, order)[i].found <==> id in order[..i] && Useful(t, id)
    decreases |order|
  {
    if order != [] {
      var init := order[..|order| - 1];
      if i < |order| {
        CurveFinds(t, init, i, id);
        assert init[..i] == order[..i];
      } else {
        CurveFinds(t, init, i - 1, id);
        assert init[..i - 1] == init && order[..i] == init + [order[|order| - 1]];
      }
    }
  }

  /** The point a checkpoint reports: the first of the greatest cost within the budget. */
  ghost predicate Reported(c: seq<Point>, budget: real, i: nat) {
    && i < |c| && c[i].cost <= budget
    && forall j :: 0 <= j < |c| && c[j].cost <= budget ==> c[j].cost <= c[i].cost && (j < i ==> c[j].cost < c[i].cost)
  }

  method Checkpoint(c: seq<Point>, budget: real) returns (i: nat)
    requires c != [] && c[0].cost <= budget
    ensures Reported(c, budget, i)
  {
    i := 0;
    for k := 1 to |c|
      invariant i < k && c[i].cost <= budget
      invariant forall j :: 0 <= j < k && c[j].cost <= budget ==>
          c[j].cost <= c[i].cost && (j < i ==> c[j].cost < c[i].cost)
    {
      if c[k].cost <= budget && c[k].cost > c[i].cost {
        i := k;
      }
    }
  }

  /** A larger budget never reports less. */
  lemma RecoveryIsMonotone(t: Tree, order: seq<string>, small: real, large: real, i: nat, j: nat)
    requires small <= large && Reported(Curve(t, order), small, i) && Reported(Curve(t, order), large, j)
    ensures i <= j && Curve(t, order)[i].found <= Curve(t, order)[j].found
  {
    if j < i {
      CurveGrows(t, order, j, i);
    } else {
      CurveGrows(t, order, i, j);
    }
  }

  // ---------- the whole budget ----------

  function Sum(t: Tree, ids: seq<string>): real {
    if ids == [] then 0.0 else Sum(t, ids[..|ids| - 1]) + VisitCost(t, ids[|ids| - 1])
  }

  /** The report of the full budget: the whole recorded cost, and a little slack for rounding. */
  ghost predicate FullReport(t: Tree, order: seq<string>, slack: real, i: nat) {
    Reported(Curve(t, order), Sum(t, t.ids) + slack, i)
  }

  /** Every state the tree offers is recorded once, and terminals belong to recorded states. */
  ghost predicate Recorded(t: Tree) {
    && Distinct(t.ids) && (forall id :: id in t.ids <==> id in t.states)
    && (forall id :: id in t.terminals ==> id in t.states)
    && forall id :: Explorable(t, id) ==> id in t.states
  }

  lemma {:induction false} CurveSums(t: Tree, order: seq<string>, i: nat)
    requires i <= |order|
    ensures Curve(t, order)[i].cost == Sum(t, order[..i])
    decreases |order|
  {
    if order != [] {
      var init := order[..|order| - 1];
      if i < |order| {
        CurveSums(t, init, i);
        assert init[..i] == order[..i];
      } else {
        CurveSums(t, init, i - 1);
        assert init[..i - 1] == init && order[..i] == order;
      }
    }
  }

  lemma CostIsNotNegative(t: Tree, id: string)
    ensures VisitCost(t, id) >= 0.0
  {
  }

  function Without(s: seq<string>, j: nat): seq<string>
    requires j < |s|
  {
    s[..j] + s[j + 1..]
  }

  lemma {:induction false} SumWithout(t: Tree, s: seq<string>, j: nat)
    requires j < |s|
    ensures Sum(t, s) == Sum(t, Without(s, j)) + VisitCost(t, s[j])
    decreases |s|
  {
    var r, init := Without(s, j), s[..|s| - 1];
    hide VisitCost;
    if j == |s| - 1 {
      assert r == init;
    } else {
      SumWithout(t, init, j);
      assert r[..|r| - 1] == Without(init, j);
    }
  }

  lemma {:induction false} SumWithin(t: Tree, order: seq<string>, ids: seq<string>)
    requires Distinct(order) && forall id :: id in order ==> id in ids
    ensures Sum(t, order) <= Sum(t, ids)
    decreases |order|
  {
    if order == [] {
      SumIsNotNegative(t, ids);
    } else {
      var init, last := order[..|order| - 1], order[|order| - 1];
      assert order == init + [last];
      assert last in order;
      var j :| 0 <= j < |ids| && ids[j] == last;
      var rest := Without(ids, j);
      forall id | id in init ensures id in rest {
        assert id in order;
        var k :| 0 <= k < |ids| && ids[k] == id;
        assert rest[if k < j then k else k - 1] == id;
      }
      SumWithin(t, init, rest);
      SumWithout(t, ids, j);
    }
  }

  lemma {:induction false} SumIsNotNegative(t: Tree, ids: seq<string>)
    ensures Sum(t, ids) >= 0.0
    decreases |ids|
  {
    if ids != [] {
      SumIsNotNegative(t, ids[..|ids| - 1]);
      CostIsNotNegative(t, ids[|ids| - 1]);
    }
  }

  /** The full budget reports the end of the curve, or an earlier point after which only states that
      cost nothing are entered. */
  lemma FullBudget(t: Tree, order: seq<string>, slack: real, i: nat)
    requires Recorded(t) && CompleteOrder(t, order) && slack >= 0.0
    requires FullReport(t, order, slack, i)
    ensures i <= |order| && forall k :: i <= k < |order| ==> VisitCost(t, order[k]) == 0.0
  {
    hide Recorded, CompleteOrder, VisitCost, Curve, Sum;
    WithinBudget(t, order, slack);
    forall k | i <= k < |order| ensures VisitCost(t, order[k]) == 0.0 {
      FreeAfter(t, order, Sum(t, t.ids) + slack, i, k);
    }
  }

  /** If nothing from `j` on costs anything, the report is no later than `j`. */
  lemma ReportedEarly(t: Tree, order: seq<string>, slack: real, i: nat, j: nat)
    requires Recorded(t) && CompleteOrder(t, order) && slack >= 0.0
    requires FullReport(t, order, slack, i) && j <= |order|
    requires forall k :: j <= k < |order| ==> VisitCost(t, order[k]) == 0.0
    ensures i <= j
  {
    hide Recorded, CompleteOrder, VisitCost, Curve, Sum;
    WithinBudget(t, order, slack);
    FlatAfter(t, order, j, |order|);
    CurveGrows(t, order, j, |order|);
    if j < i {
      CurveGrows(t, order, i, |order|);
    }
  }

  lemma {:induction false} FlatAfter(t: Tree, order: seq<string>, j: nat, m: nat)
    requires j <= m <= |order| && forall k :: j <= k < |order| ==> VisitCost(t, order[k]) == 0.0
    ensures Curve(t, order)[m].cost == Curve(t, order)[j].cost
    decreases m
  {
    hide VisitCost, Curve;
    if j < m {
      FlatAfter(t, order, j, m - 1);
      CurveSums(t, order, m - 1);
      CurveSums(t, order, m);
      assert order[..m][..m - 1] == order[..m - 1];
    }
  }

  lemma WithinBudget(t: Tree, order: seq<string>, slack: real)
    requires Recorded(t) && CompleteOrder(t, order) && slack >= 0.0
    ensures Curve(t, order)[|order|].cost <= Sum(t, t.ids) + slack
  {
    hide VisitCost, Explorable, Curve;
    SumWithin(t, order, t.ids);
    CurveSums(t, order, |order|);
    assert order[..|order|] == order;
  }

  lemma FreeAfter(t: Tree, order: seq<string>, budget: real, i: nat, k: nat)
    requires Reported(Curve(t, order), budget, i) && Curve(t, order)[|order|].cost <= budget && i <= k < |order|
    ensures VisitCost(t, order[k]) == 0.0
  {
    hide VisitCost, Curve;
    CurveGrows(t, order, i, k);
    CurveGrows(t, order, k + 1, |order|);
    CurveGrows(t, order, i, |order|);
    CurveSums(t, order, k);
    CurveSums(t, order, k + 1);
    assert order[..k + 1][..k] == order[..k];
    CostIsNotNegative(t, order[k]);
  }

  /** Every way to some state that costs something leads through `z`. */
  ghost predicate Guards(t: Tree, z: string) {
    exists y :: GuardsState(t, z, y)
  }

  ghost predicate GuardsState(t: Tree, z: string, y: string) {
    Explorable(t, y) && VisitCost(t, y) > 0.0 && forall w :: Route(t, w) && w[|w| - 1] == y ==> z in w
  }

  /** The report at point `i` has every useful terminal that can be reached. */
  ghost predicate RecoversAll(t: Tree, order: seq<string>, i: nat)
    requires i <= |order|
  {
    forall z :: Explorable(t, z) && Useful(t, z) ==> z in Curve(t, order)[i].found
  }

  /** Under every score map the report of the full budget has every useful terminal. */
  ghost predicate AlwaysRecovers(t: Tree, slack: real) {
    forall scores, order, i: nat {:trigger Replays(t, scores, order), FullReport(t, order, slack, i)} ::
      Replays(t, scores, order) && FullReport(t, order, slack, i) ==> RecoversAll(t, order, i)
  }

  /** Useful terminals that cost nothing stand before something that costs. */
  ghost predicate FreeOnesGuard(t: Tree) {
    forall z :: Explorable(t, z) && Useful(t, z) && VisitCost(t, z) == 0.0 ==> Guards(t, z)
  }

  /** A state that costs something, or guards one that does, is entered before the reported point. */
  lemma CostlyIsReported(t: Tree, order: seq<string>, slack: real, i: nat, z: string)
    requires Recorded(t) && CompleteOrder(t, order) && Discovered(t, order) && slack >= 0.0
    requires FullReport(t, order, slack, i)
    requires Explorable(t, z) && (VisitCost(t, z) > 0.0 || Guards(t, z))
    ensures i <= |order| && z in order[..i]
  {
    hide Recorded, VisitCost, FullReport;
    FullBudget(t, order, slack, i);
    if VisitCost(t, z) > 0.0 {
      assert z in order;
      var k :| 0 <= k < |order| && order[k] == z;
      assert order[..i][k] == z;
    } else {
      var y :| GuardsState(t, z, y);
      assert y in order;
      var k :| 0 <= k < |order| && order[k] == y;
      var w := DiscoveredRoute(t, order, k);
      assert z in order[..k + 1];
      var l :| 0 <= l < k + 1 && order[..k + 1][l] == z;
      assert order[..i][l] == z;
    }
  }

  lemma GuardedRecovers(t: Tree, order: seq<string>, slack: real, i: nat)
    requires Recorded(t) && CompleteOrder(t, order) && Discovered(t, order) && slack >= 0.0 && FreeOnesGuard(t)
    requires FullReport(t, order, slack, i)
    ensures i <= |order| && RecoversAll(t, order, i)
  {
    hide Recorded, CompleteOrder, Discovered, Guards, VisitCost, Curve, Useful, Explorable, Sum;
    FullBudget(t, order, slack, i);
    forall z | Explorable(t, z) && Useful(t, z) ensures z in Curve(t, order)[i].found {
      CostIsNotNegative(t, z);
      CostlyIsReported(t, order, slack, i, z);
      CurveFinds(t, order, i, z);
    }
  }

  // ---------- scores that put one state last ----------

  ghost predicate Chosen(t: Tree, c: Choice) {
    c in t.root || exists v <- t.frontiers :: c in t.frontiers[v]
  }

  /** Action identifiers are digests of the frontier and the child's hash, so they determine the child. */
  ghost predicate ActionsIdentify(t: Tree) {
    forall c, d :: Chosen(t, c) && Chosen(t, d) && c.action == d.action ==> c.child == d.child
  }

  function ActionsTo(options: seq<Choice>, z: string): set<string> {
    set k | 0 <= k < |options| && options[k].child == Some(z) :: options[k].action
  }

  function ActionsOf(options: seq<Choice>): set<string> {
    set k | 0 <= k < |options| :: options[k].action
  }

  function AllActions(t: Tree): set<string> {
    ActionsOf(t.root) + set v, a | v in t.frontiers && a in ActionsOf(t.frontiers[v]) :: a
  }

  function AllActionsTo(t: Tree, z: string): set<string> {
    ActionsTo(t.root, z) + set v, a | v in t.frontiers && a in ActionsTo(t.frontiers[v], z) :: a
  }

  /** Scores under which whatever leads to `z` waits for everything else. */
  function Shunning(t: Tree, z: string): map<string, real> {
    map a | a in AllActions(t) :: if a in AllActionsTo(t, z) then -1.0 else 0.0
  }

  lemma ChoiceTo(t: Tree, z: string, a: string) returns (c: Choice)
    requires a in AllActionsTo(t, z)
    ensures Chosen(t, c) && c.action == a && c.child == Some(z)
  {
    if a in ActionsTo(t.root, z) {
      var k :| 0 <= k < |t.root| && t.root[k].child == Some(z) && t.root[k].action == a;
      c := t.root[k];
    } else {
      var v :| v in t.frontiers && a in ActionsTo(t.frontiers[v], z);
      var k :| 0 <= k < |t.frontiers[v]| && t.frontiers[v][k].child == Some(z) && t.frontiers[v][k].action == a;
      c := t.frontiers[v][k];
    }
  }

  lemma ShunsExactly(t: Tree, z: string, c: Choice)
    requires ActionsIdentify(t) && Chosen(t, c)
    ensures c.action in Shunning(t, z) && Shunning(t, z)[c.action] == if c.child == Some(z) then -1.0 else 0.0
  {
    assert c.action in AllActions(t) by {
      if c !in t.root {
        var v :| v in t.frontiers && c in t.frontiers[v];
        assert c.action in ActionsOf(t.frontiers[v]);
      }
    }
    if c.child == Some(z) && c !in t.root {
      var v :| v in t.frontiers && c in t.frontiers[v];
      assert c.action in ActionsTo(t.frontiers[v], z);
    }
    if c.action in AllActionsTo(t, z) {
      var d := ChoiceTo(t, z, c.action);
    }
  }

  /** Under those scores exactly the entries for `z` have low priority. */
  ghost predicate Shunned(z: string, queue: seq<Entry>) {
    forall e <- queue :: e.priority == if e.choice.child == Some(z) then -1.0 else 0.0
  }

  lemma ScoredShunned(t: Tree, z: string, options: seq<Choice>, otherwise: real, sequence: nat)
    requires ActionsIdentify(t) && forall c <- options :: Chosen(t, c)
    ensures Shunned(z, Scored(Shunning(t, z), options, otherwise, sequence))
  {
    var entries := Scored(Shunning(t, z), options, otherwise, sequence);
    hide Shunning;
    forall k | 0 <= k < |options| ensures entries[k].priority == if options[k].child == Some(z) then -1.0 else 0.0 {
      ShunsExactly(t, z, options[k]);
    }
  }

  /** Once `z` has been entered, everything that costs has been entered before it. */
  ghost predicate EnteredLast(t: Tree, z: string, order: seq<string>) {
    forall j, y :: 0 <= j < |order| && order[j] == z && Explorable(t, y) && VisitCost(t, y) > 0.0 ==> y in order[..j]
  }

  ghost predicate ShunOk(t: Tree, z: string, v: Visit) {
    VisitOk(t, v) && Shunned(z, v.queue) && EnteredLast(t, z, v.order)
  }

  /** When the best entry leads to `z`, all others do. */
  lemma OnlyShunnedLeft(t: Tree, z: string, v: Visit, id: string)
    requires v.queue != [] && Shunned(z, v.queue) && v.queue[BestIndex(v.queue)].choice.child == Some(z)
    requires InQueue(v.queue, id)
    ensures id == z
  {
    var k :| 0 <= k < |v.queue| && v.queue[k].choice.child == Some(id);
    assert v.queue[k] in v.queue && v.queue[BestIndex(v.queue)] in v.queue;
    assert !Before(v.queue[k], v.queue[BestIndex(v.queue)]);
  }

  /** Then every route that avoids `z` has been followed to its end. */
  lemma AvoidingIsVisited(t: Tree, z: string, v: Visit, w: seq<string>)
    requires NothingLost(t, v.visited, v.queue) && (forall id :: InQueue(v.queue, id) ==> id == z)
    requires Route(t, w) && z !in w
    ensures w[|w| - 1] in v.visited
  {
    hide InQueue, Offers, Options;
    var i := 0;
    while i < |w| - 1
      invariant 0 <= i <= |w| - 1 && w[i] in v.visited
    {
      assert Offers(Options(t, w[i]), w[i + 1]);
      i := i + 1;
    }
  }

  lemma CostlyVisited(t: Tree, z: string, v: Visit, y: string)
    requires VisitOk(t, v) && v.queue != [] && Shunned(z, v.queue) && !Guards(t, z)
    requires v.queue[BestIndex(v.queue)].choice.child == Some(z)
    requires Explorable(t, y) && VisitCost(t, y) > 0.0
    ensures y in v.order
  {
    hide InQueue, VisitCost, Shunned, BestIndex;
    forall id | InQueue(v.queue, id) ensures id == z {
      OnlyShunnedLeft(t, z, v, id);
    }
    assert !GuardsState(t, z, y);
    var w :| Route(t, w) && w[|w| - 1] == y && z !in w;
    AvoidingIsVisited(t, z, v, w);
  }

  lemma RestShunned(z: string, queue: seq<Entry>)
    requires queue != [] && Shunned(z, queue)
    ensures Shunned(z, Rest(queue))
  {
    forall e | e in Rest(queue) ensures e in queue {}
  }

  lemma EnteringLast(t: Tree, z: string, v: Visit, id: string)
    requires ShunOk(t, z, v) && v.queue != [] && !Guards(t, z)
    requires v.queue[BestIndex(v.queue)].choice.child == Some(id)
    ensures EnteredLast(t, z, v.order + [id])
  {
    hide VisitOk, Shunned, BestIndex, Explorable, VisitCost, Guards;
    var order := v.order + [id];
    forall j, y | 0 <= j < |order| && order[j] == z && Explorable(t, y) && VisitCost(t, y) > 0.0
        ensures y in order[..j] {
      if j < |v.order| {
        assert order[..j] == v.order[..j];
      } else {
        CostlyVisited(t, z, v, y);
        assert order[..j] == v.order;
      }
    }
  }

  lemma NextShuns(t: Tree, z: string, v: Visit)
    requires ActionsIdentify(t) && !Guards(t, z) && v.queue != [] && ShunOk(t, z, v)
    ensures ShunOk(t, z, Next(t, Shunning(t, z), v))
  {
    hide ActionsIdentify, Guards, VisitOk, EnteredLast, BestIndex, Scored, Shunning, Rest;
    var scores, best := Shunning(t, z), v.queue[BestIndex(v.queue)];
    NextKeeps(t, scores, v);
    RestShunned(z, v.queue);
    if best.choice.child.Some? && best.choice.child.value !in v.visited {
      var id := best.choice.child.value;
      var options := Options(t, id);
      forall c | c in options ensures Chosen(t, c) {}
      ScoredShunned(t, z, options, if |options| == 1 then best.priority else 0.0, v.sequence);
      EnteringLast(t, z, v, id);
    }
  }

  lemma {:induction false} AfterShuns(t: Tree, z: string, n: nat)
    requires ActionsIdentify(t) && !Guards(t, z)
    ensures ShunOk(t, z, After(t, Shunning(t, z), n))
  {
    hide ActionsIdentify, Guards, VisitOk, Shunning, Scored, Next;
    if n == 0 {
      BegunIsOk(t, Shunning(t, z));
      ScoredShunned(t, z, t.root, 0.0, 0);
    } else {
      AfterShuns(t, z, n - 1);
      if After(t, Shunning(t, z), n - 1).queue != [] {
        NextShuns(t, z, After(t, Shunning(t, z), n - 1));
      }
    }
  }

  lemma FirstOfReport(order: seq<string>, i: nat, j: nat)
    requires Distinct(order) && i <= j < |order|
    ensures order[j] !in order[..i]
  {}

  /** A useful terminal that costs nothing and guards nothing is missed under the scores that shun it. */
  lemma UnguardedIsMissed(t: Tree, slack: real, z: string, order: seq<string>, i: nat)
    requires Recorded(t) && ActionsIdentify(t) && slack >= 0.0
    requires Explorable(t, z) && VisitCost(t, z) == 0.0 && !Guards(t, z)
    requires Replays(t, Shunning(t, z), order) && FullReport(t, order, slack, i)
    ensures i <= |order| && z !in Curve(t, order)[i].found
  {
    hide Recorded, ActionsIdentify, VisitCost, Guards, Curve, Sum, Explorable, Shunning, Discovered, FullReport;
    ReplayIsComplete(t, Shunning(t, z), order);
    var n: nat :| After(t, Shunning(t, z), n).queue == [] && After(t, Shunning(t, z), n).order == order;
    AfterShuns(t, z, n);
    assert z in order;
    var j :| 0 <= j < |order| && order[j] == z;
    forall k | j <= k < |order| ensures VisitCost(t, order[k]) == 0.0 {
      LaterIsFree(t, z, order, j, k);
    }
    ReportedEarly(t, order, slack, i, j);
    FirstOfReport(order, i, j);
    CurveFinds(t, order, i, z);
  }

  lemma LaterIsFree(t: Tree, z: string, order: seq<string>, j: nat, k: nat)
    requires CompleteOrder(t, order) && EnteredLast(t, z, order) && j <= k < |order| && order[j] == z
    ensures VisitCost(t, order[k]) == 0.0
  {
    hide VisitCost, Explorable;
    CostIsNotNegative(t, order[k]);
    assert order[k] in order;
    FirstOfReport(order, j, k);
  }

  lemma {:induction false} SomeReport(c: seq<Point>, budget: real) returns (i: nat)
    requires c != [] && c[0].cost <= budget
    ensures Reported(c, budget, i)
    decreases |c|
  {
    var n := |c| - 1;
    if n == 0 {
      i := 0;
    } else {
      i := SomeReport(c[..n], budget);
      assert forall j :: 0 <= j < n ==> c[..n][j] == c[j];
      if c[n].cost <= budget && c[n].cost > c[i].cost {
        i := n;
      }
    }
  }

  /** Ordering never deletes, under any scores, if every useful terminal that can be reached for nothing
      stands before something that costs; and where actions identify children only if. A caller can check
      this on the recorded tree. */
  lemma OrderingNeverDeletes(t: Tree, slack: real)
    requires Recorded(t) && slack >= 0.0
    ensures FreeOnesGuard(t) ==> AlwaysRecovers(t, slack)
    ensures ActionsIdentify(t) ==> (AlwaysRecovers(t, slack) <==> FreeOnesGuard(t))
  {
    hide Recorded, ActionsIdentify, Guards, VisitCost, Curve, Sum, Explorable, Useful, Shunning, Replays,
        CompleteOrder, Discovered;
    if FreeOnesGuard(t) {
      forall scores, order, i: nat | Replays(t, scores, order) && FullReport(t, order, slack, i)
        ensures i <= |order| && RecoversAll(t, order, i)
      {
        ReplayIsComplete(t, scores, order);
        GuardedRecovers(t, order, slack, i);
      }
    } else if ActionsIdentify(t) {
      var z :| Explorable(t, z) && Useful(t, z) && VisitCost(t, z) == 0.0 && !Guards(t, z);
      var order := ReplayExists(t, Shunning(t, z));
      CurveBegins(t, order);
      SumIsNotNegative(t, t.ids);
      var i := SomeReport(Curve(t, order), Sum(t, t.ids) + slack);
      UnguardedIsMissed(t, slack, z, order, i);
      assert FullReport(t, order, slack, i) && !RecoversAll(t, order, i);
    }
  }

  lemma {:induction false} CurveBegins(t: Tree, order: seq<string>)
    ensures Curve(t, order)[0] == Point(0.0, {})
    decreases |order|
  {
    if order != [] {
      CurveBegins(t, order[..|order| - 1]);
    }
  }

  /** The check at load time lets a useful terminal sit on a state that costs nothing, when the state
      was recorded as dominated. Entered last, it is missing from the report of the full budget. */
  function FreeTerminal(): Tree {
    Tree(["a", "b"], map["a" := State("expanded", 1.0), "b" := State("dominated", 1.0)], map["b" := Terminal(1, 0.0)],
         [Choice("left", Some("a")), Choice("right", Some("b"))], map[])
  }

  lemma FreeTerminalCosts()
    ensures VisitCost(FreeTerminal(), "a") == 1.0 && VisitCost(FreeTerminal(), "b") == 0.0
    ensures !Useful(FreeTerminal(), "a") && Useful(FreeTerminal(), "b")
  {
  }

  lemma FreeTerminalRoutes(id: string)
    ensures Explorable(FreeTerminal(), id) <==> id == "a" || id == "b"
  {
    var t := FreeTerminal();
    assert t.root[0].child == Some("a") && t.root[1].child == Some("b");
    assert ClosedUnder(t, {"a", "b"});
    ReachRoot(t, "a");
    ReachRoot(t, "b");
    hide Explorable, ClosedUnder;
    if Explorable(t, id) {
      ReachableStaysIn(t, {"a", "b"}, id);
    }
  }

  lemma FreeTerminalCurve()
    ensures Curve(FreeTerminal(), ["a", "b"]) == [Point(0.0, {}), Point(1.0, {}), Point(1.0, {"b"})]
    ensures Sum(FreeTerminal(), ["a", "b"]) == 1.0
  {
    FreeTerminalCosts();
    hide FreeTerminal, VisitCost, Useful;
    var t := FreeTerminal();
    CurveAppend(t, [], "a");
    CurveAppend(t, ["a"], "b");
    var none: set<string> := {};
    assert none + {"b"} == {"b"};
    assert [] + ["a"] == ["a"] && ["a"] + ["b"] == ["a", "b"];
    assert ["a", "b"][..1] == ["a"] && ["a"][..0] == [];
    assert Sum(t, ["a"]) == 1.0;
  }

  const LEFT: Entry := Entry(0.0, 0, Choice("left", Some("a")))
  const RIGHT: Entry := Entry(0.0, 1, Choice("right", Some("b")))

  lemma FreeTerminalBegins()
    ensures Begun(FreeTerminal(), map[]) == Visit([LEFT, RIGHT], 2, {}, [])
  {}

  lemma FreeTerminalSteps()
    ensures Next(FreeTerminal(), map[], Visit([LEFT, RIGHT], 2, {}, [])) == Visit([RIGHT], 2, {"a"}, ["a"])
    ensures Next(FreeTerminal(), map[], Visit([RIGHT], 2, {"a"}, ["a"])) == Visit([], 2, {"a", "b"}, ["a", "b"])
  {
    assert [LEFT, RIGHT][..1] == [LEFT];
    assert BestIndex([LEFT, RIGHT]) == 0 && Rest([LEFT, RIGHT]) == [RIGHT] && Rest([RIGHT]) == [];
    assert {} + {"a"} == {"a"} && {"a"} + {"b"} == {"a", "b"} && [] + ["a"] == ["a"] && ["a"] + ["b"] == ["a", "b"];
  }

  lemma FreeTerminalOrder()
    ensures Replays(FreeTerminal(), map[], ["a", "b"])
  {
    hide Next, Begun, FreeTerminal;
    FreeTerminalBegins();
    FreeTerminalSteps();
    assert After(FreeTerminal(), map[], 1) == Visit([RIGHT], 2, {"a"}, ["a"]);
    assert After(FreeTerminal(), map[], 2) == Visit([], 2, {"a", "b"}, ["a", "b"]);
  }

  /** Replayed without scores, the tree's useful terminal is missing from the full budget's report. */
  lemma FreeTerminalIsMissed(slack: real)
    requires 0.0 <= slack
    ensures Recorded(FreeTerminal()) && Replays(FreeTerminal(), map[], ["a", "b"])
    ensures Useful(FreeTerminal(), "b") && Explorable(FreeTerminal(), "b")
    ensures Reported(Curve(FreeTerminal(), ["a", "b"]), Sum(FreeTerminal(), FreeTerminal().ids) + slack, 1)
    ensures "b" !in Curve(FreeTerminal(), ["a", "b"])[1].found
  {
    hide Explorable, Curve, Sum, Useful, VisitCost, Replays, Recorded;
    FreeTerminalCosts();
    FreeTerminalCurve();
    FreeTerminalOrder();
    FreeTerminalRecorded();
    FreeTerminalRoutes("b");
  }

  lemma FreeTerminalRecorded()
    ensures Recorded(FreeTerminal())
  {
    forall id ensures Explorable(FreeTerminal(), id) <==> id == "a" || id == "b" {
      FreeTerminalRoutes(id);
    }
    hide Explorable;
  }

  // ---------- one action for two children ----------

  /** The same states, both offered by one action, the free one first. */
  function SharedAction(): Tree {
    FreeTerminal().(root := [Choice("go", Some("b")), Choice("go", Some("a"))])
  }

  lemma SharedSteps(p: real, v: Visit, w: Visit, scores: map<string, real>)
    requires p == Priority(scores, "go", 0.0)
    requires v == Visit([Entry(p, 0, Choice("go", Some("b"))), Entry(p, 1, Choice("go", Some("a")))], 2, {}, [])
    requires w == Visit([Entry(p, 1, Choice("go", Some("a")))], 2, {"b"}, ["b"])
    ensures Begun(SharedAction(), scores) == v && Next(SharedAction(), scores, v) == w
    ensures Next(SharedAction(), scores, w) == Visit([], 2, {"a", "b"}, ["b", "a"])
  {
    assert v.queue[..1] == [v.queue[0]];
    assert BestIndex(v.queue) == 0 && Rest(v.queue) == w.queue && Rest(w.queue) == [];
    assert {"b"} + {"a"} == {"a", "b"} && ["b"] + ["a"] == ["b", "a"];
  }

  lemma SharedOrder(scores: map<string, real>)
    ensures Replays(SharedAction(), scores, ["b", "a"])
  {
    hide Next, Begun, SharedAction;
    var p := Priority(scores, "go", 0.0);
    var v := Visit([Entry(p, 0, Choice("go", Some("b"))), Entry(p, 1, Choice("go", Some("a")))], 2, {}, []);
    var w := Visit([Entry(p, 1, Choice("go", Some("a")))], 2, {"b"}, ["b"]);
    SharedSteps(p, v, w, scores);
    assert After(SharedAction(), scores, 1) == w;
    assert After(SharedAction(), scores, 2) == Visit([], 2, {"a", "b"}, ["b", "a"]);
  }

  lemma SharedRoutes()
    ensures forall id :: Explorable(SharedAction(), id) <==> id == "a" || id == "b"
  {
    var t := SharedAction();
    assert t.root[1].child == Some("a") && t.root[0].child == Some("b");
    ReachRoot(t, "a");
    ReachRoot(t, "b");
    assert ClosedUnder(t, {"a", "b"});
    hide Explorable, ClosedUnder;
    forall id | Explorable(t, id) ensures id == "a" || id == "b" {
      ReachableStaysIn(t, {"a", "b"}, id);
    }
  }

  lemma SharedIsAmbiguous()
    ensures !ActionsIdentify(SharedAction())
  {
    var t := SharedAction();
    assert Chosen(t, t.root[0]) && Chosen(t, t.root[1]) && "a"[0] != "b"[0];
  }

  lemma SharedIsRecorded()
    ensures Recorded(SharedAction()) && !ActionsIdentify(SharedAction())
    ensures forall id :: Explorable(SharedAction(), id) <==> id == "a" || id == "b"
  {
    hide ActionsIdentify, Explorable;
    SharedRoutes();
    SharedIsAmbiguous();
    FreeTerminalRecorded();
    hide Recorded;
    assert Recorded(SharedAction()) by { RecordedAlike(SharedAction(), FreeTerminal()); }
  }

  /** Being recorded does not depend on how the states are offered. */
  lemma RecordedAlike(t: Tree, u: Tree)
    requires Recorded(u) && t.ids == u.ids && t.states == u.states && t.terminals == u.terminals
    requires forall id :: Explorable(t, id) ==> id in t.states
    ensures Recorded(t)
  {
    hide Explorable;
  }

  lemma SharedGuardsNothing()
    ensures !Guards(SharedAction(), "b")
  {
    var t := SharedAction();
    FreeTerminalCosts();
    SharedIsRecorded();
    assert t.root[1].child == Some("a") && "a"[0] != "b"[0];
    assert Route(t, ["a"]) && "b" !in ["a"];
    hide VisitCost, Explorable, Route, SharedAction, FreeTerminal;
    forall y ensures !GuardsState(t, "b", y) {
      assert VisitCost(t, y) > 0.0 && Explorable(t, y) ==> y == "a" by { SharedCosts(); }
      assert ["a"][|["a"]| - 1] == "a";
    }
  }

  lemma SharedCosts()
    ensures forall id :: VisitCost(SharedAction(), id) == VisitCost(FreeTerminal(), id)
    ensures forall id :: Useful(SharedAction(), id) ==> id == "b"
    ensures Useful(SharedAction(), "b")
    ensures VisitCost(SharedAction(), "b") == 0.0 && VisitCost(SharedAction(), "a") == 1.0
  {
    FreeTerminalCosts();
  }

  /** Where one action leads to two children no scores can tell them apart: here the free terminal is
      always entered first and recovered, though it guards nothing. */
  lemma SharedActionsRecover(slack: real)
    requires slack >= 0.0
    ensures Recorded(SharedAction()) && !ActionsIdentify(SharedAction())
    ensures AlwaysRecovers(SharedAction(), slack) && !FreeOnesGuard(SharedAction())
  {
    SharedIsRecorded();
    SharedGuardsNothing();
    SharedCosts();
    hide Recorded, ActionsIdentify, Guards, VisitCost, Useful, Explorable, Replays, SharedAction, Curve, FullReport;
    var t := SharedAction();
    forall scores, order, i: nat | Replays(t, scores, order) && FullReport(t, order, slack, i)
      ensures i <= |order| && RecoversAll(t, order, i)
    {
      SharedOrder(scores);
      OneOrder(t, scores, order, ["b", "a"]);
      ReplayIsComplete(t, scores, order);
      FullBudget(t, order, slack, i);
      assert order[1] == "a" && i == 2;
      CurveFinds(t, order, i, "b");
      assert order[..2][0] == "b";
    }
  }
}

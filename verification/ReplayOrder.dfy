/** The order in which the replay enters states, said of the order itself: always the best offer still
    open, by a priority that offers get from their scores and their place. */
module ReplayOrder {
  import opened Grammars
  import opened BestFirst

  // ---------- offers ----------

  /** The option number `index` of the root (`place` 0) or of the state entered as number `place`. */
  datatype Offer = Offer(place: nat, index: nat)

  function OptionsAt(t: Tree, order: seq<string>, place: nat): seq<Choice>
    requires place <= |order|
  {
    if place == 0 then t.root else Options(t, order[place - 1])
  }

  /** The offer has been made once `j` states have been entered. */
  predicate Made(t: Tree, order: seq<string>, j: nat, o: Offer) {
    o.place <= j <= |order| && o.index < |OptionsAt(t, order, o.place)|
  }

  function ChoiceAt(t: Tree, order: seq<string>, o: Offer): Choice
    requires Made(t, order, |order|, o)
  {
    OptionsAt(t, order, o.place)[o.index]
  }

  /** The offer has been made and leads to a state that has not been entered yet. */
  predicate Open(t: Tree, order: seq<string>, j: nat, o: Offer) {
    && Made(t, order, j, o)
    && ChoiceAt(t, order, o).child.Some? && ChoiceAt(t, order, o).child.value !in order[..j]
  }

  predicate Earlier(a: Offer, b: Offer) {
    a.place < b.place || (a.place == b.place && a.index < b.index)
  }

  /** `via` names the offer by which each state was entered. */
  ghost predicate Taken(t: Tree, order: seq<string>, via: seq<Offer>) {
    |via| == |order| && forall j :: 0 <= j < |order| ==>
      Open(t, order, j, via[j]) && ChoiceAt(t, order, via[j]).child == Some(order[j])
  }

  /** The priority of an offer: its own score if it has one; otherwise, as the only option of a state,
      the priority by which that state was entered; otherwise zero. */
  ghost function Effective(t: Tree, scores: map<string, real>, order: seq<string>, via: seq<Offer>, o: Offer): real
    requires Taken(t, order, via) && Made(t, order, |order|, o)
    decreases o.place
  {
    var action := ChoiceAt(t, order, o).action;
    if action in scores then scores[action]
    else if o.place > 0 && |OptionsAt(t, order, o.place)| == 1 then
      assert Open(t, order, o.place - 1, via[o.place - 1]);
      Effective(t, scores, order, via, via[o.place - 1])
    else 0.0
  }

  /** Whenever a state is entered, no open offer has a higher priority, and none of the same priority
      was made earlier. */
  ghost predicate AlwaysBest(t: Tree, scores: map<string, real>, order: seq<string>, via: seq<Offer>) {
    Taken(t, order, via) && forall j, o :: 0 <= j < |order| && Open(t, order, j, o) ==>
      Best(t, scores, order, via, o, via[j])
  }

  ghost predicate Best(t: Tree, scores: map<string, real>, order: seq<string>, via: seq<Offer>, o: Offer, best: Offer)
    requires Taken(t, order, via) && Made(t, order, |order|, o) && Made(t, order, |order|, best)
  {
    var (p, q) := (Effective(t, scores, order, via, o), Effective(t, scores, order, via, best));
    p < q || (p == q && !Earlier(o, best))
  }

  /** The states are entered best first, until no offer is open. */
  ghost predicate BestFirstOrder(t: Tree, scores: map<string, real>, order: seq<string>) {
    (exists via :: AlwaysBest(t, scores, order, via)) && forall o :: !Open(t, order, |order|, o)
  }

  // ---------- only what came before matters ----------

  /** The two orders, and how they came about, agree on the first `n` states. */
  predicate Agree(order: seq<string>, via: seq<Offer>, other: seq<string>, otherVia: seq<Offer>, n: nat) {
    && n <= |order| && n <= |other| && |via| == |order| && |otherVia| == |other|
    && order[..n] == other[..n] && via[..n] == otherVia[..n]
  }

  lemma SameOptions(t: Tree, order: seq<string>, other: seq<string>, n: nat, place: nat)
    requires place <= n <= |order| && n <= |other| && order[..n] == other[..n]
    ensures OptionsAt(t, order, place) == OptionsAt(t, other, place)
  {
    if place > 0 {
      assert order[..n][place - 1] == other[..n][place - 1];
    }
  }

  lemma SameOffer(t: Tree, order: seq<string>, other: seq<string>, n: nat, o: Offer)
    requires n <= |order| && n <= |other| && order[..n] == other[..n]
    ensures Made(t, order, n, o) <==> Made(t, other, n, o)
    ensures Made(t, order, n, o) ==> ChoiceAt(t, order, o) == ChoiceAt(t, other, o)
    ensures Open(t, order, n, o) <==> Open(t, other, n, o)
  {
    if o.place <= n {
      SameOptions(t, order, other, n, o.place);
    }
  }

  lemma FromOlder(t: Tree, order: seq<string>, via: seq<Offer>, place: nat)
    requires Taken(t, order, via) && 0 < place <= |order|
    ensures |via| == |order| && via[place - 1].place < place && Made(t, order, place - 1, via[place - 1])
  {
    assert Open(t, order, place - 1, via[place - 1]);
  }

  lemma SameLength(t: Tree, order: seq<string>, via: seq<Offer>)
    requires Taken(t, order, via)
    ensures |via| == |order|
  {}

  lemma MadeLater(t: Tree, order: seq<string>, j: nat, n: nat, o: Offer)
    requires Made(t, order, j, o) && j <= n <= |order|
    ensures Made(t, order, n, o)
  {}

  lemma Inherits(t: Tree, scores: map<string, real>, order: seq<string>, via: seq<Offer>, o: Offer)
    requires Taken(t, order, via) && Made(t, order, |order|, o)
    ensures |via| == |order| && (o.place > 0 ==> Made(t, order, |order|, via[o.place - 1]))
    ensures var action := ChoiceAt(t, order, o).action;
            Effective(t, scores, order, via, o) ==
              if action in scores then scores[action]
              else if o.place > 0 && |OptionsAt(t, order, o.place)| == 1 then
                Effective(t, scores, order, via, via[o.place - 1])
              else 0.0
  {
    hide Open, OptionsAt, ChoiceAt, Taken, Made;
    Placed(t, order, |order|, o);
    if o.place > 0 {
      FromOlder(t, order, via, o.place);
      MadeLater(t, order, o.place - 1, |order|, via[o.place - 1]);
    } else {
      assert |via| == |order| by { SameLength(t, order, via); }
    }
  }

  lemma {:induction false} SameEffective(t: Tree, scores: map<string, real>, order: seq<string>, via: seq<Offer>,
                                         other: seq<string>, otherVia: seq<Offer>, n: nat, o: Offer)
    requires Taken(t, order, via) && Taken(t, other, otherVia) && Agree(order, via, other, otherVia, n)
    requires Made(t, order, n, o)
    ensures Made(t, other, n, o)
    ensures Effective(t, scores, order, via, o) == Effective(t, scores, other, otherVia, o)
    decreases o.place
  {
    SameOffer(t, order, other, n, o);
    SameOptions(t, order, other, n, o.place);
    MadeLater(t, order, n, |order|, o);
    MadeLater(t, other, n, |other|, o);
    hide Effective, Taken, Open, OptionsAt, Made, ChoiceAt;
    Inherits(t, scores, order, via, o);
    Inherits(t, scores, other, otherVia, o);
    if o.place > 0 {
      Placed(t, order, n, o);
      FromOlder(t, order, via, o.place);
      assert via[..n][o.place - 1] == otherVia[..n][o.place - 1];
      MadeLater(t, order, o.place - 1, n, via[o.place - 1]);
      SameEffective(t, scores, order, via, other, otherVia, n, via[o.place - 1]);
    }
  }

  lemma Placed(t: Tree, order: seq<string>, j: nat, o: Offer)
    requires Made(t, order, j, o)
    ensures o.place <= j <= |order|
  {}

  // ---------- one order ----------

  lemma BestAt(t: Tree, scores: map<string, real>, order: seq<string>, via: seq<Offer>, n: nat, o: Offer)
    requires AlwaysBest(t, scores, order, via) && n < |order| && Open(t, order, n, o)
    ensures |via| == |order| && Taken(t, order, via) && Made(t, order, n, via[n]) && Made(t, order, |order|, via[n])
    ensures Made(t, order, n, o) && Made(t, order, |order|, o) && Best(t, scores, order, via, o, via[n])
    ensures ChoiceAt(t, order, via[n]).child == Some(order[n])
  {
    assert Open(t, order, n, via[n]);
    hide Effective, OptionsAt, ChoiceAt;
  }

  lemma BestOfBoth(t: Tree, scores: map<string, real>, order: seq<string>, via: seq<Offer>, other: seq<string>,
                   otherVia: seq<Offer>, a: Offer, b: Offer)
    requires Taken(t, order, via) && Taken(t, other, otherVia)
    requires Made(t, order, |order|, a) && Made(t, order, |order|, b)
    requires Made(t, other, |other|, a) && Made(t, other, |other|, b)
    requires Effective(t, scores, order, via, a) == Effective(t, scores, other, otherVia, a)
    requires Effective(t, scores, order, via, b) == Effective(t, scores, other, otherVia, b)
    requires Best(t, scores, order, via, b, a) && Best(t, scores, other, otherVia, a, b)
    ensures a == b
  {
    hide Effective, Taken, Made, Open;
  }

  lemma AgreeMore(order: seq<string>, via: seq<Offer>, other: seq<string>, otherVia: seq<Offer>, n: nat)
    requires Agree(order, via, other, otherVia, n) && n < |order| && n < |other|
    requires order[n] == other[n] && via[n] == otherVia[n]
    ensures Agree(order, via, other, otherVia, n + 1)
  {
    assert order[..n + 1] == order[..n] + [order[n]] && other[..n + 1] == other[..n] + [other[n]];
    assert via[..n + 1] == via[..n] + [via[n]] && otherVia[..n + 1] == otherVia[..n] + [otherVia[n]];
  }

  lemma NextAgrees(t: Tree, scores: map<string, real>, order: seq<string>, via: seq<Offer>, other: seq<string>,
                   otherVia: seq<Offer>, n: nat)
    requires AlwaysBest(t, scores, order, via) && AlwaysBest(t, scores, other, otherVia)
    requires Agree(order, via, other, otherVia, n) && n < |order| && n < |other|
    ensures Agree(order, via, other, otherVia, n + 1)
  {
    var (a, b) := (via[n], otherVia[n]);
    StillOpen(t, scores, order, via, n);
    StillOpen(t, scores, other, otherVia, n);
    assert order[..n] == other[..n];
    hide Agree, AlwaysBest, Taken, Effective, Open, OptionsAt, Made, ChoiceAt, Best;
    SameOffer(t, order, other, n, a);
    SameOffer(t, order, other, n, b);
    BestAt(t, scores, order, via, n, b);
    BestAt(t, scores, other, otherVia, n, a);
    SameEffective(t, scores, order, via, other, otherVia, n, a);
    SameEffective(t, scores, order, via, other, otherVia, n, b);
    BestOfBoth(t, scores, order, via, other, otherVia, a, b);
    AgreeMore(order, via, other, otherVia, n);
  }

  lemma {:induction false} AgreeUpto(t: Tree, scores: map<string, real>, order: seq<string>, via: seq<Offer>,
                                     other: seq<string>, otherVia: seq<Offer>, n: nat)
    requires AlwaysBest(t, scores, order, via) && AlwaysBest(t, scores, other, otherVia)
    requires n <= |order| && n <= |other|
    ensures Agree(order, via, other, otherVia, n)
    decreases n
  {
    hide AlwaysBest;
    Lengths(t, scores, order, via);
    Lengths(t, scores, other, otherVia);
    if n > 0 {
      AgreeUpto(t, scores, order, via, other, otherVia, n - 1);
      NextAgrees(t, scores, order, via, other, otherVia, n - 1);
    }
  }

  /** An order that leaves no offer open is not continued. */
  lemma NotLonger(t: Tree, scores: map<string, real>, order: seq<string>, via: seq<Offer>, other: seq<string>,
                  otherVia: seq<Offer>)
    requires AlwaysBest(t, scores, order, via) && AlwaysBest(t, scores, other, otherVia)
    requires forall o :: !Open(t, order, |order|, o)
    ensures |other| <= |order|
  {
    hide AlwaysBest, Open;
    if |order| < |other| {
      var n := |order|;
      AgreeUpto(t, scores, order, via, other, otherVia, n);
      StillOpen(t, scores, other, otherVia, n);
      SameOffer(t, order, other, n, otherVia[n]);
    }
  }

  /** There is only one such order. */
  lemma OneBestOrder(t: Tree, scores: map<string, real>, order: seq<string>, other: seq<string>)
    requires BestFirstOrder(t, scores, order) && BestFirstOrder(t, scores, other)
    ensures order == other
  {
    var via :| AlwaysBest(t, scores, order, via);
    var otherVia :| AlwaysBest(t, scores, other, otherVia);
    hide AlwaysBest, Open;
    NotLonger(t, scores, order, via, other, otherVia);
    NotLonger(t, scores, other, otherVia, order, via);
    AgreeUpto(t, scores, order, via, other, otherVia, |order|);
    assert order == order[..|order|] && other == other[..|order|];
  }

  lemma Lengths(t: Tree, scores: map<string, real>, order: seq<string>, via: seq<Offer>)
    requires AlwaysBest(t, scores, order, via)
    ensures |via| == |order|
  {}

  lemma StillOpen(t: Tree, scores: map<string, real>, order: seq<string>, via: seq<Offer>, n: nat)
    requires AlwaysBest(t, scores, order, via) && n < |order|
    ensures |via| == |order| && Open(t, order, n, via[n])
  {}

  // ---------- the queue holds the open offers ----------

  /** How many offers were made before those of `place`. */
  function MadeBefore(t: Tree, order: seq<string>, place: nat): nat
    requires place <= |order| + 1
  {
    if place == 0 then 0 else MadeBefore(t, order, place - 1) + |OptionsAt(t, order, place - 1)|
  }

  ghost function EntryFor(t: Tree, scores: map<string, real>, order: seq<string>, via: seq<Offer>, o: Offer): Entry
    requires Taken(t, order, via) && Made(t, order, |order|, o)
  {
    Entry(Effective(t, scores, order, via, o), MadeBefore(t, order, o.place) + o.index, ChoiceAt(t, order, o))
  }

  ghost predicate Stands(t: Tree, scores: map<string, real>, order: seq<string>, via: seq<Offer>, e: Entry)
    requires Taken(t, order, via)
  {
    exists o :: Made(t, order, |order|, o) && EntryFor(t, scores, order, via, o) == e
  }

  /** The queue holds an entry for every open offer, and none that stands for no offer. */
  ghost predicate Tracks(t: Tree, scores: map<string, real>, v: Visit, via: seq<Offer>) {
    && AlwaysBest(t, scores, v.order, via) && v.sequence == MadeBefore(t, v.order, |v.order| + 1)
    && (forall id :: id in v.visited <==> id in v.order)
    && (forall e <- v.queue :: Stands(t, scores, v.order, via, e))
    && (forall o :: Open(t, v.order, |v.order|, o) ==> EntryFor(t, scores, v.order, via, o) in v.queue)
  }

  lemma {:induction false} EarlierIsSmaller(t: Tree, order: seq<string>, a: Offer, b: Offer)
    requires Made(t, order, |order|, a) && Made(t, order, |order|, b) && Earlier(a, b)
    ensures MadeBefore(t, order, a.place) + a.index < MadeBefore(t, order, b.place) + b.index
    decreases b.place
  {
    if a.place < b.place {
      MadeBeforeGrows(t, order, a.place + 1, b.place);
    }
  }

  lemma {:induction false} MadeBeforeGrows(t: Tree, order: seq<string>, p: nat, q: nat)
    requires p <= q <= |order| + 1
    ensures MadeBefore(t, order, p) <= MadeBefore(t, order, q)
    decreases q - p
  {
    if p < q {
      MadeBeforeGrows(t, order, p, q - 1);
    }
  }

  lemma {:induction false} MadeBeforeSame(t: Tree, order: seq<string>, other: seq<string>, n: nat, place: nat)
    requires n <= |order| && n <= |other| && order[..n] == other[..n] && place <= n + 1
    ensures MadeBefore(t, order, place) == MadeBefore(t, other, place)
    decreases place
  {
    if place > 0 {
      SameOptions(t, order, other, n, place - 1);
      MadeBeforeSame(t, order, other, n, place - 1);
    }
  }

  // ---------- every step keeps that ----------

  /** The entries queued for the newest options stand for their offers. */
  lemma NewEntry(t: Tree, scores: map<string, real>, order: seq<string>, via: seq<Offer>, otherwise: real, i: nat)
    requires Taken(t, order, via) && i < |OptionsAt(t, order, |order|)|
    requires |order| > 0 ==> Made(t, order, |order|, via[|order| - 1])
    requires otherwise ==
      if |order| > 0 && |OptionsAt(t, order, |order|)| == 1
      then Effective(t, scores, order, via, via[|order| - 1]) else 0.0
    ensures Made(t, order, |order|, Offer(|order|, i))
    ensures Scored(scores, OptionsAt(t, order, |order|), otherwise, MadeBefore(t, order, |order|))[i]
         == EntryFor(t, scores, order, via, Offer(|order|, i))
  {
    hide Taken, Effective, OptionsAt, MadeBefore;
    Inherits(t, scores, order, via, Offer(|order|, i));
  }

  lemma BegunTracks(t: Tree, scores: map<string, real>)
    ensures Tracks(t, scores, Begun(t, scores), [])
  {
    var v := Begun(t, scores);
    assert Taken(t, [], []) && OptionsAt(t, [], 0) == t.root;
    assert MadeBefore(t, [], 1) == MadeBefore(t, [], 0) + |t.root|;
    hide Effective, MadeBefore;
    forall i | 0 <= i < |t.root|
      ensures Made(t, [], 0, Offer(0, i)) && v.queue[i] == EntryFor(t, scores, [], [], Offer(0, i))
    {
      assert MadeBefore(t, [], 0) == 0 by { NothingBefore(t, []); }
      NewEntry(t, scores, [], [], 0.0, i);
    }
    hide Scored, EntryFor, OptionsAt, Best;
    forall e | e in v.queue ensures Stands(t, scores, [], [], e) {
      var i :| 0 <= i < |v.queue| && v.queue[i] == e;
    }
    forall o | Open(t, [], 0, o) ensures EntryFor(t, scores, [], [], o) in v.queue {
      assert o == Offer(0, o.index) && o.index < |OptionsAt(t, [], 0)|;
    }
  }

  lemma NothingBefore(t: Tree, order: seq<string>)
    ensures MadeBefore(t, order, 0) == 0
  {}

  lemma TrackedIsTaken(t: Tree, scores: map<string, real>, v: Visit, via: seq<Offer>)
    requires Tracks(t, scores, v, via)
    ensures Taken(t, v.order, via)
  {}

  lemma RestHolds(queue: seq<Entry>, e: Entry)
    requires queue != []
    ensures e in Rest(queue) ==> e in queue
    ensures e in queue && e != queue[BestIndex(queue)] ==> e in Rest(queue)
  {
    var at := BestIndex(queue);
    hide BestIndex;
    if e in queue && e != queue[at] {
      var i :| 0 <= i < |queue| && queue[i] == e;
      assert Rest(queue)[if i < at then i else i - 1] == e;
    }
  }

  /** The best entry stands for an offer that no open offer beats. */
  lemma QueueHeadIsBest(t: Tree, scores: map<string, real>, v: Visit, via: seq<Offer>, o: Offer, x: Offer)
    requires Tracks(t, scores, v, via) && v.queue != [] && Made(t, v.order, |v.order|, o)
    requires EntryFor(t, scores, v.order, via, o) == v.queue[BestIndex(v.queue)]
    requires Open(t, v.order, |v.order|, x)
    ensures Best(t, scores, v.order, via, x, o)
  {
    var e := EntryFor(t, scores, v.order, via, x);
    assert e in v.queue;
    var k :| 0 <= k < |v.queue| && v.queue[k] == e;
    assert !Before(e, v.queue[BestIndex(v.queue)]);
    hide Effective, MadeBefore, AlwaysBest, Stands, BestIndex, OptionsAt, ChoiceAt, Taken;
    if Earlier(x, o) {
      EarlierIsSmaller(t, v.order, x, o);
    }
  }

  /** A queued entry that leads nowhere new stands for no open offer. */
  lemma PassTracks(t: Tree, scores: map<string, real>, v: Visit, via: seq<Offer>)
    requires Tracks(t, scores, v, via) && v.queue != []
    requires var child := v.queue[BestIndex(v.queue)].choice.child; child.None? || child.value in v.visited
    ensures Tracks(t, scores, v.(queue := Rest(v.queue)), via)
  {
    TrackedIsTaken(t, scores, v, via);
    hide Effective, MadeBefore, AlwaysBest, Stands, BestIndex, OptionsAt, Taken, Rest;
    forall e ensures e in Rest(v.queue) ==> e in v.queue {
      RestHolds(v.queue, e);
    }
    forall o | Open(t, v.order, |v.order|, o) ensures EntryFor(t, scores, v.order, via, o) in Rest(v.queue) {
      RestHolds(v.queue, EntryFor(t, scores, v.order, via, o));
      assert v.order[..|v.order|] == v.order;
    }
  }

  lemma ExtendedTaken(t: Tree, order: seq<string>, via: seq<Offer>, o: Offer, id: string)
    requires Taken(t, order, via) && Open(t, order, |order|, o) && ChoiceAt(t, order, o).child == Some(id)
    ensures Taken(t, order + [id], via + [o]) && Agree(order, via, order + [id], via + [o], |order|)
  {
    var more, moreVia := order + [id], via + [o];
    assert order[..|order|] == order && more[..|order|] == order && via[..|order|] == via && moreVia[..|order|] == via;
    hide OptionsAt, Open, Made;
    forall j | 0 <= j < |more|
      ensures Open(t, more, j, moreVia[j]) && Made(t, more, |more|, moreVia[j])
      ensures ChoiceAt(t, more, moreVia[j]).child == Some(more[j])
    {
      assert order[..j] == more[..j];
      SameOffer(t, order, more, j, moreVia[j]);
      OpenIsMade(t, order, j, moreVia[j]);
      OpenIsMade(t, more, j, moreVia[j]);
      MadeLater(t, more, j, |more|, moreVia[j]);
      MadeLater(t, order, j, |order|, moreVia[j]);
    }
  }

  lemma OpenIsMade(t: Tree, order: seq<string>, j: nat, o: Offer)
    requires Open(t, order, j, o)
    ensures Made(t, order, j, o) && j <= |order| && Made(t, order, |order|, o)
  {}

  lemma ExtendedBest(t: Tree, scores: map<string, real>, order: seq<string>, via: seq<Offer>, more: seq<string>,
                     moreVia: seq<Offer>, x: Offer, o: Offer)
    requires Taken(t, order, via) && Taken(t, more, moreVia) && Agree(order, via, more, moreVia, |order|)
    requires Made(t, order, |order|, x) && Made(t, order, |order|, o) && Best(t, scores, order, via, x, o)
    ensures Made(t, more, |more|, x) && Made(t, more, |more|, o) && Best(t, scores, more, moreVia, x, o)
  {
    hide Taken, Made, Open, Effective, OptionsAt;
    SameEffective(t, scores, order, via, more, moreVia, |order|, x);
    SameEffective(t, scores, order, via, more, moreVia, |order|, o);
    assert |order| <= |more|;
    MadeLater(t, more, |order|, |more|, x);
    MadeLater(t, more, |order|, |more|, o);
  }

  lemma ExtendedAlwaysBest(t: Tree, scores: map<string, real>, order: seq<string>, via: seq<Offer>, o: Offer,
                           id: string)
    requires AlwaysBest(t, scores, order, via) && Open(t, order, |order|, o) && ChoiceAt(t, order, o).child == Some(id)
    requires forall x :: Open(t, order, |order|, x) ==> Best(t, scores, order, via, x, o)
    ensures AlwaysBest(t, scores, order + [id], via + [o])
  {
    var more, moreVia := order + [id], via + [o];
    ExtendedTaken(t, order, via, o, id);
    assert Taken(t, order, via);
    OpenIsMade(t, order, |order|, o);
    hide Taken, Effective, OptionsAt, Made, Best, Open, ChoiceAt, Agree;
    forall j, x | 0 <= j < |more| && Open(t, more, j, x)
      ensures Made(t, more, |more|, x) && Made(t, more, |more|, moreVia[j])
      ensures Best(t, scores, more, moreVia, x, moreVia[j])
    {
      assert order[..j] == more[..j];
      SameOffer(t, order, more, j, x);
      OpenIsMade(t, order, j, x);
      if j < |order| {
        BestAt(t, scores, order, via, j, x);
        ExtendedBest(t, scores, order, via, more, moreVia, x, via[j]);
      } else {
        ExtendedBest(t, scores, order, via, more, moreVia, x, o);
      }
    }
  }

  lemma OldEntry(t: Tree, scores: map<string, real>, order: seq<string>, via: seq<Offer>, more: seq<string>,
                 moreVia: seq<Offer>, x: Offer)
    requires Taken(t, order, via) && Taken(t, more, moreVia) && Agree(order, via, more, moreVia, |order|)
    requires Made(t, order, |order|, x)
    ensures Made(t, more, |more|, x) && EntryFor(t, scores, more, moreVia, x) == EntryFor(t, scores, order, via, x)
  {
    Placed(t, order, |order|, x);
    hide Taken, Made, Open, Effective, OptionsAt, MadeBefore;
    SameEffective(t, scores, order, via, more, moreVia, |order|, x);
    SameOffer(t, order, more, |order|, x);
    MadeLater(t, more, |order|, |more|, x);
    MadeBeforeSame(t, order, more, |order|, x.place);
  }

  lemma StandsOn(t: Tree, scores: map<string, real>, order: seq<string>, via: seq<Offer>, more: seq<string>,
                 moreVia: seq<Offer>, e: Entry)
    requires Taken(t, order, via) && Taken(t, more, moreVia) && Agree(order, via, more, moreVia, |order|)
    requires Stands(t, scores, order, via, e)
    ensures Stands(t, scores, more, moreVia, e)
  {
    hide Taken, Made, EntryFor, Agree;
    var o :| Made(t, order, |order|, o) && EntryFor(t, scores, order, via, o) == e;
    OldEntry(t, scores, order, via, more, moreVia, o);
  }

  /** What is queued after entering `id` by the offer `o`. */
  ghost predicate Queued(t: Tree, scores: map<string, real>, v: Visit, via: seq<Offer>, o: Offer, id: string,
                         newest: seq<Entry>)
    requires Taken(t, v.order, via) && Made(t, v.order, |v.order|, o)
  {
    var options := Options(t, id);
    newest == Scored(scores, options, if |options| == 1 then Effective(t, scores, v.order, via, o) else 0.0, v.sequence)
  }

  lemma FreshEntry(t: Tree, scores: map<string, real>, v: Visit, via: seq<Offer>, o: Offer, id: string,
                   newest: seq<Entry>, i: nat)
    requires Tracks(t, scores, v, via) && Open(t, v.order, |v.order|, o) && ChoiceAt(t, v.order, o).child == Some(id)
    requires Taken(t, v.order, via) && Made(t, v.order, |v.order|, o) && Queued(t, scores, v, via, o, id, newest)
    requires i < |Options(t, id)|
    ensures var (more, moreVia) := (v.order + [id], via + [o]);
            && Taken(t, more, moreVia) && OptionsAt(t, more, |more|) == Options(t, id)
            && Made(t, more, |more|, Offer(|more|, i))
            && newest[i] == EntryFor(t, scores, more, moreVia, Offer(|more|, i))
  {
    var (more, moreVia) := (v.order + [id], via + [o]);
    ExtendedTaken(t, v.order, via, o, id);
    SequenceNow(t, scores, v, via, id);
    assert OptionsAt(t, more, |more|) == Options(t, id);
    assert Agree(v.order, via, more, moreVia, |v.order|) && moreVia[|more| - 1] == o by { SameLength(t, v.order, via); }
    hide Tracks, Taken, Made, Open, Effective, MadeBefore, EntryFor, Agree, OptionsAt, Options, Scored;
    SameEffective(t, scores, v.order, via, more, moreVia, |v.order|, o);
    MadeLater(t, more, |v.order|, |more|, o);
    NewEntry(t, scores, more, moreVia, if |Options(t, id)| == 1 then Effective(t, scores, v.order, via, o) else 0.0, i);
  }

  lemma SequenceNow(t: Tree, scores: map<string, real>, v: Visit, via: seq<Offer>, id: string)
    requires Tracks(t, scores, v, via)
    ensures v.sequence == MadeBefore(t, v.order + [id], |v.order| + 1)
    ensures v.sequence + |Options(t, id)| == MadeBefore(t, v.order + [id], |v.order| + 2)
  {
    hide AlwaysBest, Stands, EntryFor, Open, Options;
    var more := v.order + [id];
    assert more[..|v.order|] == v.order[..|v.order|];
    MadeBeforeSame(t, v.order, more, |v.order|, |v.order| + 1);
    assert OptionsAt(t, more, |more|) == Options(t, id);
  }

  lemma OpenThen(t: Tree, scores: map<string, real>, v: Visit, via: seq<Offer>, o: Offer, id: string,
                 newest: seq<Entry>, x: Offer)
    requires Tracks(t, scores, v, via) && Open(t, v.order, |v.order|, o) && ChoiceAt(t, v.order, o).child == Some(id)
    requires Taken(t, v.order, via) && Made(t, v.order, |v.order|, o) && Queued(t, scores, v, via, o, id, newest)
    requires v.queue != [] && EntryFor(t, scores, v.order, via, o) == v.queue[BestIndex(v.queue)]
    requires Open(t, v.order + [id], |v.order| + 1, x)
    ensures Taken(t, v.order + [id], via + [o]) && Made(t, v.order + [id], |v.order| + 1, x)
    ensures EntryFor(t, scores, v.order + [id], via + [o], x) in Rest(v.queue) + newest
  {
    var (more, moreVia) := (v.order + [id], via + [o]);
    ExtendedTaken(t, v.order, via, o, id);
    if x.place <= |v.order| {
      assert more[..|v.order|] == v.order == v.order[..|v.order|] && more[..|more|] == more;
      SameOffer(t, v.order, more, |v.order|, x);
      assert Open(t, v.order, |v.order|, x);
      hide Taken, Effective, MadeBefore, AlwaysBest, Stands, BestIndex, OptionsAt, Rest, Agree;
      OldEntry(t, scores, v.order, via, more, moreVia, x);
      RestHolds(v.queue, EntryFor(t, scores, v.order, via, x));
    } else {
      hide Taken, Effective, MadeBefore, AlwaysBest, Stands, BestIndex, Rest, Agree, EntryFor, Scored, Options;
      assert x == Offer(|more|, x.index) && OptionsAt(t, more, |more|) == Options(t, id);
      FreshEntry(t, scores, v, via, o, id, newest, x.index);
      FreshLength(t, scores, v, via, o, id, newest);
      assert newest[x.index] in newest;
    }
  }

  lemma FreshLength(t: Tree, scores: map<string, real>, v: Visit, via: seq<Offer>, o: Offer, id: string,
                    newest: seq<Entry>)
    requires Taken(t, v.order, via) && Made(t, v.order, |v.order|, o) && Queued(t, scores, v, via, o, id, newest)
    ensures |newest| == |Options(t, id)|
  {
    hide Taken, Made, Effective;
  }

  lemma EntryStands(t: Tree, scores: map<string, real>, v: Visit, via: seq<Offer>, o: Offer, id: string,
                    newest: seq<Entry>, e: Entry)
    requires Tracks(t, scores, v, via) && Open(t, v.order, |v.order|, o) && ChoiceAt(t, v.order, o).child == Some(id)
    requires Taken(t, v.order, via) && Made(t, v.order, |v.order|, o) && Queued(t, scores, v, via, o, id, newest)
    requires v.queue != [] && e in Rest(v.queue) + newest
    ensures Taken(t, v.order + [id], via + [o]) && Stands(t, scores, v.order + [id], via + [o], e)
  {
    var (more, moreVia) := (v.order + [id], via + [o]);
    ExtendedTaken(t, v.order, via, o, id);
    FreshLength(t, scores, v, via, o, id, newest);
    hide Taken, Made, Open, Effective, MadeBefore, AlwaysBest, EntryFor, Stands, BestIndex, OptionsAt, Options, Rest,
      Agree, ChoiceAt, Scored, Best, Queued;
    if e in Rest(v.queue) {
      RestHolds(v.queue, e);
      StandsOn(t, scores, v.order, via, more, moreVia, e);
    } else {
      var i :| 0 <= i < |newest| && newest[i] == e;
      FreshEntry(t, scores, v, via, o, id, newest, i);
      StandsFor(t, scores, more, moreVia, Offer(|more|, i));
    }
  }

  /** Entering the state of the best open offer. */
  lemma EnterTracks(t: Tree, scores: map<string, real>, v: Visit, via: seq<Offer>, o: Offer, id: string,
                    newest: seq<Entry>)
    requires Tracks(t, scores, v, via) && Open(t, v.order, |v.order|, o) && ChoiceAt(t, v.order, o).child == Some(id)
    requires Taken(t, v.order, via) && Made(t, v.order, |v.order|, o) && Queued(t, scores, v, via, o, id, newest)
    requires v.queue != [] && EntryFor(t, scores, v.order, via, o) == v.queue[BestIndex(v.queue)]
    ensures Tracks(t, scores, Visit(Rest(v.queue) + newest, v.sequence + |Options(t, id)|, v.visited + {id},
                                    v.order + [id]), via + [o])
  {
    var (more, moreVia, queue) := (v.order + [id], via + [o], Rest(v.queue) + newest);
    ExtendedTaken(t, v.order, via, o, id);
    SequenceNow(t, scores, v, via, id);
    FreshLength(t, scores, v, via, o, id, newest);
    assert AlwaysBest(t, scores, v.order, via);
    hide Taken, Made, Open, Effective, MadeBefore, AlwaysBest, EntryFor, Stands, BestIndex, OptionsAt, Options, Rest,
      Agree, ChoiceAt, Scored, Best, Queued;
    forall x | Open(t, v.order, |v.order|, x)
      ensures Made(t, v.order, |v.order|, x) && Best(t, scores, v.order, via, x, o)
    {
      OpenIsMade(t, v.order, |v.order|, x);
      QueueHeadIsBest(t, scores, v, via, o, x);
    }
    ExtendedAlwaysBest(t, scores, v.order, via, o, id);
    forall e | e in queue ensures Stands(t, scores, more, moreVia, e) {
      EntryStands(t, scores, v, via, o, id, newest, e);
    }
    forall x | Open(t, more, |more|, x)
      ensures Made(t, more, |more|, x) && EntryFor(t, scores, more, moreVia, x) in queue
    {
      OpenThen(t, scores, v, via, o, id, newest, x);
    }
  }

  lemma StandsFor(t: Tree, scores: map<string, real>, order: seq<string>, via: seq<Offer>, o: Offer)
    requires Taken(t, order, via) && Made(t, order, |order|, o)
    ensures Stands(t, scores, order, via, EntryFor(t, scores, order, via, o))
  {
    hide Taken, EntryFor, Made;
  }

  lemma NextEnters(t: Tree, scores: map<string, real>, v: Visit, id: string, best: Entry)
    requires v.queue != [] && best == v.queue[BestIndex(v.queue)] && best.choice.child == Some(id) && id !in v.visited
    ensures var options := Options(t, id);
            Next(t, scores, v) ==
              Visit(Rest(v.queue) + Scored(scores, options, if |options| == 1 then best.priority else 0.0, v.sequence),
                    v.sequence + |options|, v.visited + {id}, v.order + [id])
  {
    hide BestIndex, Rest, Scored;
  }

  lemma NextPasses(t: Tree, scores: map<string, real>, v: Visit)
    requires v.queue != []
    requires var child := v.queue[BestIndex(v.queue)].choice.child; child.None? || child.value in v.visited
    ensures Next(t, scores, v) == v.(queue := Rest(v.queue))
  {
    hide BestIndex, Rest, Scored;
  }

  lemma NextTracks(t: Tree, scores: map<string, real>, v: Visit, via: seq<Offer>) returns (after: seq<Offer>)
    requires Tracks(t, scores, v, via) && v.queue != []
    ensures Tracks(t, scores, Next(t, scores, v), after)
  {
    hide Tracks, Taken, Made, Effective, MadeBefore, BestIndex, OptionsAt, Options, Rest, Scored, Open, ChoiceAt, Next;
    var best := v.queue[BestIndex(v.queue)];
    if best.choice.child.None? || best.choice.child.value in v.visited {
      after := via;
      PassTracks(t, scores, v, via);
      NextPasses(t, scores, v);
    } else {
      TrackedIsTaken(t, scores, v, via);
      var o := HeadOffer(t, scores, v, via);
      after := via + [o];
      var id := best.choice.child.value;
      var options := Options(t, id);
      var newest := Scored(scores, options, if |options| == 1 then best.priority else 0.0, v.sequence);
      NextEnters(t, scores, v, id, best);
      EnterTracks(t, scores, v, via, o, id, newest);
    }
  }

  /** The open offer that the best entry stands for. */
  lemma HeadOffer(t: Tree, scores: map<string, real>, v: Visit, via: seq<Offer>) returns (o: Offer)
    requires Tracks(t, scores, v, via) && v.queue != [] && Taken(t, v.order, via)
    requires var child := v.queue[BestIndex(v.queue)].choice.child; child.Some? && child.value !in v.visited
    ensures Made(t, v.order, |v.order|, o) && Open(t, v.order, |v.order|, o)
    ensures EntryFor(t, scores, v.order, via, o) == v.queue[BestIndex(v.queue)]
    ensures ChoiceAt(t, v.order, o) == v.queue[BestIndex(v.queue)].choice
  {
    hide AlwaysBest, Taken, Effective, MadeBefore, BestIndex, OptionsAt;
    var best := v.queue[BestIndex(v.queue)];
    assert best in v.queue && Stands(t, scores, v.order, via, best);
    o :| Made(t, v.order, |v.order|, o) && EntryFor(t, scores, v.order, via, o) == best;
    assert v.order[..|v.order|] == v.order;
  }

  lemma {:induction false} AfterTracks(t: Tree, scores: map<string, real>, n: nat) returns (via: seq<Offer>)
    ensures Tracks(t, scores, After(t, scores, n), via)
  {
    hide Tracks, Next;
    if n == 0 {
      via := [];
      BegunTracks(t, scores);
    } else {
      via := AfterTracks(t, scores, n - 1);
      if After(t, scores, n - 1).queue != [] {
        via := NextTracks(t, scores, After(t, scores, n - 1), via);
      }
    }
  }

  lemma ReplayIsBestFirst(t: Tree, scores: map<string, real>, order: seq<string>)
    requires Replays(t, scores, order)
    ensures BestFirstOrder(t, scores, order)
  {
    hide AlwaysBest, Open, EntryFor, Next;
    var n: nat :| After(t, scores, n).queue == [] && After(t, scores, n).order == order;
    var via := AfterTracks(t, scores, n);
  }

  /** The replay enters states in an order if and only if it is best first: each state is entered by the
      offer with the highest priority still open, the earliest among equals, until none is open. */
  lemma ReplaysExactlyBestFirst(t: Tree, scores: map<string, real>, order: seq<string>)
    ensures Replays(t, scores, order) <==> BestFirstOrder(t, scores, order)
  {
    hide Replays, BestFirstOrder;
    var replayed := ReplayExists(t, scores);
    ReplayIsBestFirst(t, scores, replayed);
    if BestFirstOrder(t, scores, order) {
      OneBestOrder(t, scores, order, replayed);
    }
    if Replays(t, scores, order) {
      ReplayIsBestFirst(t, scores, order);
    }
  }
}

/** What the conservative screen is for: actions it passes touch different parts of the state, so they
    commute whatever they do there. */
module Commutation {
  import opened Actions

  // ---------- what a footprint declares ----------

  datatype Kind = Data | Contract | Representation | Lifetime | Authority

  /** A named part of the state. */
  datatype Resource = Resource(kind: Kind, name: string)

  function Written(f: Footprint, kind: Kind): set<string> {
    match kind
    case Data => f.writes
    case Contract => f.contractsWrite
    case Representation => f.representationsWritten
    case Lifetime => f.lifetimesModified
    case Authority => f.authorityModified
  }

  function Read(f: Footprint, kind: Kind): set<string> {
    match kind
    case Data => f.reads_
    case Contract => f.contractsRead
    case Representation => f.representationsRead
    case Lifetime => f.lifetimesRead
    case Authority => f.authorityRead
  }

  predicate Writes(f: Footprint, r: Resource) {
    r.name in Written(f, r.kind)
  }

  predicate Reads(f: Footprint, r: Resource) {
    r.name in Read(f, r.kind)
  }

  /** `a` may change what `b` looks at or changes. */
  predicate Disturbs(a: Footprint, b: Footprint, r: Resource) {
    Writes(a, r) && (Reads(b, r) || Writes(b, r))
  }

  ghost predicate Undisturbed(a: Footprint, b: Footprint) {
    forall r :: !Disturbs(a, b, r) && !Disturbs(b, a, r)
  }

  /** Nothing is held by both. */
  ghost predicate SharesNothing(a: Footprint, b: Footprint) {
    forall x: string ::
      && !(x in a.aliases && x in b.aliases) && !(x in a.authorities && x in b.authorities)
      && !(x in a.lifetimes && x in b.lifetimes) && !(x in a.owners && x in b.owners)
  }

  /** All effects are declared, and none is ordered or seen from outside. */
  ghost predicate Contained(f: Footprint) {
    f.complete && f.synchronization == {} && f.external == {}
  }

  /** Neither action can tell whether the other has been there. */
  ghost predicate Compatible(a: Action, b: Action) {
    && Contained(a.footprint) && Contained(b.footprint)
    && a.key !in b.footprint.conflicts && b.key !in a.footprint.conflicts
    && SharesNothing(a.footprint, b.footprint) && Undisturbed(a.footprint, b.footprint)
  }

  // ---------- the screen decides exactly that ----------

  lemma MeetsAt(a: set<string>, b: set<string>)
    ensures Meets(a, b) <==> exists x :: x in a && x in b
  {
    if Meets(a, b) {
      var x :| x in a * b;
      assert x in a && x in b;
    }
    if x :| x in a && x in b {
      assert x in a * b;
    }
  }

  predicate Clobbered(a: Footprint, b: Footprint, kind: Kind) {
    Clobbers(Written(a, kind), Read(b, kind), Written(b, kind))
  }

  lemma ClobberedAt(a: Footprint, b: Footprint, kind: Kind)
    ensures Clobbered(a, b, kind) <==> exists x :: Disturbs(a, b, Resource(kind, x))
  {
    hide Written, Read;
    MeetsAt(Written(a, kind), Read(b, kind) + Written(b, kind));
    if Clobbered(a, b, kind) {
      var x :| x in Written(a, kind) && x in Read(b, kind) + Written(b, kind);
      assert Disturbs(a, b, Resource(kind, x));
    }
    if x :| Disturbs(a, b, Resource(kind, x)) {
      assert x in Written(a, kind) && x in Read(b, kind) + Written(b, kind);
    }
  }

  lemma NoneClobbered(a: Footprint, b: Footprint)
    ensures Undisturbed(a, b) <==> forall kind :: !Clobbered(a, b, kind) && !Clobbered(b, a, kind)
  {
    hide Disturbs, Clobbered;
    forall kind
      ensures Clobbered(a, b, kind) <==> exists x :: Disturbs(a, b, Resource(kind, x))
      ensures Clobbered(b, a, kind) <==> exists x :: Disturbs(b, a, Resource(kind, x))
    {
      ClobberedAt(a, b, kind);
      ClobberedAt(b, a, kind);
    }
    if forall kind :: !Clobbered(a, b, kind) && !Clobbered(b, a, kind) {
      forall r ensures !Disturbs(a, b, r) && !Disturbs(b, a, r) {
        assert r == Resource(r.kind, r.name) && !Clobbered(a, b, r.kind) && !Clobbered(b, a, r.kind);
      }
    }
  }

  /** The screen passes two actions exactly when their effects are contained, neither conflicts with the
      other, nothing is held by both, and neither disturbs what the other reads or writes. */
  lemma ScreenDecides(a: Action, b: Action)
    ensures StaticScreen(a, b).Passed? <==> Compatible(a, b)
  {
    var l, r := a.footprint, b.footprint;
    NoneClobbered(l, r);
    MeetsAt(l.aliases, r.aliases);
    MeetsAt(l.authorities, r.authorities);
    MeetsAt(l.lifetimes, r.lifetimes);
    MeetsAt(l.owners, r.owners);
    AllKinds(l, r);
    hide Meets, Clobbers, Undisturbed;
  }

  lemma AllKinds(l: Footprint, r: Footprint)
    ensures (forall kind :: !Clobbered(l, r, kind) && !Clobbered(r, l, kind)) <==>
            && !Clobbers(l.writes, r.reads_, r.writes) && !Clobbers(r.writes, l.reads_, l.writes)
            && !Clobbers(l.contractsWrite, r.contractsRead, r.contractsWrite)
            && !Clobbers(r.contractsWrite, l.contractsRead, l.contractsWrite)
            && !Clobbers(l.representationsWritten, r.representationsRead, r.representationsWritten)
            && !Clobbers(r.representationsWritten, l.representationsRead, l.representationsWritten)
            && !Clobbers(l.lifetimesModified, r.lifetimesRead, r.lifetimesModified)
            && !Clobbers(r.lifetimesModified, l.lifetimesRead, l.lifetimesModified)
            && !Clobbers(l.authorityModified, r.authorityRead, r.authorityModified)
            && !Clobbers(r.authorityModified, l.authorityRead, l.authorityModified)
  {
    hide Clobbers;
    if forall kind :: !Clobbered(l, r, kind) && !Clobbered(r, l, kind) {
      assert !Clobbered(l, r, Data) && !Clobbered(l, r, Contract) && !Clobbered(l, r, Representation);
      assert !Clobbered(l, r, Lifetime) && !Clobbered(l, r, Authority);
    }
  }

  /** What is wrong when the screen gives this reason. */
  ghost predicate Holds(reason: string, a: Action, b: Action) {
    var l, r := a.footprint, b.footprint;
    || (reason == "unknown footprint is dependent" && !(l.complete && r.complete))
    || (reason == "declared action conflict" && (a.key in r.conflicts || b.key in l.conflicts))
    || (reason == "read/write dependency" && DisturbedIn(l, r, Data))
    || (reason == "shared alias region" && exists x :: x in l.aliases && x in r.aliases)
    || (reason == "left contract dependency" && exists x :: Disturbs(l, r, Resource(Contract, x)))
    || (reason == "right contract dependency" && exists x :: Disturbs(r, l, Resource(Contract, x)))
    || (reason == "representation dependency" && DisturbedIn(l, r, Representation))
    || (reason == "lifetime dependency" && DisturbedIn(l, r, Lifetime))
    || (reason == "authority dependency" && DisturbedIn(l, r, Authority))
    || (reason == "synchronization effects require explicit ordering"
        && (l.synchronization != {} || r.synchronization != {}))
    || (reason == "external observable effects require explicit ordering" && (l.external != {} || r.external != {}))
    || (reason == "shared authority or lifetime state"
        && exists x :: (x in l.authorities && x in r.authorities) || (x in l.lifetimes && x in r.lifetimes))
    || (reason == "shared physical placement" && (exists x :: x in l.memorySpaces && x in r.memorySpaces)
        && exists x :: x in l.owners && x in r.owners)
    || (reason == "shared semantic owner" && exists x :: x in l.owners && x in r.owners)
  }

  ghost predicate DisturbedIn(a: Footprint, b: Footprint, kind: Kind) {
    exists x :: Disturbs(a, b, Resource(kind, x)) || Disturbs(b, a, Resource(kind, x))
  }

  lemma DisturbedInAt(a: Footprint, b: Footprint, kind: Kind)
    ensures DisturbedIn(a, b, kind) <==> Clobbered(a, b, kind) || Clobbered(b, a, kind)
  {
    hide Disturbs, Clobbered;
    ClobberedAt(a, b, kind);
    ClobberedAt(b, a, kind);
  }

  /** The reason given for a rejection is true. */
  lemma ReasonHolds(a: Action, b: Action)
    requires StaticScreen(a, b).Rejected?
    ensures Holds(StaticScreen(a, b).reason, a, b)
  {
    var l, r := a.footprint, b.footprint;
    DisturbedInAt(l, r, Data);
    DisturbedInAt(l, r, Representation);
    DisturbedInAt(l, r, Lifetime);
    DisturbedInAt(l, r, Authority);
    ClobberedAt(l, r, Contract);
    ClobberedAt(r, l, Contract);
    MeetsAt(l.aliases, r.aliases);
    MeetsAt(l.authorities, r.authorities);
    MeetsAt(l.lifetimes, r.lifetimes);
    MeetsAt(l.memorySpaces, r.memorySpaces);
    MeetsAt(l.owners, r.owners);
    hide Meets, Clobbers, DisturbedIn, Disturbs;
  }

  // ---------- why that makes actions commute ----------

  type Store = Resource -> int

  ghost predicate AgreeOn(f: Footprint, s: Store, t: Store) {
    forall r :: Reads(f, r) || Writes(f, r) ==> s(r) == t(r)
  }

  /** `change` does no more than `f` declares: it changes only what is written, and what it puts there
      depends only on what is read or written. */
  ghost predicate Obeys(change: Store -> Store, f: Footprint) {
    && (forall s: Store, r :: !Writes(f, r) ==> change(s)(r) == s(r))
    && (forall s: Store, t: Store, r {:trigger change(s), change(t)(r)} ::
          AgreeOn(f, s, t) && Writes(f, r) ==> change(s)(r) == change(t)(r))
  }

  lemma OtherDoesNotMatter(a: Footprint, b: Footprint, g: Store -> Store, s: Store)
    requires Obeys(g, b) && forall r :: !Disturbs(b, a, r)
    ensures AgreeOn(a, s, g(s))
  {
    forall r | Reads(a, r) || Writes(a, r) ensures s(r) == g(s)(r) {
      assert !Disturbs(b, a, r);
    }
  }

  /** Changes that obey undisturbed footprints commute. */
  lemma UndisturbedCommute(a: Footprint, b: Footprint, f: Store -> Store, g: Store -> Store, s: Store, r: Resource)
    requires Undisturbed(a, b) && Obeys(f, a) && Obeys(g, b)
    ensures f(g(s))(r) == g(f(s))(r)
  {
    hide Reads, Writes, AgreeOn;
    OtherDoesNotMatter(a, b, g, s);
    OtherDoesNotMatter(b, a, f, s);
    if Writes(a, r) {
      assert !Disturbs(a, b, r);
      assert f(s)(r) == f(g(s))(r);
    } else if Writes(b, r) {
      assert g(s)(r) == g(f(s))(r);
    }
  }

  /** Actions that pass the screen commute, whatever they do within their footprints. */
  lemma ScreenedActionsCommute(a: Action, b: Action, f: Store -> Store, g: Store -> Store)
    requires StaticScreen(a, b).Passed? && Obeys(f, a.footprint) && Obeys(g, b.footprint)
    ensures forall s, r :: f(g(s))(r) == g(f(s))(r)
  {
    ScreenDecides(a, b);
    hide StaticScreen, Obeys, Undisturbed;
    forall s, r ensures f(g(s))(r) == g(f(s))(r) {
      UndisturbedCommute(a.footprint, b.footprint, f, g, s, r);
    }
  }

  // ---------- how much of that is needed ----------

  /** `a` may change what `b` writes, or what decides what `b` writes. */
  ghost predicate Interferes(a: Footprint, b: Footprint, r: Resource) {
    Writes(a, r) && (Writes(b, r) || (Reads(b, r) && exists q :: Writes(b, q)))
  }

  ghost predicate AlwaysCommute(a: Footprint, b: Footprint) {
    forall f, g, s, r {:trigger f(g(s))(r)} :: Obeys(f, a) && Obeys(g, b) ==> f(g(s))(r) == g(f(s))(r)
  }

  lemma PureReaderCommutes(a: Footprint, b: Footprint, f: Store -> Store, g: Store -> Store, s: Store, r: Resource)
    requires Obeys(f, a) && Obeys(g, b) && forall q :: !Writes(b, q)
    ensures f(g(s))(r) == g(f(s))(r)
  {
    forall q ensures g(s)(q) == s(q) && g(f(s))(q) == f(s)(q) {
      assert !Writes(b, q);
    }
    assert AgreeOn(a, s, g(s));
    if Writes(a, r) {
      assert f(s)(r) == f(g(s))(r);
    }
  }

  function Setting(f: Footprint, value: int): Store -> Store {
    (s: Store) => (q: Resource) => if Writes(f, q) then value else s(q)
  }

  function Copying(f: Footprint, from: Resource): Store -> Store {
    (s: Store) => (q: Resource) => if Writes(f, q) then s(from) else s(q)
  }

  lemma InterferenceShows(a: Footprint, b: Footprint, r: Resource)
    requires Interferes(a, b, r)
    ensures exists f, g, s, q :: Obeys(f, a) && Obeys(g, b) && f(g(s))(q) != g(f(s))(q)
  {
    var zero: Store := _ => 0;
    var f, g := Setting(a, 1), Setting(b, 2);
    if w :| Writes(a, w) && Writes(b, w) {
      assert f(g(zero))(w) == 1 && g(f(zero))(w) == 2;
    } else {
      var q :| Writes(b, q);
      var copy := Copying(b, r);
      assert f(copy(zero))(q) == 0 && copy(f(zero))(q) == 1;
    }
  }

  lemma WritersInterfere(a: Footprint, b: Footprint)
    requires (exists q :: Writes(a, q)) && exists q :: Writes(b, q)
    ensures Undisturbed(a, b) <==> forall r :: !Interferes(a, b, r) && !Interferes(b, a, r)
  {
    hide Writes, Reads;
    assert forall r :: Interferes(a, b, r) <==> Disturbs(a, b, r);
    assert forall r :: Interferes(b, a, r) <==> Disturbs(b, a, r);
  }

  /** Changes that obey two footprints always commute exactly when neither writes what the other writes,
      nor what the other reads, unless that writes nothing at all. The screen asks for no more than
      that, except of actions that only read. */
  lemma FootprintsDecide(a: Footprint, b: Footprint)
    ensures AlwaysCommute(a, b) <==> forall r :: !Interferes(a, b, r) && !Interferes(b, a, r)
    ensures (exists q :: Writes(a, q)) && (exists q :: Writes(b, q)) ==> (AlwaysCommute(a, b) <==> Undisturbed(a, b))
  {
    hide Obeys, Writes, Reads, Undisturbed, Interferes;
    if (exists q :: Writes(a, q)) && exists q :: Writes(b, q) {
      WritersInterfere(a, b);
    }
    if forall r :: !Interferes(a, b, r) && !Interferes(b, a, r) {
      forall f, g, s, r | Obeys(f, a) && Obeys(g, b) ensures f(g(s))(r) == g(f(s))(r) {
        if forall q :: !Writes(b, q) {
          PureReaderCommutes(a, b, f, g, s, r);
        } else if forall q :: !Writes(a, q) {
          PureReaderCommutes(b, a, g, f, s, r);
        } else {
          UndisturbedCommute(a, b, f, g, s, r);
        }
      }
    }
    if r :| Interferes(a, b, r) {
      InterferenceShows(a, b, r);
    }
    if r :| Interferes(b, a, r) {
      InterferenceShows(b, a, r);
      var f, g, s, q :| Obeys(f, b) && Obeys(g, a) && f(g(s))(q) != g(f(s))(q);
      assert g(f(s))(q) != f(g(s))(q);
    }
  }
}

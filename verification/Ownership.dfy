/** Terminal ownership: moving each terminal to the canonical owner of its semantic state, and what
    the integrity check says about the trace before and after. */
module Ownership {
  import opened Grammars

  datatype StateRow = StateRow(id: string, hash: string, canonicalOf: Option<string>, disposition: string)

  /** `evidence` is everything else a terminal carries. */
  datatype TerminalRow<+E> = TerminalRow(stateId: string, hash: string, evidence: E)

  datatype FrontierRow = FrontierRow(id: string, actions: seq<string>, composition: bool)

  datatype Label = Label(frontier: string, outcomes: seq<string>, oracle: seq<string>)

  datatype Payload<+E> = Payload(
    states: seq<StateRow>,
    frontiers: seq<FrontierRow>,
    terminals: seq<TerminalRow<E>>,
    labels: seq<Label>,
    transpositions: nat,
    summary: map<string, nat>,
    contract: string)

  datatype Trace<+E> = Trace(payload: Payload<E>, hash: nat)

  /** What surrounds the computation: the digest of a payload, the order in which labelling puts the
      actions of a frontier, which terminals count as retained and as material, what the checks of
      lineage and frontiers say, and the contract a trace should carry. The last two do not look at
      where a terminal is attached. */
  datatype Context<!E> = Context(
    digest: Payload<E> -> nat,
    ranked: (seq<TerminalRow<E>>, FrontierRow) -> seq<string>,
    retained: E -> bool,
    material: E -> bool,
    lineage: (seq<StateRow>, seq<FrontierRow>) -> set<string>,
    contract: (seq<StateRow>, seq<FrontierRow>, seq<E>) -> string)

  /** Labelling orders all actions of a frontier. */
  ghost predicate Ranks<E(!new)>(c: Context<E>) {
    forall ts, f :: multiset(c.ranked(ts, f)) == multiset(f.actions)
  }

  predicate Duplicate(s: StateRow) {
    s.disposition == "canonical_duplicate" || s.disposition == "verified_equivalent"
  }

  /** The owner the normalisation looks for: an empty reference counts as none. */
  predicate Executable(s: StateRow) {
    (s.canonicalOf.None? || s.canonicalOf == Some("")) && !Duplicate(s)
  }

  /** The owner the integrity check counts. */
  predicate Owns(s: StateRow) {
    s.canonicalOf.None? && !Duplicate(s)
  }

  // ---------- the normalisation ----------

  /** The first executable state of this hash from `k` on. */
  function FirstOwner(states: seq<StateRow>, hash: string, k: nat): Option<StateRow>
    requires k <= |states|
    decreases |states| - k
  {
    if k == |states| then None
    else if states[k].hash == hash && Executable(states[k]) then Some(states[k])
    else FirstOwner(states, hash, k + 1)
  }

  function FirstOfHash(states: seq<StateRow>, hash: string, k: nat): Option<StateRow>
    requires k <= |states|
    decreases |states| - k
  {
    if k == |states| then None
    else if states[k].hash == hash then Some(states[k])
    else FirstOfHash(states, hash, k + 1)
  }

  /** An owner if there is one, else any state of the hash. */
  function OwnerOf(states: seq<StateRow>, hash: string): Option<StateRow> {
    var owner := FirstOwner(states, hash, 0);
    if owner.Some? then owner else FirstOfHash(states, hash, 0)
  }

  function Moved<E>(states: seq<StateRow>, t: TerminalRow<E>): TerminalRow<E> {
    var owner := OwnerOf(states, t.hash);
    if owner.Some? then t.(stateId := owner.value.id) else t
  }

  function MovedAll<E>(states: seq<StateRow>, ts: seq<TerminalRow<E>>): seq<TerminalRow<E>> {
    seq(|ts|, i requires 0 <= i < |ts| => Moved(states, ts[i]))
  }

  function Evidence<E>(ts: seq<TerminalRow<E>>): seq<E> {
    seq(|ts|, i requires 0 <= i < |ts| => ts[i].evidence)
  }

  function Count<E>(p: E -> bool, evidence: seq<E>): nat {
    if evidence == [] then 0
    else Count(p, evidence[..|evidence| - 1]) + if p(evidence[|evidence| - 1]) then 1 else 0
  }

  function Compositions(fs: seq<FrontierRow>): nat {
    if fs == [] then 0 else Compositions(fs[..|fs| - 1]) + if fs[|fs| - 1].composition then 1 else 0
  }

  /** What the summary of a trace should say. */
  function Expected<E>(c: Context<E>, p: Payload<E>): map<string, nat> {
    map["state_count" := |p.states|, "frontier_count" := |p.frontiers|,
        "composition_frontier_count" := Compositions(p.frontiers), "terminal_count" := |p.terminals|,
        "transposition_count" := p.transpositions,
        "retained_terminal_count" := Count(c.retained, Evidence(p.terminals)),
        "material_terminal_count" := Count(c.material, Evidence(p.terminals))]
  }

  /** Fresh labels, one for each frontier. */
  function Labelled<E>(c: Context<E>, fs: seq<FrontierRow>, ts: seq<TerminalRow<E>>): seq<Label> {
    seq(|fs|, i requires 0 <= i < |fs| => Label(fs[i].id, fs[i].actions, c.ranked(ts, fs[i])))
  }

  /** Labels, summary and hash are made anew if some terminal moves; otherwise nothing is touched. */
  function Normalized<E(==)>(c: Context<E>, trace: Trace<E>): Trace<E> {
    var p := trace.payload;
    var ts := MovedAll(p.states, p.terminals);
    if ts == p.terminals then trace
    else
      var q := p.(terminals := ts, labels := Labelled(c, p.frontiers, ts),
          summary := p.summary + Expected(c, p.(terminals := ts)));
      Trace(q, c.digest(q))
  }

  lemma SameUpto<A>(s: seq<A>, t: seq<A>, a: A, b: A)
    requires |s| == |t|
    ensures s + [a] == t + [b] <==> s == t && a == b
  {
    assert s + [a] == t + [b] ==>
        s == (s + [a])[..|s|] && t == (t + [b])[..|t|] && a == (s + [a])[|s|] && b == (t + [b])[|t|];
  }

  lemma MovedPrefix<E>(states: seq<StateRow>, ts: seq<TerminalRow<E>>, i: nat)
    requires i < |ts|
    ensures MovedAll(states, ts)[..i + 1] == MovedAll(states, ts)[..i] + [Moved(states, ts[i])]
    ensures ts[..i + 1] == ts[..i] + [ts[i]]
  {
    hide Moved;
  }

  /** The places of the terminals that move. */
  function Changed<E(==)>(states: seq<StateRow>, ts: seq<TerminalRow<E>>): set<nat> {
    set i: nat | 0 <= i < |ts| && Moved(states, ts[i]) != ts[i]
  }

  lemma ChangedNone<E>(states: seq<StateRow>)
    ensures |Changed<E>(states, [])| == 0
  {
    assert Changed<E>(states, []) == {};
  }

  lemma ChangedLast<E>(states: seq<StateRow>, ts: seq<TerminalRow<E>>)
    requires ts != []
    ensures var n := |ts| - 1;
            |Changed(states, ts)| == |Changed(states, ts[..n])| + if Moved(states, ts[n]) != ts[n] then 1 else 0
  {
    hide Moved;
    var n: nat := |ts| - 1;
    var before := Changed(states, ts[..n]);
    assert n !in before;
    if Moved(states, ts[n]) != ts[n] {
      assert Changed(states, ts) == before + {n};
    } else {
      assert Changed(states, ts) == before;
    }
  }

  /** The places in a list of which `p` holds. */
  ghost function PlacesOf<A>(p: A -> bool, s: seq<A>): set<nat> {
    set i: nat | 0 <= i < |s| && p(s[i])
  }

  lemma {:induction false} CountsPlaces<A>(p: A -> bool, s: seq<A>)
    ensures Count(p, s) == |PlacesOf(p, s)|
  {
    if s == [] {
      assert PlacesOf(p, s) == {};
    } else {
      var n: nat := |s| - 1;
      CountsPlaces(p, s[..n]);
      var before := PlacesOf(p, s[..n]);
      assert n !in before;
      if p(s[n]) {
        assert PlacesOf(p, s) == before + {n};
      } else {
        assert PlacesOf(p, s) == before;
      }
    }
  }

  lemma {:induction false} CompositionsArePlaces(fs: seq<FrontierRow>)
    ensures Compositions(fs) == Count((f: FrontierRow) => f.composition, fs)
  {
    if fs != [] {
      CompositionsArePlaces(fs[..|fs| - 1]);
    }
  }

  lemma SummaryShows<E>(c: Context<E>, p: Payload<E>, summary: map<string, nat>)
    ensures var s := summary + Expected(c, p);
            && Has(s, "state_count", |p.states|) && Has(s, "frontier_count", |p.frontiers|)
            && Has(s, "terminal_count", |p.terminals|) && Has(s, "transposition_count", p.transpositions)
            && Has(s, "composition_frontier_count", |PlacesOf((f: FrontierRow) => f.composition, p.frontiers)|)
            && Has(s, "retained_terminal_count", |PlacesOf(c.retained, Evidence(p.terminals))|)
            && Has(s, "material_terminal_count", |PlacesOf(c.material, Evidence(p.terminals))|)
            && (forall k <- summary :: k in s && (k in SUMMARY_KEYS || s[k] == summary[k]))
            && (forall k <- s :: k in summary || k in SUMMARY_KEYS)
  {
    CompositionsArePlaces(p.frontiers);
    CountsPlaces((f: FrontierRow) => f.composition, p.frontiers);
    CountsPlaces(c.retained, Evidence(p.terminals));
    CountsPlaces(c.material, Evidence(p.terminals));
    hide Compositions, Count, PlacesOf, Evidence;
  }

  /** What a trace says once a terminal has moved: every terminal has its evidence, every frontier has one
      label with its actions, and the hash is that of the payload. The summary counts what is there and keeps
      its other entries (`SummaryShows`). */
  lemma NormalizedShows<E>(c: Context<E>, trace: Trace<E>)
    requires Changed(trace.payload.states, trace.payload.terminals) != {}
    ensures var (p, r) := (trace.payload, Normalized(c, trace));
            var q := r.payload;
            && r.hash == c.digest(q) && q.states == p.states && q.frontiers == p.frontiers
            && q.transpositions == p.transpositions && q.contract == p.contract
            && |q.terminals| == |p.terminals| && Evidence(q.terminals) == Evidence(p.terminals)
            && q.summary == p.summary + Expected(c, q) && |q.labels| == |p.frontiers|
            && forall i :: 0 <= i < |q.labels| ==>
                 q.labels[i] == Label(p.frontiers[i].id, p.frontiers[i].actions, c.ranked(q.terminals, p.frontiers[i]))
  {
    var p := trace.payload;
    var i :| i in Changed(p.states, p.terminals);
    assert MovedAll(p.states, p.terminals)[i] != p.terminals[i];
    ExpectedIgnores(c, p.(terminals := MovedAll(p.states, p.terminals)), Normalized(c, trace).payload);
    EvidenceKept(p.states, p.terminals);
    hide Expected, OwnerOf;
  }

  const SUMMARY_KEYS: set<string> := {"state_count", "frontier_count", "composition_frontier_count",
      "terminal_count", "transposition_count", "retained_terminal_count", "material_terminal_count"}

  predicate Has(summary: map<string, nat>, key: string, n: nat) {
    key in summary && summary[key] == n
  }

  method Normalize<E(==)>(c: Context<E>, trace: Trace<E>) returns (result: Trace<E>, changes: nat)
    ensures result == Normalized(c, trace)
    ensures changes == 0 <==> MovedAll(trace.payload.states, trace.payload.terminals) == trace.payload.terminals
    ensures changes == |Changed(trace.payload.states, trace.payload.terminals)|
  {
    var p := trace.payload;
    var terminals: seq<TerminalRow<E>> := [];
    changes := 0;
    hide Expected, Labelled, Changed;
    ChangedNone<E>(p.states);
    for i := 0 to |p.terminals|
      invariant |terminals| == i && terminals == MovedAll(p.states, p.terminals)[..i]
      invariant changes == 0 <==> terminals == p.terminals[..i]
      invariant changes == |Changed(p.states, p.terminals[..i])|
    {
      MovedPrefix(p.states, p.terminals, i);
      ChangedLast(p.states, p.terminals[..i + 1]);
      var terminal := p.terminals[i];
      var owner := OwnerOf(p.states, terminal.hash);
      if owner.Some? && terminal.stateId != owner.value.id {
        terminal := terminal.(stateId := owner.value.id);
        changes := changes + 1;
      }
      assert terminal == Moved(p.states, p.terminals[i]);
      SameUpto(terminals, p.terminals[..i], terminal, p.terminals[i]);
      terminals := terminals + [terminal];
    }
    assert MovedAll(p.states, p.terminals)[..|p.terminals|] == MovedAll(p.states, p.terminals);
    assert p.terminals[..|p.terminals|] == p.terminals;
    if changes == 0 {
      return trace, 0;
    }
    var q := p.(terminals := terminals, labels := Labelled(c, p.frontiers, terminals),
                summary := p.summary + Expected(c, p.(terminals := terminals)));
    result := Trace(q, c.digest(q));
  }

  /** Normalising again changes nothing, and only the place of a terminal ever changes. */
  lemma MovedTwice<E>(states: seq<StateRow>, t: TerminalRow<E>)
    ensures Moved(states, Moved(states, t)) == Moved(states, t)
    ensures Moved(states, t).evidence == t.evidence && Moved(states, t).hash == t.hash
  {
    hide OwnerOf;
  }

  /** Normalising a trace twice is normalising it once. */
  lemma NormalizedTwice<E>(c: Context<E>, trace: Trace<E>)
    ensures Normalized(c, Normalized(c, trace)) == Normalized(c, trace)
  {
    var p := trace.payload;
    var ts := MovedAll(p.states, p.terminals);
    forall i | 0 <= i < |ts| ensures Moved(p.states, ts[i]) == ts[i] {
      MovedTwice(p.states, p.terminals[i]);
    }
    hide Moved, Expected, Labelled;
    assert MovedAll(p.states, ts) == ts;
  }

  // ---------- the integrity check: one terminal ----------

  datatype Defect = UnknownState | NotCanonical | MismatchedIdentity

  /** The last row with this id, as the check's dictionary keeps it. */
  function ById(states: seq<StateRow>, id: string): Option<StateRow> {
    if states == [] then None
    else if states[|states| - 1].id == id then Some(states[|states| - 1])
    else ById(states[..|states| - 1], id)
  }

  function DefectOf<E>(states: seq<StateRow>, t: TerminalRow<E>): Option<Defect> {
    var s := ById(states, t.stateId);
    if s.None? then Some(UnknownState)
    else if s.value.canonicalOf.Some? then Some(NotCanonical)
    else if s.value.hash != t.hash then Some(MismatchedIdentity)
    else None
  }

  predicate DistinctIds(states: seq<StateRow>) {
    forall i, j :: 0 <= i < j < |states| ==> states[i].id != states[j].id
  }

  /** Each hash has exactly one owner. */
  ghost predicate OneOwner(states: seq<StateRow>) {
    && (forall i :: 0 <= i < |states| ==>
        exists j :: 0 <= j < |states| && states[j].hash == states[i].hash && Owns(states[j]))
    && (forall i, j :: 0 <= i < j < |states| && Owns(states[i]) && Owns(states[j]) ==> states[i].hash != states[j].hash)
  }

  lemma {:induction false} FirstOwnerFinds(states: seq<StateRow>, hash: string, k: nat)
    requires k <= |states|
    ensures match FirstOwner(states, hash, k) {
              case Some(s) => exists i :: k <= i < |states| && states[i] == s && s.hash == hash && Executable(s)
              case None => forall i :: k <= i < |states| && states[i].hash == hash ==> !Executable(states[i])
            }
    decreases |states| - k
  {
    if k < |states| {
      FirstOwnerFinds(states, hash, k + 1);
    }
  }

  lemma {:induction false} FirstOfHashFinds(states: seq<StateRow>, hash: string, k: nat)
    requires k <= |states|
    ensures FirstOfHash(states, hash, k).None? ==> forall i :: k <= i < |states| ==> states[i].hash != hash
    ensures FirstOfHash(states, hash, k).Some? ==>
        exists i :: k <= i < |states| && states[i] == FirstOfHash(states, hash, k).value && states[i].hash == hash
    decreases |states| - k
  {
    if k < |states| {
      FirstOfHashFinds(states, hash, k + 1);
    }
  }

  lemma {:induction false} ByIdFinds(states: seq<StateRow>, i: nat)
    requires DistinctIds(states) && i < |states|
    ensures ById(states, states[i].id) == Some(states[i])
    decreases |states|
  {
    if i < |states| - 1 {
      ByIdFinds(states[..|states| - 1], i);
    }
  }

  lemma OwnerIsListed(states: seq<StateRow>, hash: string) returns (k: nat)
    requires OwnerOf(states, hash).Some?
    ensures k < |states| && states[k] == OwnerOf(states, hash).value && states[k].hash == hash
  {
    FirstOwnerFinds(states, hash, 0);
    FirstOfHashFinds(states, hash, 0);
    hide FirstOwner, FirstOfHash;
    if FirstOwner(states, hash, 0).Some? {
      k :| 0 <= k < |states| && states[k] == FirstOwner(states, hash, 0).value && states[k].hash == hash;
    } else {
      k :| 0 <= k < |states| && states[k] == FirstOfHash(states, hash, 0).value && states[k].hash == hash;
    }
  }

  /** Where normalising attaches the terminal, the check sees a reference to another state. The choice
      skips references by truth value, the check by presence, so an empty reference is chosen. */
  predicate MovesToReference<E>(states: seq<StateRow>, t: TerminalRow<E>) {
    var owner := OwnerOf(states, t.hash);
    owner.Some? && owner.value.canonicalOf.Some?
  }

  /** What the check says about a terminal that has been moved. */
  lemma DefectAfterMove<E>(states: seq<StateRow>, t: TerminalRow<E>)
    requires DistinctIds(states)
    ensures DefectOf(states, Moved(states, t)) ==
              if MovesToReference(states, t) then Some(NotCanonical)
              else if OwnerOf(states, t.hash).Some? then None
              else DefectOf(states, t)
  {
    hide OwnerOf, ById;
    if OwnerOf(states, t.hash).Some? {
      var k := OwnerIsListed(states, t.hash);
      ByIdFinds(states, k);
    }
  }

  /** Normalising breaks an accepted terminal exactly when it attaches it to a reference. */
  lemma NewDefectExactly<E>(states: seq<StateRow>, t: TerminalRow<E>)
    requires DistinctIds(states) && DefectOf(states, t).None?
    ensures DefectOf(states, Moved(states, t)).Some? <==> MovesToReference(states, t)
  {
    DefectAfterMove(states, t);
  }

  /** With one owner per hash the owner of a terminal's hash is found, unless an executable state with
      an empty reference comes before it. */
  lemma OwnerOfKnownHash(states: seq<StateRow>, hash: string, i: nat)
    requires OneOwner(states) && i < |states| && states[i].hash == hash && Owns(states[i])
    ensures OwnerOf(states, hash).Some?
    ensures OwnerOf(states, hash).value == states[i] || OwnerOf(states, hash).value.canonicalOf == Some("")
  {
    FirstOwnerFinds(states, hash, 0);
    hide FirstOwner, FirstOfHash;
    assert Executable(states[i]);
    var s := FirstOwner(states, hash, 0).value;
    var j :| 0 <= j < |states| && states[j] == s && Executable(s);
    if s.canonicalOf.None? {
      assert Owns(states[j]) && j == i;
    }
  }

  /** With one owner per hash, a terminal of a known hash ends up on that owner, and the check finds
      nothing wrong with it, exactly when it is not attached to an empty reference. */
  lemma MovedToOwner<E>(states: seq<StateRow>, t: TerminalRow<E>, i: nat)
    requires DistinctIds(states) && OneOwner(states)
    requires i < |states| && states[i].hash == t.hash && Owns(states[i])
    ensures (Moved(states, t).stateId == states[i].id && DefectOf(states, Moved(states, t)).None?) <==>
        !MovesToReference(states, t)
    ensures MovesToReference(states, t) ==> OwnerOf(states, t.hash).value.canonicalOf == Some("")
  {
    OwnerOfKnownHash(states, t.hash, i);
    DefectAfterMove(states, t);
    hide OwnerOf, DefectOf;
  }

  /** Without an owner the first state of the hash is taken, even a reference to another, and a
      terminal the check accepted is rejected. */
  lemma WithoutOwnerADefectAppears()
    ensures var states := [StateRow("x", "h", Some("y"), "expanded"), StateRow("y", "h", None, "verified_equivalent")];
            var t := TerminalRow("y", "h", 0);
            DefectOf(states, t).None? && DefectOf(states, Moved(states, t)) == Some(NotCanonical)
  {
    var states := [StateRow("x", "h", Some("y"), "expanded"), StateRow("y", "h", None, "verified_equivalent")];
    ByIdFinds(states, 0);
    ByIdFinds(states, 1);
    assert states[0].id == "x" && states[1].id == "y";
    FirstOwnerFinds(states, "h", 0);
    assert OwnerOf(states, "h") == Some(states[0]);
  }

  const EMPTY_FIRST: seq<StateRow> := [StateRow("x", "h", Some(""), "expanded"), StateRow("y", "h", None, "expanded")]

  lemma EmptyFirstHasOneOwner()
    ensures OneOwner(EMPTY_FIRST) && DistinctIds(EMPTY_FIRST)
  {
    EmptyFirstRows();
    PairHasOneOwner(EMPTY_FIRST);
  }

  lemma EmptyFirstRows()
    ensures var states := EMPTY_FIRST;
            |states| == 2 && states[0].id != states[1].id && states[0].hash == states[1].hash && !Owns(states[0])
              && Owns(states[1])
  {
    assert "x"[0] != "y"[0];
    assert |"expanded"| != |"canonical_duplicate"| && |"expanded"| != |"verified_equivalent"|;
  }

  lemma PairHasOneOwner(states: seq<StateRow>)
    requires |states| == 2 && states[0].id != states[1].id && states[0].hash == states[1].hash && !Owns(states[0])
        && Owns(states[1])
    ensures OneOwner(states) && DistinctIds(states)
  {
    hide Owns;
  }

  lemma EmptyFirstIsTaken()
    ensures OwnerOf(EMPTY_FIRST, "h") == Some(EMPTY_FIRST[0])
  {
    assert |"expanded"| != |"canonical_duplicate"| && |"expanded"| != |"verified_equivalent"|;
    assert Executable(EMPTY_FIRST[0]);
  }

  /** Even with exactly one owner for the hash, an empty reference that comes first takes the terminal. */
  lemma EmptyReferenceADefectAppears()
    ensures var t := TerminalRow("y", "h", 0);
            && OneOwner(EMPTY_FIRST) && DistinctIds(EMPTY_FIRST)
            && DefectOf(EMPTY_FIRST, t).None? && DefectOf(EMPTY_FIRST, Moved(EMPTY_FIRST, t)) == Some(NotCanonical)
  {
    hide OwnerOf, ById, OneOwner, DistinctIds, Moved;
    EmptyFirstHasOneOwner();
    EmptyFirstIsTaken();
    ByIdFinds(EMPTY_FIRST, 1);
    DefectAfterMove(EMPTY_FIRST, TerminalRow("y", "h", 0));
  }

  // ---------- the integrity check: a whole trace ----------

  /** The last place of an identifier, as a dictionary built in order keeps it. */
  function LastAt(ids: seq<string>, id: string): Option<nat> {
    if ids == [] then None
    else if ids[|ids| - 1] == id then Some(|ids| - 1)
    else LastAt(ids[..|ids| - 1], id)
  }

  lemma {:induction false} LastAtFinds(ids: seq<string>, id: string)
    ensures LastAt(ids, id).Some? <==> id in ids
    ensures LastAt(ids, id).Some? ==> LastAt(ids, id).value < |ids| && ids[LastAt(ids, id).value] == id
  {
    if ids != [] {
      LastAtFinds(ids[..|ids| - 1], id);
      assert ids == ids[..|ids| - 1] + [ids[|ids| - 1]];
    }
  }

  function FrontierIds(fs: seq<FrontierRow>): seq<string> {
    seq(|fs|, i requires 0 <= i < |fs| => fs[i].id)
  }

  function LabelIds(labels: seq<Label>): seq<string> {
    seq(|labels|, i requires 0 <= i < |labels| => labels[i].frontier)
  }

  predicate Distinct(ids: seq<string>) {
    forall i, j :: 0 <= i < j < |ids| ==> ids[i] != ids[j]
  }

  ghost predicate SameElements(a: seq<string>, b: seq<string>) {
    forall x :: x in a <==> x in b
  }

  /** The actions of the frontier the check knows under this identifier. */
  function ActionsAt(fs: seq<FrontierRow>, id: string): seq<string> {
    var k := LastAt(FrontierIds(fs), id);
    LastAtFinds(FrontierIds(fs), id);
    if k.Some? then fs[k.value].actions else []
  }

  /** The label the check knows for it; a missing one counts as empty. */
  function LabelAt(labels: seq<Label>, id: string): Label {
    var k := LastAt(LabelIds(labels), id);
    LastAtFinds(LabelIds(labels), id);
    if k.Some? then labels[k.value] else Label(id, [], [])
  }

  datatype TraceError =
    | BadHash
    | BadLineage(message: string)
    | LabelsDoNotMap
    | LabelDoesNotCover(frontier: string)
    | OracleIsNoPermutation(frontier: string)
    | BadTerminal(at: nat, defect: Defect)
    | BadSummary(key: string)
    | BadContract

  ghost predicate LabelsMap<E>(p: Payload<E>) {
    Distinct(LabelIds(p.labels)) && SameElements(LabelIds(p.labels), FrontierIds(p.frontiers))
  }

  /** The check reports `e`. */
  ghost predicate Reports<E(!new)>(c: Context<E>, trace: Trace<E>, e: TraceError) {
    var p := trace.payload;
    match e
    case BadHash => trace.hash != c.digest(p)
    case BadLineage(m) => m in c.lineage(p.states, p.frontiers)
    case LabelsDoNotMap => !LabelsMap(p)
    case LabelDoesNotCover(id) =>
      id in FrontierIds(p.frontiers) && !SameElements(LabelAt(p.labels, id).outcomes, ActionsAt(p.frontiers, id))
    case OracleIsNoPermutation(id) =>
      && id in FrontierIds(p.frontiers)
      && var oracle := LabelAt(p.labels, id).oracle;
         !Distinct(oracle) || !SameElements(oracle, ActionsAt(p.frontiers, id))
    case BadTerminal(i, d) => i < |p.terminals| && DefectOf(p.states, p.terminals[i]) == Some(d)
    case BadSummary(key) =>
      key in Expected(c, p) && (key !in p.summary || p.summary[key] != Expected(c, p)[key])
    case BadContract => p.contract != c.contract(p.states, p.frontiers, Evidence(p.terminals))
  }

  // ---------- what an accepted trace is ----------

  /** The label names exactly these actions, and its oracle order is an arrangement of them. */
  ghost predicate Covers(given: Label, actions: seq<string>) {
    SameElements(given.outcomes, actions) && Distinct(given.oracle) && SameElements(given.oracle, actions)
  }

  /** The last frontier of this id has a label, and that covers its actions. */
  ghost predicate Matched<E>(p: Payload<E>, id: string) {
    exists f, l :: && 0 <= f < |p.frontiers| && p.frontiers[f].id == id
                   && (forall j :: f < j < |p.frontiers| ==> p.frontiers[j].id != id)
                   && 0 <= l < |p.labels| && p.labels[l].frontier == id && Covers(p.labels[l], p.frontiers[f].actions)
  }

  /** The last state of the id the terminal names has its hash and no reference to another state. */
  ghost predicate Attached<E>(states: seq<StateRow>, t: TerminalRow<E>) {
    exists k :: && 0 <= k < |states| && states[k].id == t.stateId
                && (forall j :: k < j < |states| ==> states[j].id != t.stateId)
                && states[k].canonicalOf.None? && states[k].hash == t.hash
  }

  ghost predicate Summarised<E>(c: Context<E>, p: Payload<E>) {
    && Has(p.summary, "state_count", |p.states|) && Has(p.summary, "frontier_count", |p.frontiers|)
    && Has(p.summary, "terminal_count", |p.terminals|) && Has(p.summary, "transposition_count", p.transpositions)
    && Has(p.summary, "composition_frontier_count", |PlacesOf((f: FrontierRow) => f.composition, p.frontiers)|)
    && Has(p.summary, "retained_terminal_count", |PlacesOf(c.retained, Evidence(p.terminals))|)
    && Has(p.summary, "material_terminal_count", |PlacesOf(c.material, Evidence(p.terminals))|)
  }

  /** A sound trace: its hash is right, lineage and contract are, every frontier has one label and every label
      a frontier, labels cover their frontiers, terminals are attached to owners, and the summary counts. */
  ghost predicate Sound<E(!new)>(c: Context<E>, trace: Trace<E>) {
    var p := trace.payload;
    && trace.hash == c.digest(p) && c.lineage(p.states, p.frontiers) == {}
    && p.contract == c.contract(p.states, p.frontiers, Evidence(p.terminals))
    && Distinct(LabelIds(p.labels)) && SameElements(LabelIds(p.labels), FrontierIds(p.frontiers))
    && (forall id <- FrontierIds(p.frontiers) :: Matched(p, id))
    && (forall i :: 0 <= i < |p.terminals| ==> Attached(p.states, p.terminals[i]))
    && Summarised(c, p)
  }

  lemma {:induction false} LastAtIsLast(ids: seq<string>, id: string, k: nat)
    ensures LastAt(ids, id) == Some(k) <==> k < |ids| && ids[k] == id && forall j :: k < j < |ids| ==> ids[j] != id
    decreases |ids|
  {
    if ids != [] {
      LastAtIsLast(ids[..|ids| - 1], id, k);
    }
  }

  lemma {:induction false} ByIdIsLast(states: seq<StateRow>, id: string, k: nat)
    requires k < |states| && states[k].id == id && forall j :: k < j < |states| ==> states[j].id != id
    ensures ById(states, id) == Some(states[k])
    decreases |states|
  {
    if k < |states| - 1 {
      ByIdIsLast(states[..|states| - 1], id, k);
    }
  }

  lemma {:induction false} ByIdHasPlace(states: seq<StateRow>, id: string) returns (k: nat)
    requires ById(states, id).Some?
    ensures k < |states| && states[k].id == id && (forall j :: k < j < |states| ==> states[j].id != id)
    ensures ById(states, id) == Some(states[k])
    decreases |states|
  {
    if states[|states| - 1].id == id {
      k := |states| - 1;
    } else {
      k := ByIdHasPlace(states[..|states| - 1], id);
    }
  }

  lemma AttachedExactly<E>(states: seq<StateRow>, t: TerminalRow<E>)
    ensures Attached(states, t) <==> DefectOf(states, t).None?
  {
    if DefectOf(states, t).None? {
      var k := ByIdHasPlace(states, t.stateId);
    }
    if Attached(states, t) {
      var k :| && 0 <= k < |states| && states[k].id == t.stateId
               && (forall j :: k < j < |states| ==> states[j].id != t.stateId)
               && states[k].canonicalOf.None? && states[k].hash == t.hash;
      ByIdIsLast(states, t.stateId, k);
    }
  }

  lemma MatchedExactly<E>(p: Payload<E>, id: string)
    requires LabelsMap(p) && id in FrontierIds(p.frontiers)
    ensures Matched(p, id) <==> Covers(LabelAt(p.labels, id), ActionsAt(p.frontiers, id))
  {
    LastAtFinds(FrontierIds(p.frontiers), id);
    LastAtFinds(LabelIds(p.labels), id);
    var (f, l) := (LastAt(FrontierIds(p.frontiers), id).value, LastAt(LabelIds(p.labels), id).value);
    LastAtIsLast(FrontierIds(p.frontiers), id, f);
    hide Covers, LastAt, SameElements;
    assert forall j :: f < j < |p.frontiers| ==> FrontierIds(p.frontiers)[j] == p.frontiers[j].id;
    assert LabelIds(p.labels)[l] == p.labels[l].frontier;
    forall x | 0 <= x < |p.labels| && p.labels[x].frontier == id ensures x == l {
      assert LabelIds(p.labels)[x] == LabelIds(p.labels)[l];
    }
  }

  lemma SummarisedExactly<E>(c: Context<E>, p: Payload<E>)
    ensures Summarised(c, p) <==>
            forall key <- Expected(c, p) :: key in p.summary && p.summary[key] == Expected(c, p)[key]
  {
    CompositionsArePlaces(p.frontiers);
    CountsPlaces((f: FrontierRow) => f.composition, p.frontiers);
    CountsPlaces(c.retained, Evidence(p.terminals));
    CountsPlaces(c.material, Evidence(p.terminals));
    hide Compositions, Count, PlacesOf, Evidence;
    assert Expected(c, p).Keys == SUMMARY_KEYS;
  }

  /** The check accepts exactly the sound traces. */
  lemma AcceptedExactly<E(!new)>(c: Context<E>, trace: Trace<E>)
    ensures (forall e :: !Reports(c, trace, e)) <==> Sound(c, trace)
  {
    var p := trace.payload;
    SummarisedExactly(c, p);
    forall i | 0 <= i < |p.terminals|
      ensures Attached(p.states, p.terminals[i]) <==> DefectOf(p.states, p.terminals[i]).None?
    {
      AttachedExactly(p.states, p.terminals[i]);
    }
    if LabelsMap(p) {
      forall id | id in FrontierIds(p.frontiers)
        ensures Matched(p, id) <==> Covers(LabelAt(p.labels, id), ActionsAt(p.frontiers, id))
      {
        MatchedExactly(p, id);
      }
    }
    hide Attached, Matched, LabelAt, ActionsAt, DefectOf, Expected, Summarised, SameElements, Distinct, LabelIds,
      FrontierIds, Evidence;
    if forall e :: !Reports(c, trace, e) {
      SilentIsSound(c, trace);
    } else {
      var e :| Reports(c, trace, e);
    }
  }

  lemma SilentIsSound<E(!new)>(c: Context<E>, trace: Trace<E>)
    requires forall e :: !Reports(c, trace, e)
    requires var p := trace.payload;
             (Summarised(c, p) <==>
               forall key <- Expected(c, p) :: key in p.summary && p.summary[key] == Expected(c, p)[key])
             && (forall i :: 0 <= i < |p.terminals| ==>
                   (Attached(p.states, p.terminals[i]) <==> DefectOf(p.states, p.terminals[i]).None?))
             && (LabelsMap(p) ==> forall id <- FrontierIds(p.frontiers) ::
                   (Matched(p, id) <==> Covers(LabelAt(p.labels, id), ActionsAt(p.frontiers, id))))
    ensures Sound(c, trace)
  {
    hide Attached, Matched, LabelAt, ActionsAt, DefectOf, Expected, Summarised, SameElements, Distinct, LabelIds,
      FrontierIds, Evidence;
    var p := trace.payload;
    assert !Reports(c, trace, BadHash) && !Reports(c, trace, BadContract) && !Reports(c, trace, LabelsDoNotMap);
    forall m ensures m !in c.lineage(p.states, p.frontiers) {
      assert !Reports(c, trace, BadLineage(m));
    }
    forall i | 0 <= i < |p.terminals| ensures DefectOf(p.states, p.terminals[i]).None? {
      forall d ensures DefectOf(p.states, p.terminals[i]) != Some(d) {
        assert !Reports(c, trace, BadTerminal(i, d));
      }
    }
    forall id | id in FrontierIds(p.frontiers) ensures Matched(p, id) {
      assert !Reports(c, trace, LabelDoesNotCover(id)) && !Reports(c, trace, OracleIsNoPermutation(id));
    }
    forall key | key in Expected(c, p) ensures key in p.summary && p.summary[key] == Expected(c, p)[key] {
      assert !Reports(c, trace, BadSummary(key));
    }
  }

  lemma SameOften(a: seq<string>, b: seq<string>)
    requires multiset(a) == multiset(b)
    ensures SameElements(a, b) && (Distinct(a) <==> Distinct(b))
  {
    forall x ensures x in a <==> x in b {
      assert x in a <==> x in multiset(a);
      assert x in b <==> x in multiset(b);
    }
    DistinctCounts(a);
    DistinctCounts(b);
  }

  /** Distinct lists are those in which nothing occurs twice. */
  lemma {:induction false} DistinctCounts(s: seq<string>)
    ensures Distinct(s) <==> forall x :: multiset(s)[x] <= 1
  {
    if s != [] {
      var n := |s| - 1;
      assert s == s[..n] + [s[n]];
      DistinctCounts(s[..n]);
      assert multiset(s) == multiset(s[..n]) + multiset{s[n]};
      if Distinct(s) {
        assert s[n] !in s[..n];
        assert multiset(s[..n])[s[n]] == 0;
      } else {
        var i, j :| 0 <= i < j < |s| && s[i] == s[j];
        assert s[..n][i] == s[i];
        if j == n {
          assert s[n] in multiset(s[..n]);
          assert multiset(s)[s[n]] > 1;
        } else {
          assert s[..n][j] == s[i];
          var x :| multiset(s[..n])[x] > 1;
          assert multiset(s)[x] > 1;
        }
      }
    }
  }

  /** Fresh labels sit where their frontiers sit. */
  lemma FreshLabelAt<E(!new)>(c: Context<E>, fs: seq<FrontierRow>, ts: seq<TerminalRow<E>>, id: string)
    requires id in FrontierIds(fs)
    ensures var made := LabelAt(Labelled(c, fs, ts), id);
            exists k :: 0 <= k < |fs| && fs[k].actions == ActionsAt(fs, id)
                        && made.outcomes == fs[k].actions && made.oracle == c.ranked(ts, fs[k])
  {
    assert LabelIds(Labelled(c, fs, ts)) == FrontierIds(fs);
    LastAtFinds(FrontierIds(fs), id);
    var k := LastAt(FrontierIds(fs), id).value;
    assert fs[k].actions == ActionsAt(fs, id);
  }

  lemma FreshLabels<E(!new)>(c: Context<E>, fs: seq<FrontierRow>, ts: seq<TerminalRow<E>>, id: string)
    requires Ranks(c) && id in FrontierIds(fs)
    ensures var made := LabelAt(Labelled(c, fs, ts), id);
            && made.outcomes == ActionsAt(fs, id) && SameElements(made.oracle, ActionsAt(fs, id))
            && (Distinct(made.oracle) <==> Distinct(ActionsAt(fs, id)))
  {
    hide LabelAt, ActionsAt, Labelled, Distinct, SameElements;
    FreshLabelAt(c, fs, ts, id);
    var k :| 0 <= k < |fs| && fs[k].actions == ActionsAt(fs, id)
             && LabelAt(Labelled(c, fs, ts), id).outcomes == fs[k].actions
                 && LabelAt(Labelled(c, fs, ts), id).oracle == c.ranked(ts, fs[k]);
    SameOften(c.ranked(ts, fs[k]), fs[k].actions);
  }

  /** What the check reports about a trace in which a terminal was moved. */
  ghost predicate ReportsAfter<E(!new)>(c: Context<E>, trace: Trace<E>, e: TraceError) {
    var p := trace.payload;
    match e
    case BadHash => false
    case LabelsDoNotMap => !Distinct(FrontierIds(p.frontiers))
    case LabelDoesNotCover(id) => false
    case OracleIsNoPermutation(id) => id in FrontierIds(p.frontiers) && !Distinct(ActionsAt(p.frontiers, id))
    case BadTerminal(i, d) => i < |p.terminals| && DefectOf(p.states, Moved(p.states, p.terminals[i])) == Some(d)
    case BadSummary(key) => false
    case _ => Reports(c, trace, e)
  }

  lemma ReportsNormalized<E(!new)>(c: Context<E>, trace: Trace<E>, e: TraceError)
    requires Ranks(c) && MovedAll(trace.payload.states, trace.payload.terminals) != trace.payload.terminals
    ensures Reports(c, Normalized(c, trace), e) <==> ReportsAfter(c, trace, e)
  {
    hide Expected, LabelAt, ActionsAt, DefectOf, Moved, Ranks;
    var p := trace.payload;
    var ts := MovedAll(p.states, p.terminals);
    var q := Normalized(c, trace).payload;
    assert Evidence(ts) == Evidence(p.terminals) by { EvidenceKept(p.states, p.terminals); }
    assert LabelIds(q.labels) == FrontierIds(p.frontiers);
    assert Expected(c, q) == Expected(c, p.(terminals := ts)) by { ExpectedIgnores(c, q, p.(terminals := ts)); }
    if e.LabelDoesNotCover? || e.OracleIsNoPermutation? {
      if e.frontier in FrontierIds(p.frontiers) {
        FreshLabels(c, p.frontiers, ts, e.frontier);
      }
    }
  }

  lemma EvidenceKept<E>(states: seq<StateRow>, ts: seq<TerminalRow<E>>)
    ensures Evidence(MovedAll(states, ts)) == Evidence(ts)
  {
    hide OwnerOf;
  }

  lemma ExpectedIgnores<E>(c: Context<E>, p: Payload<E>, q: Payload<E>)
    requires p.states == q.states && p.frontiers == q.frontiers && p.terminals == q.terminals
        && p.transpositions == q.transpositions
    ensures Expected(c, p) == Expected(c, q)
  {}

  /** Nothing moves; or no terminal is attached to a reference that was not already reported so, and
      what the fresh labels cannot mend, repeated frontiers and repeated actions, was reported too. */
  ghost predicate Harmless<E(!new)>(c: Context<E>, trace: Trace<E>) {
    var p := trace.payload;
    || MovedAll(p.states, p.terminals) == p.terminals
    || (&& (forall i :: 0 <= i < |p.terminals| && MovesToReference(p.states, p.terminals[i]) ==>
                          DefectOf(p.states, p.terminals[i]) == Some(NotCanonical))
        && (Distinct(FrontierIds(p.frontiers)) || Reports(c, trace, LabelsDoNotMap))
        && (forall id <- FrontierIds(p.frontiers) ::
              Distinct(ActionsAt(p.frontiers, id)) || Reports(c, trace, OracleIsNoPermutation(id))))
  }

  lemma HarmlessReports<E(!new)>(c: Context<E>, trace: Trace<E>, e: TraceError)
    requires DistinctIds(trace.payload.states) && Harmless(c, trace) && ReportsAfter(c, trace, e)
    requires MovedAll(trace.payload.states, trace.payload.terminals) != trace.payload.terminals
    ensures Reports(c, trace, e)
  {
    hide DefectOf, Moved, MovesToReference, ActionsAt, LabelAt, Expected, OwnerOf;
    var p := trace.payload;
    if e.BadTerminal? {
      DefectAfterMove(p.states, p.terminals[e.at]);
    }
  }

  lemma HarmfulReports<E(!new)>(c: Context<E>, trace: Trace<E>) returns (e: TraceError)
    requires DistinctIds(trace.payload.states) && !Harmless(c, trace)
    ensures ReportsAfter(c, trace, e) && !Reports(c, trace, e)
  {
    hide DefectOf, Moved, MovesToReference, ActionsAt, LabelAt, Expected, OwnerOf;
    var p := trace.payload;
    if !Distinct(FrontierIds(p.frontiers)) && !Reports(c, trace, LabelsDoNotMap) {
      e := LabelsDoNotMap;
    } else if id :|
                && id in FrontierIds(p.frontiers) && !Distinct(ActionsAt(p.frontiers, id))
                && !Reports(c, trace, OracleIsNoPermutation(id)) {
      e := OracleIsNoPermutation(id);
    } else {
      var i :| 0 <= i < |p.terminals| && MovesToReference(p.states, p.terminals[i])
          && DefectOf(p.states, p.terminals[i]) != Some(NotCanonical);
      DefectAfterMove(p.states, p.terminals[i]);
      e := BadTerminal(i, NotCanonical);
    }
  }

  /** Normalising adds no integrity error exactly when it is harmless, which the caller can read off
      the trace beforehand. */
  lemma AddsNoErrorExactly<E(!new)>(c: Context<E>, trace: Trace<E>)
    requires Ranks(c) && DistinctIds(trace.payload.states)
    ensures (forall e :: Reports(c, Normalized(c, trace), e) ==> Reports(c, trace, e)) <==> Harmless(c, trace)
  {
    hide Reports, Harmless, ReportsAfter, Ranks;
    var p := trace.payload;
    if MovedAll(p.states, p.terminals) == p.terminals {
      assert Harmless(c, trace) by { NothingMoves(c, trace); }
    } else {
      forall e ensures Reports(c, Normalized(c, trace), e) <==> ReportsAfter(c, trace, e) {
        ReportsNormalized(c, trace, e);
      }
      if Harmless(c, trace) {
        forall e | ReportsAfter(c, trace, e) ensures Reports(c, trace, e) {
          HarmlessReports(c, trace, e);
        }
      } else {
        var e := HarmfulReports(c, trace);
      }
    }
  }

  lemma NothingMoves<E(!new)>(c: Context<E>, trace: Trace<E>)
    requires MovedAll(trace.payload.states, trace.payload.terminals) == trace.payload.terminals
    ensures Harmless(c, trace)
  {}

  /** A trace the check accepts, with one owner for every hash and no repeated frontier or action, gets
      an error exactly if a terminal moves and one is attached to an empty reference. */
  lemma AcceptedStaysAccepted<E(!new)>(c: Context<E>, trace: Trace<E>)
    requires Ranks(c) && DistinctIds(trace.payload.states) && OneOwner(trace.payload.states)
    requires forall e :: !Reports(c, trace, e)
    requires Distinct(FrontierIds(trace.payload.frontiers))
    requires forall id <- FrontierIds(trace.payload.frontiers) :: Distinct(ActionsAt(trace.payload.frontiers, id))
    ensures var p := trace.payload;
            (exists e :: Reports(c, Normalized(c, trace), e)) <==>
            (exists i :: 0 <= i < |p.terminals| && OwnerOf(p.states, p.terminals[i].hash).Some?
                         && OwnerOf(p.states, p.terminals[i].hash).value.canonicalOf == Some(""))
  {
    hide Normalized, Ranks, OneOwner, ActionsAt, LabelAt, Expected, OwnerOf, DistinctIds;
    AddsNoErrorExactly(c, trace);
    var p := trace.payload;
    forall i | 0 <= i < |p.terminals|
      ensures DefectOf(p.states, p.terminals[i]).None?
      ensures MovesToReference(p.states, p.terminals[i]) <==>
                OwnerOf(p.states, p.terminals[i].hash).Some?
                  && OwnerOf(p.states, p.terminals[i].hash).value.canonicalOf == Some("")
    {
      AcceptedTerminal(c, trace, i);
    }
    if MovedAll(p.states, p.terminals) == p.terminals {
      forall i | 0 <= i < |p.terminals| ensures !MovesToReference(p.states, p.terminals[i]) {
        assert p.terminals[i] == Moved(p.states, p.terminals[i]);
        DefectAfterMove(p.states, p.terminals[i]);
      }
    }
  }

  /** Some state refers to one that is not in the trace. */
  ghost predicate UnknownReference(states: seq<StateRow>) {
    exists i :: 0 <= i < |states| && states[i].canonicalOf.Some?
      && forall j :: 0 <= j < |states| ==> states[j].id != states[i].canonicalOf.value
  }

  /** The lineage check reports such a reference. */
  ghost predicate ChecksReferences<E(!new)>(c: Context<E>) {
    forall states, frontiers :: UnknownReference(states) ==> c.lineage(states, frontiers) != {}
  }

  /** An empty reference passes for a known one only where a state has the empty name, so an accepted
      trace all of whose states have names stays accepted. */
  lemma NamedStatesStayAccepted<E(!new)>(c: Context<E>, trace: Trace<E>)
    requires Ranks(c) && DistinctIds(trace.payload.states) && OneOwner(trace.payload.states)
    requires forall e :: !Reports(c, trace, e)
    requires Distinct(FrontierIds(trace.payload.frontiers))
    requires forall id <- FrontierIds(trace.payload.frontiers) :: Distinct(ActionsAt(trace.payload.frontiers, id))
    requires ChecksReferences(c) && forall i :: 0 <= i < |trace.payload.states| ==> trace.payload.states[i].id != ""
    ensures forall e :: !Reports(c, Normalized(c, trace), e)
  {
    hide Normalized, Ranks, OneOwner, ActionsAt, LabelAt, Expected, OwnerOf, DistinctIds;
    AcceptedStaysAccepted(c, trace);
    var p := trace.payload;
    forall m ensures m !in c.lineage(p.states, p.frontiers) {
      assert !Reports(c, trace, BadLineage(m));
    }
    assert c.lineage(p.states, p.frontiers) == {} && !UnknownReference(p.states);
    forall i | 0 <= i < |p.terminals| && OwnerOf(p.states, p.terminals[i].hash).Some?
      ensures OwnerOf(p.states, p.terminals[i].hash).value.canonicalOf != Some("")
    {
      var k := OwnerIsListed(p.states, p.terminals[i].hash);
    }
  }

  lemma AcceptedTerminal<E(!new)>(c: Context<E>, trace: Trace<E>, i: nat)
    requires OneOwner(trace.payload.states) && i < |trace.payload.terminals| && forall e :: !Reports(c, trace, e)
    ensures var p := trace.payload;
            && DefectOf(p.states, p.terminals[i]).None?
            && (MovesToReference(p.states, p.terminals[i]) <==>
                  OwnerOf(p.states, p.terminals[i].hash).Some?
                    && OwnerOf(p.states, p.terminals[i].hash).value.canonicalOf == Some(""))
  {
    var p := trace.payload;
    var t := p.terminals[i];
    hide OwnerOf;
    forall d ensures DefectOf(p.states, t) != Some(d) {
      assert !Reports(c, trace, BadTerminal(i, d));
    }
    if OwnerOf(p.states, t.hash).Some? {
      var k := OwnerIsListed(p.states, t.hash);
      var j :| 0 <= j < |p.states| && p.states[j].hash == t.hash && Owns(p.states[j]);
      OwnerOfKnownHash(p.states, t.hash, j);
    }
  }
}

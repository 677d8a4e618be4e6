/** Grammar actions, the footprints they declare, and the two footprint tests the search makes:
    the conservative independence screen and the requires/conflicts guard. */
module Actions {

  /** A SHA-256 digest. The source compares digests as 64 lower-case hexadecimal digits, which
      orders them exactly as the numbers they spell. */
  const DIGEST_BOUND: nat := 0x1_0000000000000000_0000000000000000_0000000000000000_0000000000000000

  type Digest = n: nat | n < DIGEST_BOUND

  datatype Footprint = Footprint(
    complete: bool,
    reads_: set<string>,
    writes: set<string>,
    owners: set<string>,
    aliases: set<string>,
    lifetimes: set<string>,
    authorities: set<string>,
    memorySpaces: set<string>,
    contractsRead: set<string>,
    contractsWrite: set<string>,
    representationsRead: set<string>,
    representationsWritten: set<string>,
    lifetimesRead: set<string>,
    lifetimesModified: set<string>,
    authorityRead: set<string>,
    authorityModified: set<string>,
    synchronization: set<string>,
    external: set<string>,
    needs: set<string>,
    conflicts: set<string>)

  /** `key` is the declared action key; `order` is the digest of the action's public content, by
      which the search decides which of two commuting orders is the redundant one. */
  datatype Action = Action(key: string, order: Digest, footprint: Footprint)

  function BareFootprint(): Footprint {
    Footprint(true, {}, {}, {}, {}, {}, {}, {}, {}, {}, {}, {}, {}, {}, {}, {}, {}, {}, {}, {})
  }

  predicate Meets(a: set<string>, b: set<string>) {
    a * b != {}
  }

  /** `left` writes something that `right` reads or writes. */
  predicate Clobbers(leftWrites: set<string>, rightReads: set<string>, rightWrites: set<string>) {
    Meets(leftWrites, rightReads + rightWrites)
  }

  datatype Verdict = Passed | Rejected(reason: string)

  /** The conservative screen: anything undeclared or shared counts as dependent. */
  function StaticScreen(left: Action, right: Action): Verdict {
    var l, r := left.footprint, right.footprint;
    if !l.complete || !r.complete then
      Rejected("unknown footprint is dependent")
    else if left.key in r.conflicts || right.key in l.conflicts then
      Rejected("declared action conflict")
    else if Clobbers(l.writes, r.reads_, r.writes) || Clobbers(r.writes, l.reads_, l.writes) then
      Rejected("read/write dependency")
    else if Meets(l.aliases, r.aliases) then
      Rejected("shared alias region")
    else if Clobbers(l.contractsWrite, r.contractsRead, r.contractsWrite) then
      Rejected("left contract dependency")
    else if Clobbers(r.contractsWrite, l.contractsRead, l.contractsWrite) then
      Rejected("right contract dependency")
    else if Clobbers(l.representationsWritten, r.representationsRead, r.representationsWritten)
         || Clobbers(r.representationsWritten, l.representationsRead, l.representationsWritten) then
      Rejected("representation dependency")
    else if Clobbers(l.lifetimesModified, r.lifetimesRead, r.lifetimesModified)
         || Clobbers(r.lifetimesModified, l.lifetimesRead, l.lifetimesModified) then
      Rejected("lifetime dependency")
    else if Clobbers(l.authorityModified, r.authorityRead, r.authorityModified)
         || Clobbers(r.authorityModified, l.authorityRead, l.authorityModified) then
      Rejected("authority dependency")
    else if l.synchronization != {} || r.synchronization != {} then
      Rejected("synchronization effects require explicit ordering")
    else if l.external != {} || r.external != {} then
      Rejected("external observable effects require explicit ordering")
    else if Meets(l.authorities, r.authorities) || Meets(l.lifetimes, r.lifetimes) then
      Rejected("shared authority or lifetime state")
    else if Meets(l.memorySpaces, r.memorySpaces) && Meets(l.owners, r.owners) then
      Rejected("shared physical placement")
    else if l.owners != {} && r.owners != {} && Meets(l.owners, r.owners) then
      Rejected("shared semantic owner")
    else
      Passed
  }

  /** The verifier caches one verdict for both orders of a pair, so the screen must not care which
      action is called left. */
  lemma ScreenIsSymmetric(a: Action, b: Action)
    ensures StaticScreen(a, b).Passed? <==> StaticScreen(b, a).Passed?
  {
    var l, r := a.footprint, b.footprint;
    assert l.aliases * r.aliases == r.aliases * l.aliases;
    assert l.authorities * r.authorities == r.authorities * l.authorities;
    assert l.lifetimes * r.lifetimes == r.lifetimes * l.lifetimes;
    assert l.memorySpaces * r.memorySpaces == r.memorySpaces * l.memorySpaces;
    assert l.owners * r.owners == r.owners * l.owners;
  }

  /** An action is held back until everything it needs has been applied, and for good once
      something it conflicts with has been. */
  predicate Blocked(a: Action, applied: set<string>) {
    !(a.footprint.needs <= applied) || Meets(a.footprint.conflicts, applied)
  }

  function Keys(history: seq<Action>): set<string> {
    set a | a in history :: a.key
  }

  lemma KeysOfAppend(history: seq<Action>, a: Action)
    ensures Keys(history + [a]) == Keys(history) + {a.key}
  {
    assert forall x :: x in history + [a] <==> x in history || x == a;
  }
}

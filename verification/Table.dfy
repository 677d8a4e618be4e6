/** The transposition table: records indexed by a primary digest whose collisions are harmless,
    because canonical bytes decide every merge, and by a state identifier that must not collide. */
module Table {
  import opened Actions
  import opened Grammars
  import opened Exploration

  /** The primary digest of the canonical bytes and a truncated second digest of the same bytes. */
  type StateId = (nat, nat)

  class StateRecord<S(!new), K(!new)> {
    const id: StateId
    const bytes: K
    const state: LazyState<S>
    var path: seq<Action>
    var parentEdges: seq<nat>
    var depthMinimum: nat
    var depthMaximum: nat
    var phase: Phase

    constructor (id: StateId, bytes: K, node: Node<S>)
      ensures this.id == id && this.bytes == bytes && View() == node
    {
      this.id, this.bytes, this.state := id, bytes, node.state;
      this.path, this.parentEdges := node.path, node.parents;
      this.depthMinimum, this.depthMaximum, this.phase := node.depthMinimum, node.depthMaximum, node.phase;
    }

    function View(): Node<S>
      reads this
    {
      Node(state, path, parentEdges, depthMinimum, depthMaximum, phase)
    }

    /** Another edge reaches this record. */
    method Merge(smaller: (seq<Action>, seq<Action>) -> bool, depth: nat, candidate: seq<Action>, edge: nat)
      modifies this
      ensures View() == Merged(smaller, old(View()), depth, candidate, edge)
    {
      if edge !in parentEdges {
        parentEdges := parentEdges + [edge];
      }
      depthMinimum := Min(depthMinimum, depth);
      depthMaximum := Max(depthMaximum, depth);
      if smaller(candidate, path) {
        path := candidate;
      }
    }
  }

  class TranspositionTable<S(!new), K(!new, ==)> {
    const g: Grammar<S, K>
    const digest: K -> nat
    const secondary: K -> nat
    const smaller: (seq<Action>, seq<Action>) -> bool
    var buckets: map<nat, seq<StateRecord<S, K>>>
    var records: map<StateId, StateRecord<S, K>>
    var hashCollisions: nat
    ghost var view: map<K, Node<S>>
    ghost var repr: set<StateRecord<S, K>>

    function IdOf(k: K): StateId {
      (digest(k), secondary(k))
    }

    /** Identifiers tell canonical forms apart. Merging never relies on this; lookup by id does. */
    ghost predicate IdsSeparate() {
      forall k, k' :: IdOf(k) == IdOf(k') ==> k == k'
    }

    static function Bucket(buckets: map<nat, seq<StateRecord<S, K>>>, d: nat): seq<StateRecord<S, K>> {
      if d in buckets then buckets[d] else []
    }

    /** The record stands at this place of the bucket. */
    static ghost predicate StandsAt(bucket: seq<StateRecord<S, K>>, record: StateRecord<S, K>, at: int) {
      0 <= at < |bucket| && bucket[at] == record
    }

    /** Buckets hold exactly the table's records, each under the digest of its bytes. */
    ghost predicate Indexed(buckets: map<nat, seq<StateRecord<S, K>>>, repr: set<StateRecord<S, K>>) {
      && (forall d, r :: r in Bucket(buckets, d) ==> r in repr && digest(r.bytes) == d)
      && (forall r <- repr :: r in Bucket(buckets, digest(r.bytes)))
    }

    /** Each canonical form has exactly one record, whatever else shares its bucket. */
    ghost predicate OnePerForm(view: map<K, Node<S>>, repr: set<StateRecord<S, K>>) {
      && (forall r, r' :: r in repr && r' in repr && r.bytes == r'.bytes ==> r == r')
      && (forall k <- view :: exists r <- repr :: r.bytes == k)
    }

    ghost predicate Viewed(view: map<K, Node<S>>, repr: set<StateRecord<S, K>>)
      reads repr
    {
      forall r <- repr :: r.bytes in view && view[r.bytes] == r.View()
    }

    /** Every record carries its identifier, and every identifier in use leads to a record carrying it. */
    ghost predicate Identified(records: map<StateId, StateRecord<S, K>>, repr: set<StateRecord<S, K>>) {
      && (forall r <- repr :: r.id == IdOf(r.bytes) && r.id in records)
      && (forall id <- records :: records[id] in repr && records[id].id == id)
    }

    ghost predicate Valid()
      reads this, repr
    {
      && Indexed(buckets, repr) && OnePerForm(view, repr)
      && Viewed(view, repr) && Identified(records, repr)
    }

    constructor (g: Grammar<S, K>, digest: K -> nat, secondary: K -> nat, smaller: (seq<Action>, seq<Action>) -> bool)
      ensures Valid() && view == map[] && repr == {}
      ensures this.g == g && this.digest == digest && this.secondary == secondary && this.smaller == smaller
    {
      this.g, this.digest, this.secondary, this.smaller := g, digest, secondary, smaller;
      buckets, records, hashCollisions := map[], map[], 0;
      view, repr := map[], {};
    }

    method Find(k: K) returns (found: Option<StateRecord<S, K>>, scanned: nat)
      requires Valid()
      ensures found.Some? <==> k in view
      ensures found.Some? ==> found.value in repr && found.value.bytes == k
      ensures found.None? ==> scanned == |Bucket(buckets, digest(k))|
      ensures found.Some? ==> StandsAt(Bucket(buckets, digest(k)), found.value, scanned)
    {
      hide Identified;
      var bucket := Bucket(buckets, digest(k));
      scanned := 0;
      while scanned < |bucket|
        invariant 0 <= scanned <= |bucket|
        invariant forall i :: 0 <= i < scanned ==> bucket[i].bytes != k
      {
        if bucket[scanned].bytes == k {
          assert bucket[scanned] in bucket;
          return Some(bucket[scanned]), scanned;
        }
        scanned := scanned + 1;
      }
      found := None;
      forall r | r in repr ensures r.bytes != k {
        assert r in Bucket(buckets, digest(r.bytes));
      }
    }

    /** Put a new record under both indexes. */
    method Insert(k: K, node: Node<S>) returns (record: StateRecord<S, K>)
      requires Valid() && k !in view
      modifies this
      ensures Valid() && fresh(record) && repr == old(repr) + {record}
      ensures record.bytes == k && view == old(view)[k := node] && hashCollisions == old(hashCollisions)
      ensures records == old(records)[IdOf(k) := record]
    {
      hide Indexed, OnePerForm, Identified;
      record := new StateRecord(IdOf(k), k, node);
      assert forall r <- repr :: r.bytes in view;
      InsertIndexed(record);
      InsertOnePerForm(record, node);
      InsertIdentified(record);
      buckets := buckets[digest(k) := Bucket(buckets, digest(k)) + [record]];
      records := records[IdOf(k) := record];
      view := view[k := node];
      repr := repr + {record};
    }

    lemma InsertIndexed(record: StateRecord<S, K>)
      requires Indexed(buckets, repr)
      ensures var d := digest(record.bytes);
              Indexed(buckets[d := Bucket(buckets, d) + [record]], repr + {record})
    {
      var d := digest(record.bytes);
      var after := buckets[d := Bucket(buckets, d) + [record]];
      assert forall e, r :: r in Bucket(after, e) <==> r in Bucket(buckets, e) || (e == d && r == record);
    }

    lemma InsertOnePerForm(record: StateRecord<S, K>, node: Node<S>)
      requires OnePerForm(view, repr) && record.bytes !in view && forall r <- repr :: r.bytes in view
      ensures OnePerForm(view[record.bytes := node], repr + {record})
    {
      var after := repr + {record};
      var grown := view[record.bytes := node];
      forall k | k in grown ensures exists r <- after :: r.bytes == k {
        if k in view {
          var r :| r in repr && r.bytes == k;
          assert r in after;
        } else {
          assert record in after;
        }
      }
    }

    lemma InsertIdentified(record: StateRecord<S, K>)
      requires Identified(records, repr) && record !in repr && record.id == IdOf(record.bytes)
      ensures Identified(records[record.id := record], repr + {record})
    {
    }

    method MergeInto(record: StateRecord<S, K>, depth: nat, path: seq<Action>, edge: nat)
      requires Valid() && record in repr
      modifies this`view, record
      ensures Valid() && record.bytes in old(view) && record.state == old(view)[record.bytes].state
      ensures view == old(view)[record.bytes := Merged(smaller, old(view)[record.bytes], depth, path, edge)]
    {
      hide Indexed, Identified;
      record.Merge(smaller, depth, path, edge);
      view := view[record.bytes := record.View()];
      assert OnePerForm(view, repr);
    }

    /** Find or create the record of a state. Canonical bytes alone decide; a digest shared with
        other forms costs comparisons and nothing else. */
    method Intern(s: LazyState<S>, depth: nat, path: seq<Action>, edge: nat)
      returns (record: StateRecord<S, K>, how: Disposition)
      requires Valid()
      modifies this, repr
      ensures Valid() && fresh(repr - old(repr)) && old(repr) <= repr
      ensures (view, how) == Interned(g, smaller, old(view), s, depth, path, edge)
      ensures record in repr && record.bytes == Canon(g, s)
      ensures how.NewState? ==> hashCollisions == old(hashCollisions) + |Bucket(old(buckets), digest(Canon(g, s)))|
      ensures !how.NewState? ==>
          StandsAt(Bucket(old(buckets), digest(Canon(g, s))), record, hashCollisions - old(hashCollisions))
    {
      hide Indexed, Identified, OnePerForm;
      var k := Canon(g, s);
      var found, scanned := Find(k);
      hashCollisions := hashCollisions + scanned;
      if found.Some? {
        record := found.value;
        assert view[k] == record.View();
        how := Mechanism(g, record.state, s);
        MergeInto(record, depth, path, edge);
      } else {
        record := Insert(k, Node(s, path, [edge], depth, depth, Queued));
        how := NewState;
      }
    }

    /** Put back a checkpointed record. */
    method Restore(k: K, node: Node<S>)
      requires Valid() && k !in view
      modifies this
      ensures Valid() && fresh(repr - old(repr)) && old(repr) <= repr
      ensures view == old(view)[k := node] && hashCollisions == old(hashCollisions)
    {
      var _ := Insert(k, node);
    }

    /** Look a record up by identifier, as the search does for every work item. When identifiers
        separate canonical forms this finds the record of the form. */
    method Lookup(k: K) returns (record: StateRecord<S, K>)
      requires Valid() && k in view
      ensures record in repr && record.id == IdOf(k)
      ensures IdsSeparate() ==> record.bytes == k && record.View() == view[k]
    {
      assert IdOf(k) in records by {
        var r :| r in repr && r.bytes == k;
      }
      record := records[IdOf(k)];
    }

    method Mark(record: StateRecord<S, K>, phase: Phase)
      requires Valid() && record in repr
      modifies this, record
      ensures Valid() && repr == old(repr)
      ensures view == SetPhase(old(view), record.bytes, phase) && record.View() == view[record.bytes]
    {
      hide Indexed, Identified;
      record.phase := phase;
      view := view[record.bytes := record.View()];
      assert OnePerForm(view, repr);
    }

    /** Lookup by identifier is faithful exactly when no two recorded forms share an identifier. The
        source derives both halves of an identifier from one digest of the canonical bytes, so there
        the second half adds nothing. */
    lemma LookupIsFaithful()
      requires Valid()
      ensures (forall r <- repr :: records[r.id] == r) <==>
              (forall k, k' :: k in view && k' in view && IdOf(k) == IdOf(k') ==> k == k')
    {
      hide Indexed;
      if forall r <- repr :: records[r.id] == r {
        forall k, k' | k in view && k' in view && IdOf(k) == IdOf(k') ensures k == k' {
          var r :| r in repr && r.bytes == k;
          var r' :| r' in repr && r'.bytes == k';
          assert records[r.id] == r && records[r'.id] == r';
        }
      }
      if forall k, k' :: k in view && k' in view && IdOf(k) == IdOf(k') ==> k == k' {
        forall r | r in repr ensures records[r.id] == r {
          var found := records[r.id];
          assert found in repr && IdOf(found.bytes) == IdOf(r.bytes);
          assert found.bytes in view && r.bytes in view;
        }
      }
    }
  }
}

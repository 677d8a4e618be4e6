/** The two ways the code generators unroll a counted loop, under 64-bit wrap-around. A loop body is
    an arbitrary transformer of the rest of the state that reads the index; two loops that agree for
    every body run the same instances in the same order. */
module Unrolling {

  const SIZE: nat := 0x1_0000_0000_0000_0000

  type Word = n: nat | n < SIZE

  function Plus(x: Word, k: nat): Word {
    (x + k) % SIZE
  }

  lemma PlusExact(x: Word, k: nat)
    requires x + k < SIZE
    ensures Plus(x, k) == x + k
  {
  }

  // ---------- the source loop ----------

  /** `for (i = start; i + offset < bound; ++i) body`. */
  function Scalar<S>(body: (Word, S) -> S, bound: Word, offset: Word, i: Word, s: S): S
    decreases SIZE - Plus(i, offset)
  {
    if Plus(i, offset) < bound then
      Next(i, offset);
      Scalar(body, bound, offset, Plus(i, 1), body(i, s))
    else s
  }

  lemma Next(i: Word, offset: Word)
    requires Plus(i, offset) < SIZE - 1
    ensures Plus(Plus(i, 1), offset) == Plus(i, offset) + 1
  {
  }

  /** Instances of the body at `i` up to, not including, `to`. */
  function Lanes<S>(body: (Word, S) -> S, i: nat, to: Word, s: S): S
    requires i <= to
    decreases (to as int) - (i as int)
  {
    if i == to then s else Lanes(body, i + 1, to, body(i, s))
  }

  lemma {:induction false} LanesAppend<S>(body: (Word, S) -> S, i: nat, to: Word, s: S)
    requires i <= to < SIZE - 1
    ensures Lanes(body, i, to + 1, s) == body(to, Lanes(body, i, to, s))
    decreases (to as int) - (i as int)
  {
    if i < to {
      LanesAppend(body, i + 1, to, body(i, s));
    }
  }

  /** As long as the guard has `to - i` instances to go, they are the next ones. */
  lemma {:induction false} ScalarRunsLanes<S>(body: (Word, S) -> S, bound: Word, offset: Word, i: nat, to: Word, s: S)
    requires i <= to && (i < to ==> to - 1 + offset < bound)
    ensures Scalar(body, bound, offset, i, s) == Scalar(body, bound, offset, to, Lanes(body, i, to, s))
    decreases (to as int) - (i as int)
  {
    if i < to {
      PlusExact(i, offset);
      PlusExact(i, 1);
      ScalarRunsLanes(body, bound, offset, i + 1, to, body(i, s));
    }
  }

  /** The unrolled copies of the body, each with its lane added to the index. */
  method RunBlock<S>(body: (Word, S) -> S, i: Word, factor: nat, initial: S) returns (s: S)
    requires i + factor < SIZE
    ensures s == Lanes(body, i, i + factor, initial)
  {
    s := initial;
    for lane := 0 to factor
      invariant s == Lanes(body, i, i + lane, initial)
    {
      PlusExact(i, lane);
      LanesAppend(body, i, i + lane, initial);
      s := body(Plus(i, lane), s);
    }
  }

  // ---------- ordered unrolling ----------

  /** The generated loops: blocks of `factor` instances while the bound is far enough, then the rest
      one by one. The literal `offset + factor` has to be one the target can spell. */
  method OrderedUnroll<S>(body: (Word, S) -> S, start: Word, bound: Word, offset: Word, factor: nat, initial: S)
        returns (s: S)
    requires factor >= 2 && offset + factor < SIZE
    ensures s == Scalar(body, bound, offset, start, initial)
  {
    s := initial;
    var i: Word := start;
    while i < bound && bound - i >= offset + factor
      invariant Scalar(body, bound, offset, i, s) == Scalar(body, bound, offset, start, initial)
      decreases SIZE - i
    {
      ghost var before := s;
      s := RunBlock(body, i, factor, s);
      ScalarRunsLanes(body, bound, offset, i, i + factor, before);
      PlusExact(i, factor);
      i := Plus(i, factor);
    }
    while Plus(i, offset) < bound
      invariant Scalar(body, bound, offset, i, s) == Scalar(body, bound, offset, start, initial)
      decreases SIZE - Plus(i, offset)
    {
      Next(i, offset);
      s, i := body(i, s), Plus(i, 1);
    }
  }

  // ---------- partitioned loops ----------

  /** The guard of the partitioned loop: `i + (factor - 1) < end`, added in size_t. */
  predicate BlockGuard(i: Word, end: Word, factor: nat)
    requires factor >= 1
  {
    Plus(i, factor - 1) < end
  }

  /** Where the block loop has to stop. */
  function LastBlock(start: nat, end: Word, factor: nat): Word
    requires factor >= 1 && start <= end
  {
    end - (end - start) % factor
  }

  /** The indices at which the block loop evaluates its guard, if none wraps. */
  predicate BlockStart(start: nat, end: Word, factor: nat, i: nat)
    requires factor >= 1
  {
    start <= i <= end && (i - start) % factor == 0
  }

  /** Every guard the block loop evaluates, up to where it has to stop, says what is meant: a whole
      block is left. */
  ghost predicate GuardsAreExact(start: Word, end: Word, factor: nat)
    requires factor >= 1
  {
    forall i: Word :: BlockStart(start, end, factor, i) ==> (BlockGuard(i, end, factor) <==> i + factor <= end)
  }

  lemma ModStep(y: nat, f: nat)
    requires f >= 1
    ensures (y + f) % f == y % f
  {
    var q, r := y / f, y % f;
    assert y + f == (q + 1) * f + r;
    Euclid(y + f, q + 1, r, f);
  }

  lemma {:induction false} Euclid(n: nat, q: nat, r: nat, f: nat)
    requires 0 <= r < f && n == q * f + r
    ensures n % f == r && n / f == q
  {
    var p, t := n / f, n % f;
    assert n == p * f + t;
    assert (p - q) * f == r - t;
    if p > q {
      Monotone(1, p - q, f);
    } else if p < q {
      assert (q - p) * f == t - r;
      Monotone(1, q - p, f);
    }
  }

  lemma Monotone(x: nat, y: nat, f: nat)
    requires x <= y
    ensures x * f <= y * f
  {
  }

  lemma {:induction false} ModDrop(a: nat, x: nat, f: nat)
    requires f >= 1 && a % f == 0
    ensures (a + x) % f == x % f
  {
    var q, p := a / f, x / f;
    assert a + x == (q + p) * f + x % f;
    Euclid(a + x, q + p, x % f, f);
  }

  lemma BlockFits(start: nat, end: Word, factor: nat, i: nat)
    requires factor >= 1 && BlockStart(start, end, factor, i)
    ensures LastBlock(start, end, factor) == end - (end - i) % factor
    ensures i + factor <= end || LastBlock(start, end, factor) == i
  {
    ModDrop(i - start, end - i, factor);
    assert i - start + (end - i) == end - start;
    if end - i < factor {
      Euclid(end - i, 0, end - i, factor);
    }
  }

  /** The guards are exact if and only if adding `factor - 1` where the blocks end does not wrap. */
  lemma PartitionGuard(start: Word, end: Word, factor: nat)
    requires 1 <= factor < SIZE && start <= end
    ensures GuardsAreExact(start, end, factor) <==> LastBlock(start, end, factor) + factor - 1 < SIZE
  {
    var last := LastBlock(start, end, factor);
    if last + factor - 1 < SIZE {
      forall i: Word | BlockStart(start, end, factor, i) ensures BlockGuard(i, end, factor) <==> i + factor <= end {
        BlockFits(start, end, factor, i);
        PlusExact(i, factor - 1);
      }
    } else {
      var d := end - start;
      assert d == d / factor * factor + d % factor;
      Euclid(d - d % factor, d / factor, 0, factor);
      assert BlockStart(start, end, factor, last);
      assert Plus(last, factor - 1) == last + factor - 1 - SIZE < end;
    }
  }

  /** Every guard up to the end of the blocks is exact. */
  lemma GuardAt(start: Word, end: Word, factor: nat, i: Word)
    requires 1 <= factor < SIZE && start <= end && LastBlock(start, end, factor) + factor - 1 < SIZE
    requires BlockStart(start, end, factor, i)
    ensures Plus(i, factor - 1) < end <==> i + factor <= end
    ensures i + factor <= end ==> BlockStart(start, end, factor, i + factor) && Plus(i, factor) == i + factor
  {
    PartitionGuard(start, end, factor);
    assert BlockGuard(i, end, factor) <==> i + factor <= end;
    hide LastBlock, GuardsAreExact;
    if i + factor <= end {
      ModStep(i - start, factor);
      PlusExact(i, factor);
    }
  }

  /** The generated partition loop, when no guard wraps. */
  method Partitioned<S>(body: (Word, S) -> S, start: Word, end: Word, factor: nat, initial: S) returns (s: S)
    requires 1 <= factor < SIZE && start <= end && LastBlock(start, end, factor) + factor - 1 < SIZE
    ensures s == Scalar(body, end, 0, start, initial)
  {
    s := initial;
    var i: Word := start;
    GuardAt(start, end, factor, start);
    hide LastBlock, BlockStart, Plus;
    while Plus(i, factor - 1) < end
      invariant i <= end && BlockStart(start, end, factor, i)
      invariant Plus(i, factor - 1) < end <==> i + factor <= end
      invariant Scalar(body, end, 0, i, s) == Scalar(body, end, 0, start, initial)
      decreases end - i
    {
      GuardAt(start, end, factor, i);
      ghost var before := s;
      s := RunBlock(body, i, factor, s);
      ScalarRunsLanes(body, end, 0, i, i + factor, before);
      i := Plus(i, factor);
      GuardAt(start, end, factor, i);
    }
    s := Remainder(body, i, end, s);
  }

  method Remainder<S>(body: (Word, S) -> S, from: Word, end: Word, initial: S) returns (s: S)
    ensures s == Scalar(body, end, 0, from, initial)
  {
    s := initial;
    var i: Word := from;
    while i < end
      invariant Scalar(body, end, 0, i, s) == Scalar(body, end, 0, from, initial)
      decreases SIZE - i
    {
      PlusExact(i, 1);
      s, i := body(i, s), Plus(i, 1);
    }
  }
}

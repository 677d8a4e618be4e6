/** Population-count kernels: bytes counted eight at a time through 64-bit words, or fixed-width
    elements in unrolled blocks, each with a scalar tail. */
module BitReduction {
  import opened Unrolling

  type Byte = n: nat | n < 256

  function Pop(n: nat): nat {
    if n == 0 then 0 else n % 2 + Pop(n / 2)
  }

  /** The set bits of all elements. */
  function Population(data: seq<nat>): nat {
    if data == [] then 0 else Population(data[..|data| - 1]) + Pop(data[|data| - 1])
  }

  /** The word an unaligned little-endian load gives. */
  function LittleEndian(bytes: seq<nat>): nat {
    if bytes == [] then 0 else bytes[0] + 256 * LittleEndian(bytes[1..])
  }

  function Power(k: nat): nat {
    if k == 0 then 1 else 2 * Power(k - 1)
  }

  /** Bits above and below a position count separately. */
  lemma {:induction false} PopSplits(low: nat, high: nat, k: nat)
    requires low < Power(k)
    ensures Pop(low + Power(k) * high) == Pop(low) + Pop(high)
    decreases k
  {
    if k > 0 {
      var q := Power(k - 1) * high;
      assert Power(k) * high == 2 * q by { Doubled(Power(k - 1), high); }
      Halves(low, q);
      PopSplits(low / 2, high, k - 1);
      PopHalf(low + 2 * q);
      PopHalf(low);
    }
  }

  lemma Doubled(p: nat, x: nat)
    ensures (2 * p) * x == 2 * (p * x)
  {
  }

  lemma Halves(x: nat, q: nat)
    ensures (x + 2 * q) / 2 == x / 2 + q && (x + 2 * q) % 2 == x % 2
  {
  }

  lemma PopHalf(n: nat)
    ensures Pop(n) == n % 2 + Pop(n / 2)
  {
  }

  lemma {:induction false} PopulationOfTail(data: seq<nat>)
    requires data != []
    ensures Population(data) == Pop(data[0]) + Population(data[1..])
    decreases |data|
  {
    if |data| > 1 {
      PopulationOfTail(data[..|data| - 1]);
      assert data[..|data| - 1][1..] == data[1..][..|data| - 2];
    }
  }

  lemma {:induction false} PopulationAppend(x: seq<nat>, y: seq<nat>)
    ensures Population(x + y) == Population(x) + Population(y)
    decreases |y|
  {
    if y == [] {
      assert x + y == x;
    } else {
      PopulationAppend(x, y[..|y| - 1]);
      assert (x + y)[..|x + y| - 1] == x + y[..|y| - 1];
    }
  }

  /** A word has as many set bits as its bytes together. */
  lemma {:induction false} WordPopulation(bytes: seq<nat>)
    requires forall k :: 0 <= k < |bytes| ==> bytes[k] < 256
    ensures Pop(LittleEndian(bytes)) == Population(bytes)
    decreases |bytes|
  {
    if bytes != [] {
      WordPopulation(bytes[1..]);
      PopulationOfTail(bytes);
      assert Power(8) == 256;
      PopSplits(bytes[0], LittleEndian(bytes[1..]), 8);
    }
  }

  lemma PlusTwice(x: nat, y: nat, z: nat)
    requires x == y % SIZE
    ensures Plus(x, z) == (y + z) % SIZE
  {
    var q := y / SIZE;
    assert y == q * SIZE + x;
    ModDrop(q * SIZE, x + z, SIZE) by { Euclid(q * SIZE, q, 0, SIZE); }
  }

  /** Bytes, `words` 64-bit loads a block, added into a size_t. */
  method CountBytes(data: seq<Byte>, words: nat) returns (total: Word)
    requires words >= 1 && |data| < SIZE && 8 * words < SIZE && LastBlock(0, |data|, 8 * words) + 8 * words - 1 < SIZE
    ensures total == Population(data) % SIZE
  {
    total := 0;
    var i: Word := 0;
    var n: Word := |data|;
    PartitionGuard(0, n, 8 * words);
    hide LastBlock;
    while Plus(i, 8 * words - 1) < n
      invariant BlockStart(0, n, 8 * words, i) && total == Population(data[..i]) % SIZE
      decreases n - i
    {
      assert BlockGuard(i, n, 8 * words);
      total := CountBlock(data, i, words, total);
      ModStep(i, 8 * words);
      PlusExact(i, 8 * words);
      i := Plus(i, 8 * words);
    }
    while i < n
      invariant i <= n && total == Population(data[..i]) % SIZE
      decreases n - i
    {
      PlusTwice(total, Population(data[..i]), Pop(data[i]));
      assert data[..i + 1][..i] == data[..i];
      total := Plus(total, Pop(data[i]));
      PlusExact(i, 1);
      i := Plus(i, 1);
    }
    assert data[..n] == data;
  }

  method CountBlock(data: seq<Byte>, i: nat, words: nat, before: Word) returns (total: Word)
    requires i + 8 * words <= |data| && before == Population(data[..i]) % SIZE
    ensures total == Population(data[..i + 8 * words]) % SIZE
  {
    total := before;
    for lane := 0 to words
      invariant total == Population(data[..i + 8 * lane]) % SIZE
    {
      var at := i + 8 * lane;
      var word := LittleEndian(data[at..at + 8]);
      WordPopulation(data[at..at + 8]);
      assert data[..at + 8] == data[..at] + data[at..at + 8];
      PopulationAppend(data[..at], data[at..at + 8]);
      PlusTwice(total, Population(data[..at]), Pop(word));
      total := Plus(total, Pop(word));
    }
  }

  /** The loop body: adds the set bits of one element. */
  function Counted(data: seq<nat>, i: Word, total: Word): Word {
    if i < |data| then Plus(total, Pop(data[i])) else total
  }

  /** Fixed-width elements in blocks of `factor`: the partition loop with a counting body. */
  method CountElements(data: seq<nat>, factor: nat) returns (total: Word)
    requires 1 <= factor < SIZE && |data| < SIZE && LastBlock(0, |data|, factor) + factor - 1 < SIZE
    ensures total == Population(data) % SIZE
  {
    var body: (Word, Word) -> Word := (i: Word, t: Word) => Counted(data, i, t);
    total := Partitioned(body, 0, |data|, factor, 0);
    ScalarCounts(data, body, 0, 0);
  }

  lemma {:induction false} ScalarCounts(data: seq<nat>, body: (Word, Word) -> Word, i: Word, total: Word)
    requires i <= |data| < SIZE && total == Population(data[..i]) % SIZE
    requires forall k: Word, t: Word :: body(k, t) == Counted(data, k, t)
    ensures Scalar(body, |data|, 0, i, total) == Population(data) % SIZE
    decreases |data| - i
  {
    PlusExact(i, 0);
    if i < |data| {
      PlusExact(i, 1);
      PlusTwice(total, Population(data[..i]), Pop(data[i]));
      assert data[..i + 1][..i] == data[..i];
      ScalarCounts(data, body, i + 1, body(i, total));
    } else {
      assert data[..i] == data;
    }
  }

  lemma {:induction false} PopulationBound(data: seq<nat>, bits: nat)
    requires forall k :: 0 <= k < |data| ==> data[k] < Power(bits)
    ensures Population(data) <= bits * |data|
    decreases |data|
  {
    if data != [] {
      PopulationBound(data[..|data| - 1], bits);
      PopBound(data[|data| - 1], bits);
      assert bits * |data| == bits * (|data| - 1) + bits;
      hide Pop, Power;
    }
  }

  lemma {:induction false} PopBound(n: nat, bits: nat)
    requires n < Power(bits)
    ensures Pop(n) <= bits
    decreases bits
  {
    if bits > 0 && n > 0 {
      PopBound(n / 2, bits - 1);
    }
  }

  /** Within the default length limit of the contract nothing wraps: the guards are exact and the
      64-bit total is the population itself. */
  lemma LimitIsSafe(data: seq<nat>, bits: nat, block: nat)
    requires |data| <= 0x4000_0000 && bits <= 64 && 1 <= block <= 16
    requires forall k :: 0 <= k < |data| ==> data[k] < Power(bits)
    ensures LastBlock(0, |data|, block) + block - 1 < SIZE
    ensures Population(data) % SIZE == Population(data)
  {
    hide Population, Power;
    PopulationBound(data, bits);
    Monotone(bits, 64, |data|);
  }
}

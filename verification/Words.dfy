/** Machine-word arithmetic: powers of two, bit masks, and the 16-bit indices of the rings. */
module Words {

  /** The number of values of a `u16`: ring indices wrap at this count. */
  const U16: nat := 0x1_0000

  /** The number of values of a `u32`: vsock byte counters wrap at this count. */
  const U32: nat := 0x1_0000_0000

  const PAGE_SIZE: nat := 0x1000

  function Min(a: nat, b: nat): (m: nat) {
    if a <= b then a else b
  }

  function Pow2(k: nat): (p: nat)
    ensures p >= 1
  {
    if k == 0 then 1 else 2 * Pow2(k - 1)
  }

  /** A queue size accepted by `SIZE_OK`: a power of two that fits in a `u16`. */
  ghost predicate IsQueueSize(size: nat) {
    exists k: nat :: k <= 15 && size == Pow2(k)
  }

  /** Bitwise "and" of two natural numbers. */
  function BitAnd(x: nat, y: nat): (r: nat)
  {
    if x == 0 || y == 0 then 0
    else (if x % 2 == 1 && y % 2 == 1 then 1 else 0) + 2 * BitAnd(x / 2, y / 2)
  }

  /** The slot of a count in a ring: counts wrap around to the first slot after the last one. */
  function Slot(c: nat, size: nat): (r: nat)
    requires size > 0
    ensures r < size
  {
    if c < size then c else Slot(c - size, size)
  }

  lemma {:induction false} SlotIsMod(c: nat, size: nat)
    requires size > 0
    ensures Slot(c, size) == c % size
  {
    if c >= size {
      SlotIsMod(c - size, size);
      DivMod(c - size, size);
      var q := (c - size) / size;
      Distribute(size, q + 1, q);
      ModUnique(c, size, q + 1, (c - size) % size);
    } else {
      ModUnique(c, size, 0, c);
    }
  }

  /** Masking with `2^k - 1` is the remainder modulo `2^k`. */
  lemma {:induction false} MaskIsMod(x: nat, k: nat)
    ensures BitAnd(x, Pow2(k) - 1) == x % Pow2(k)
    decreases k
  {
    if k == 0 {
      assert Pow2(0) == 1;
    } else {
      MaskIsMod(x / 2, k - 1);
      MaskStep(x, Pow2(k - 1));
    }
  }

  lemma {:induction false} MaskStep(x: nat, p: nat)
    requires p > 0 && BitAnd(x / 2, p - 1) == (x / 2) % p
    ensures BitAnd(x, 2 * p - 1) == x % (2 * p)
  {
    var half := BitAnd(x / 2, p - 1);
    assert BitAnd(x, 2 * p - 1) == x % 2 + 2 * half by {
      AndOdd(x, p - 1);
    }
    HalfMod(x, p);
  }

  lemma {:induction false} AndOdd(x: nat, y: nat)
    ensures BitAnd(x, 2 * y + 1) == x % 2 + 2 * BitAnd(x / 2, y)
  {
    assert (2 * y + 1) % 2 == 1 && (2 * y + 1) / 2 == y;
  }

  lemma HalfMod(x: nat, p: nat)
    requires p > 0
    ensures x % (2 * p) == x % 2 + 2 * ((x / 2) % p)
  {
    var q, r := (x / 2) / p, (x / 2) % p;
    assert x == 2 * (x / 2) + x % 2;
    assert x / 2 == p * q + r;
    assert 2 * (x / 2) == (2 * p) * q + 2 * r;
    ModUnique(x, 2 * p, q, 2 * r + x % 2);
  }

  lemma ModUnique(x: int, m: nat, q: int, r: int)
    requires m > 0 && 0 <= r < m && x == m * q + r
    ensures x % m == r && x / m == q
  {
    var q', r' := x / m, x % m;
    DivMod(x, m);
    Distribute(m, q, q');
    if q > q' {
      MulAtLeast(m, q - q');
    } else if q < q' {
      Distribute(m, q', q);
      MulAtLeast(m, q' - q);
    }
  }

  lemma DivMod(x: int, m: nat)
    requires m > 0
    ensures x == m * (x / m) + x % m && 0 <= x % m < m
  {
  }

  lemma Distribute(m: int, a: int, b: int)
    ensures m * (a - b) == m * a - m * b
  {
  }

  lemma MulAtLeast(m: nat, d: int)
    requires d >= 1
    ensures m * d >= m
  {
  }

  lemma {:induction false} Pow2Splits(a: nat, b: nat)
    ensures Pow2(a + b) == Pow2(a) * Pow2(b)
  {
    if a > 0 {
      Pow2Splits(a - 1, b);
    }
  }

  lemma Pow2Words()
    ensures Pow2(15) == 32768 && Pow2(16) == 65536
  {
    assert Pow2(4) == 16;
    Pow2Splits(4, 4);
    Pow2Splits(8, 8);
  }

  /** A queue size divides the number of 16-bit indices, with an even quotient. */
  lemma QueueSizeDivides(size: nat) returns (m: nat)
    requires IsQueueSize(size)
    ensures 1 <= size <= 32768 && m > 0 && U16 == size * m
  {
    var k: nat :| k <= 15 && size == Pow2(k);
    m := Pow2(16 - k);
    Pow2Words();
    Pow2Splits(k, 16 - k);
    Pow2Splits(k, 15 - k);
    MulAtLeast(size, Pow2(15 - k));
  }

  lemma ModOfMod(c: nat, size: nat, m: nat)
    requires size > 0 && m > 0
    ensures (c % (size * m)) % size == c % size
  {
    var n := size * m;
    assert n > 0;
    var q := c / n;
    var r := c % n;
    assert c == n * q + r;
    assert c == size * (m * q + r / size) + r % size by {
      assert r == size * (r / size) + r % size;
      assert n * q == size * (m * q);
      assert size * (m * q + r / size) == size * (m * q) + size * (r / size);
    }
    ModUnique(c, size, m * q + r / size, r % size);
  }

  /** `idx & (SIZE - 1)` is the slot of the index. */
  lemma {:induction false} MaskedSlot(idx: nat, size: nat)
    requires IsQueueSize(size)
    ensures size > 0 && BitAnd(idx, size - 1) == Slot(idx, size)
  {
    var k: nat :| k <= 15 && size == Pow2(k);
    MaskIsMod(idx, k);
    SlotIsMod(idx, size);
  }

  /** However often a 16-bit index has wrapped, its slot is the slot of the unbounded count. */
  lemma {:induction false} SlotOfCount(c: nat, size: nat)
    requires IsQueueSize(size)
    ensures size > 0 && Slot(c % U16, size) == Slot(c, size)
  {
    var m := QueueSizeDivides(size);
    ModOfMod(c, size, m);
    SlotIsMod(c, size);
    SlotIsMod(c % U16, size);
  }

  lemma ModsDiffer(c: nat, d: nat, size: nat)
    requires size > 0 && c < d < c + size
    ensures c % size != d % size
  {
    if c % size == d % size {
      DivMod(c, size);
      DivMod(d, size);
      Distribute(size, d / size, c / size);
      if d / size > c / size {
        MulAtLeast(size, d / size - c / size);
      } else if d / size < c / size {
        Distribute(size, c / size, d / size);
        MulAtLeast(size, c / size - d / size);
      }
    }
  }

  /** Two counts less than one lap apart have different slots. */
  lemma {:induction false} SlotsDiffer(c: nat, d: nat, size: nat)
    requires size > 0 && c < d < c + size
    ensures Slot(c, size) != Slot(d, size)
  {
    SlotIsMod(c, size);
    SlotIsMod(d, size);
    ModsDiffer(c, d, size);
  }

  /** Comparing wrapped indices decides equality of counts that are less than `2^16` apart. */
  lemma WrappedEqual(c: nat, d: nat)
    requires c <= d < c + U16
    ensures c % U16 == d % U16 <==> c == d
  {
    if c < d {
      ModsDiffer(c, d, U16);
    }
  }

  /** Incrementing a wrapped index tracks incrementing the count. */
  lemma WrappedNext(c: nat)
    ensures (c % U16 + 1) % U16 == (c + 1) % U16
  {
  }

  // ---------------------------------------------------------------------------------------
  // Concatenation

  function Concat<T>(ss: seq<seq<T>>): (s: seq<T>) {
    if ss == [] then [] else Concat(ss[..|ss| - 1]) + ss[|ss| - 1]
  }

  lemma ConcatAppend<T>(ss: seq<seq<T>>, s: seq<T>)
    ensures Concat(ss + [s]) == Concat(ss) + s
  {
    assert (ss + [s])[..|ss|] == ss;
  }

  lemma {:induction false} ConcatFirst<T>(ss: seq<seq<T>>)
    requires ss != []
    ensures Concat(ss) == ss[0] + Concat(ss[1..])
    decreases |ss|
  {
    var last := |ss| - 1;
    if last == 0 {
      assert ss[..0] == [] && ss[1..] == [];
    } else {
      var middle := ss[1..last];
      ConcatFirst(ss[..last]);
      assert ss[..last][1..] == middle;
      assert ss[1..] == middle + [ss[last]];
      ConcatAppend(middle, ss[last]);
      Regroup(ss[0], Concat(middle), ss[last]);
    }
  }

  lemma Regroup<T>(a: seq<T>, b: seq<T>, c: seq<T>)
    ensures a + b + c == a + (b + c)
  {
  }

  lemma {:induction false} ConcatPrefix<T>(ss: seq<seq<T>>, n: nat)
    requires n <= |ss|
    ensures |Concat(ss[..n])| <= |Concat(ss)|
    decreases |ss|
  {
    if n == |ss| {
      assert ss[..n] == ss;
    } else {
      ConcatPrefix(ss[..|ss| - 1], n);
      assert ss[..|ss| - 1][..n] == ss[..n];
    }
  }
}

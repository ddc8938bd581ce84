/**
 The masked circular-buffer arithmetic of <linux/circ_buf.h> that both rings of the driver use:
 CIRC_CNT, CIRC_SPACE, the advance `(index + 1) & (size - 1)`, and roundup_pow_of_two.
 Index words are 64 bits wide and the masks are bitwise, as in the C text; the lemmas
 show that for a power-of-two size they count exactly.
 */
module Circ {

  const WORD: nat := 0x1_0000_0000_0000_0000

  const U32: nat := 0x1_0000_0000

  function Min(a: int, b: int): int {
    if a < b then a else b
  }

  function Pow2(k: nat): (p: nat)
    ensures p >= 1
  {
    if k == 0 then 1 else 2 * Pow2(k - 1)
  }

  /** A ring size: a power of two that fits the 32-bit field it is stored in. */
  ghost predicate IsSize(size: nat) {
    exists k: nat :: k < 32 && Pow2(k) == size
  }

  /** Bitwise conjunction of two natural numbers. */
  function And(a: nat, b: nat): nat
    decreases a + b
  {
    if a == 0 || b == 0 then 0 else 2 * And(a / 2, b / 2) + (a % 2) * (b % 2)
  }

  /** CIRC_CNT: occupied slots. The subtraction of indices wraps at 64 bits, that of the size field at 32. */
  function CircCnt(head: nat, tail: nat, size: nat): nat {
    And((head - tail) % WORD, (size - 1) % U32)
  }

  /** CIRC_SPACE: free slots, one of the `size` slots always staying unused. */
  function CircSpace(head: nat, tail: nat, size: nat): nat {
    CircCnt(tail, head + 1, size)
  }

  function Next(index: nat, size: nat): nat {
    And(index + 1, (size - 1) % U32)
  }

  /** Index of the highest set bit, counted from one; zero for zero. */
  function Fls(x: nat): nat {
    if x == 0 then 0 else 1 + Fls(x / 2)
  }

  function RoundupPow2(n: nat): nat
    requires n >= 1
  {
    Pow2(Fls(n - 1))
  }

  /** The size of a ring created for `requested` elements, as the 32-bit size field keeps it. */
  function StoredSize(requested: nat): nat {
    RoundupPow2(requested + 1) % U32
  }

  // ---------- masks are remainders ----------

  lemma DivModBasics(x: int, q: int, n: nat)
    requires n >= 1
    ensures (x + q * n) % n == x % n
  {
    var a, b := (x + q * n) / n, x / n;
    assert (x + q * n) % n - x % n == (q - a + b) * n;
    Multiple(q - a + b, n, (x + q * n) % n - x % n);
  }

  lemma Multiple(z: int, n: int, d: int)
    requires d == z * n && -n < d < n
    ensures d == 0
  {
    if z >= 1 {
      Monotone(1, z, n);
      assert false;
    } else if z <= -1 {
      Monotone(z, -1, n);
      assert false;
    }
  }

  lemma Monotone(a: int, b: int, n: int)
    requires a <= b && 0 <= n
    ensures a * n <= b * n
  {
  }

  lemma HalvesOfRemainder(x: nat, half: nat)
    requires half >= 1
    ensures x % (2 * half) == 2 * ((x / 2) % half) + x % 2
  {
    var q, r := (x / 2) / half, (x / 2) % half;
    assert x / 2 == q * half + r;
    var y := 2 * r + x % 2;
    assert x == y + q * (2 * half) by {
      assert q * (2 * half) == 2 * (q * half);
    }
    DivModBasics(y, q, 2 * half);
    SmallMod(y, 2 * half);
  }

  lemma AndStep(x: nat, half: nat)
    requires half >= 1
    ensures And(x, 2 * half - 1) == 2 * And(x / 2, half - 1) + x % 2
  {
    assert (2 * half - 1) / 2 == half - 1 && (2 * half - 1) % 2 == 1;
  }

  lemma AndZero(x: nat)
    ensures And(x, 0) == 0 && x % 1 == 0
  {
  }

  lemma AndMaskStep(x: nat, half: nat)
    requires half >= 1 && And(x / 2, half - 1) == (x / 2) % half
    ensures And(x, 2 * half - 1) == x % (2 * half)
  {
    hide And;
    AndStep(x, half);
    HalvesOfRemainder(x, half);
  }

  lemma {:induction false} AndMask(x: nat, k: nat)
    ensures And(x, Pow2(k) - 1) == x % Pow2(k)
    decreases k
  {
    hide And;
    if k == 0 {
      AndZero(x);
    } else {
      AndMask(x / 2, k - 1);
      AndMaskStep(x, Pow2(k - 1));
    }
  }

  lemma {:induction false} Pow2Sum(a: nat, b: nat)
    ensures Pow2(a + b) == Pow2(a) * Pow2(b)
    decreases a
  {
    if a > 0 { Pow2Sum(a - 1, b); }
  }

  lemma WordIsPow2()
    ensures Pow2(64) == WORD && Pow2(32) == U32
  {
    assert Pow2(8) == 0x100;
    Pow2Sum(8, 8);
    assert Pow2(16) == 0x1_0000;
    Pow2Sum(16, 16);
    assert Pow2(32) == 0x1_0000_0000;
    Pow2Sum(32, 32);
  }

  /** Wrapping at a multiple of `n` does not change the remainder by `n`. */
  lemma WrapKeepsRemainder(d: int, n: nat, m: nat)
    requires n >= 1 && m >= 1
    ensures m * n >= 1 && (d % (m * n)) % n == d % n
  {
    Monotone(1, m, n);
    var w := m * n;
    var q := d / w;
    assert d == d % w + (q * m) * n by {
      assert q * (m * n) == (q * m) * n;
    }
    DivModBasics(d % w, q * m, n);
  }

  /** A difference wrapped at the word width still has the right remainder. */
  lemma WrapThenMask(d: int, k: nat)
    requires k <= 64
    ensures And(d % WORD, Pow2(k) - 1) == d % Pow2(k)
  {
    AndMask(d % WORD, k);
    WordIsPow2();
    Pow2Sum(64 - k, k);
    WrapKeepsRemainder(d, Pow2(k), Pow2(64 - k));
  }

  /** The exponent of a size, whose mask fits the 32-bit field. */
  lemma SizeExponent(size: nat) returns (k: nat)
    requires IsSize(size)
    ensures k < 32 && Pow2(k) == size && (size - 1) % U32 == size - 1
  {
    k :| k < 32 && Pow2(k) == size;
    Pow2Monotone(k, 32);
    WordIsPow2();
    SmallMod(size - 1, U32);
  }

  /** The difference of two remainders has the remainder of the difference. */
  lemma ModDiff(a: int, b: int, c: int, n: nat)
    requires n >= 1
    ensures (a % n - b % n + c) % n == (a - b + c) % n
  {
    assert a - b + c == (a % n - b % n + c) + (a / n - b / n) * n by {
      assert a == a / n * n + a % n && b == b / n * n + b % n;
    }
    DivModBasics(a % n - b % n + c, a / n - b / n, n);
  }

  lemma SmallMod(d: int, n: nat)
    requires 0 <= d < n
    ensures d % n == d
  {
  }

  /** Two counters less than a ring apart never share a slot. */
  lemma SlotsDistinct(a: nat, b: nat, size: nat)
    requires a < b < a + size
    ensures a % size != b % size
  {
    ModDiff(b, a, 0, size);
    SmallMod(b - a, size);
  }

  lemma CountExact(size: nat, published: nat, retired: nat)
    requires IsSize(size) && retired <= published < retired + size
    ensures CircCnt(published % size, retired % size, size) == published - retired
  {
    var k := SizeExponent(size);
    WrapThenMask(published % size - retired % size, k);
    ModDiff(published, retired, 0, size);
    SmallMod(published - retired, size);
  }

  lemma SpaceExact(size: nat, published: nat, retired: nat)
    requires IsSize(size) && retired <= published < retired + size
    ensures CircSpace(published % size, retired % size, size) == size - 1 - (published - retired)
  {
    var k := SizeExponent(size);
    WrapThenMask(retired % size - (published % size + 1), k);
    ModDiff(retired, published, -1, size);
    DivModBasics(retired - published - 1, 1, size);
    SmallMod(size - 1 - (published - retired), size);
  }

  lemma NextExact(size: nat, n: nat)
    requires IsSize(size)
    ensures size >= 1 && Next(n % size, size) == (n + 1) % size
  {
    var k := SizeExponent(size);
    AndMask(n % size + 1, k);
    SmallMod(0, size);
    ModDiff(n, 0, 1, size);
  }

  /**
   The masked arithmetic refines unbounded counters. `published` and `retired` are the numbers of
   elements ever put in and taken out; the ring stores only their remainders, yet the macros
   recover the exact count and the exact space, and the advance steps the counter by one.
   */
  lemma CountersExact(size: nat, published: nat, retired: nat)
    requires IsSize(size) && retired <= published < retired + size
    ensures CircCnt(published % size, retired % size, size) == published - retired
    ensures CircSpace(published % size, retired % size, size) == size - 1 - (published - retired)
    ensures Next(published % size, size) == (published + 1) % size
    ensures Next(retired % size, size) == (retired + 1) % size
  {
    CountExact(size, published, retired);
    SpaceExact(size, published, retired);
    NextExact(size, published);
    NextExact(size, retired);
  }

  // ---------- sizing ----------

  lemma {:induction false} FlsBounds(x: nat)
    ensures x < Pow2(Fls(x))
    ensures x > 0 ==> Pow2(Fls(x)) <= 2 * x
  {
    if x > 0 {
      FlsBounds(x / 2);
    }
  }

  lemma {:induction false} Pow2Monotone(a: nat, b: nat)
    requires a <= b
    ensures Pow2(a) <= Pow2(b)
    decreases b
  {
    if a < b { Pow2Monotone(a, b - 1); }
  }

  /** roundup_pow_of_two yields the least power of two that is not below its argument. */
  lemma RoundupIsLeast(n: nat, k: nat)
    requires n >= 1
    ensures RoundupPow2(n) >= n
    ensures Pow2(k) >= n ==> RoundupPow2(n) <= Pow2(k)
  {
    var m := Fls(n - 1);
    assert n == 1 ==> m == 0;
    assert m > 0 ==> Pow2(m) == 2 * Pow2(m - 1);
    hide Fls, Pow2;
    FlsBounds(n - 1);
    if k >= m {
      Pow2Monotone(m, k);
    } else {
      Pow2Monotone(k, m - 1);
    }
  }

  /** The rounded size fits up to 2^31; for more it is 2^32, one too many for the 32-bit field. */
  lemma RoundupFits(n: nat)
    requires 1 <= n <= U32
    ensures IsSize(RoundupPow2(n)) <==> n <= Pow2(31)
    ensures n > Pow2(31) ==> RoundupPow2(n) == U32
  {
    var m := Fls(n - 1);
    WordIsPow2();
    RoundupIsLeast(n, 31);
    RoundupIsLeast(n, 32);
    hide Fls;
    if n <= Pow2(31) {
      if m >= 32 {
        Pow2Monotone(32, m);
        assert false;
      }
    } else if IsSize(RoundupPow2(n)) {
      var k := SizeExponent(RoundupPow2(n));
      Pow2Monotone(k, 31);
      assert false;
    } else if m < 32 {
      assert false;
    } else {
      Pow2Monotone(32, m);
    }
  }

  /**
   The size of a ring created for `requested` elements. It is a legal size exactly for fewer than 2^31; then
   the ring refuses an element only when at least `requested` are outstanding. From 2^31 on the size field
   holds 0: a ring without slots, whose macros count as if it had 2^32 of them, so that it does not refuse.
   */
  lemma RingSizing(requested: nat, published: nat, retired: nat)
    requires requested + 1 < U32
    ensures IsSize(StoredSize(requested)) <==> requested < Pow2(31)
    ensures requested < Pow2(31) ==>
              var size := StoredSize(requested);
              && size == RoundupPow2(requested + 1)
              && (retired <= published < retired + size ==>
                    CircSpace(published % size, retired % size, size) < 1 ==> published - retired >= requested)
    ensures requested >= Pow2(31) ==>
              && StoredSize(requested) == 0
              && (retired <= published < retired + U32 ==>
                    CircSpace(published % U32, retired % U32, 0) == U32 - 1 - (published - retired))
  {
    WordIsPow2();
    hide Pow2, Fls, RoundupPow2, CircSpace, IsSize;
    RoundupIsLeast(requested + 1, 0);
    RoundupFits(requested + 1);
    if requested < Pow2(31) {
      StoredFits(requested);
      var size := StoredSize(requested);
      if retired <= published < retired + size {
        CountersExact(size, published, retired);
      }
    } else {
      ZeroIsNoSize();
      if retired <= published < retired + U32 { NoSlots(published, retired); }
    }
  }

  lemma StoredFits(requested: nat)
    requires IsSize(RoundupPow2(requested + 1))
    ensures StoredSize(requested) == RoundupPow2(requested + 1)
  {
    var k := SizeExponent(RoundupPow2(requested + 1));
    Pow2Monotone(k, 31);
    WordIsPow2();
    SmallMod(RoundupPow2(requested + 1), U32);
  }

  lemma ZeroIsNoSize()
    ensures !IsSize(0)
  {
  }

  /** With a size field of 0 the mask is 2^32 - 1. */
  lemma NoSlots(published: nat, retired: nat)
    requires retired <= published < retired + U32
    ensures CircSpace(published % U32, retired % U32, 0) == U32 - 1 - (published - retired)
  {
    WordIsPow2();
    hide Pow2, And;
    WrapThenMask(retired % U32 - (published % U32 + 1), 32);
    ModDiff(retired, published, -1, U32);
    DivModBasics(retired - published - 1, 1, U32);
    SmallMod(U32 - 1 - (published - retired), U32);
  }

  /** The least request that goes wrong: the buffer has no slot, and the first element is not refused. */
  lemma OversizedExample()
    ensures StoredSize(0x8000_0000) == 0 && CircSpace(0, 0, StoredSize(0x8000_0000)) == 0xFFFF_FFFF
  {
    HalfWord();
    hide Pow2, StoredSize, CircSpace;
    RingSizing(0x8000_0000, 0, 0);
  }

  lemma HalfWord()
    ensures Pow2(31) == 0x8000_0000
  {
    WordIsPow2();
  }

  // ---------- a ring and the sequence it stands for ----------

  datatype Ring<T> = Ring(size: nat, slots: seq<T>, head: nat, tail: nat)

  /**
   `r` stands for `history` with its first `retired` elements taken out: the indices are the
   remainders of the two counts, and every element from number `from` on is in its slot.
   `from` is `retired`, or one more while the consumer works on the oldest slot in place.
   */
  ghost predicate Refines<T>(r: Ring<T>, history: seq<T>, retired: nat, from: nat) {
    && IsSize(r.size)
    && |r.slots| == r.size
    && retired <= |history| < retired + r.size
    && retired <= from <= retired + 1
    && r.head == |history| % r.size
    && r.tail == retired % r.size
    && (forall k :: from <= k < |history| ==> r.slots[k % r.size] == history[k])
  }

  /** The macros on the two stored indices give the exact occupancy of the sequence. */
  lemma RingCounts<T>(r: Ring<T>, history: seq<T>, retired: nat, from: nat)
    requires Refines(r, history, retired, from)
    ensures CircCnt(r.head, r.tail, r.size) == |history| - retired
    ensures CircSpace(r.head, r.tail, r.size) == r.size - 1 - (|history| - retired)
    ensures Next(r.head, r.size) == (|history| + 1) % r.size
    ensures Next(r.tail, r.size) == (retired + 1) % r.size
  {
    CountersExact(r.size, |history|, retired);
  }

  lemma RingFits<T>(r: Ring<T>, history: seq<T>, retired: nat, from: nat)
    requires Refines(r, history, retired, from)
    ensures r.size >= 1 && |r.slots| == r.size && r.head < r.size && r.tail < r.size
    ensures 0 <= |history| - retired <= r.size - 1
    ensures from == retired < |history| ==> r.slots[r.tail] == history[retired]
  {
  }

  /** The slot at the head is not live: writing it, even with junk, changes nothing. */
  lemma WriteHeadSlot<T>(r: Ring<T>, history: seq<T>, retired: nat, from: nat, x: T)
    requires Refines(r, history, retired, from)
    ensures r.head < |r.slots|
    ensures Refines(r.(slots := r.slots[r.head := x]), history, retired, from)
    ensures |history| > retired ==> r.head != r.tail
  {
    forall k | retired <= k < |history|
      ensures k % r.size != r.head
    {
      SlotsDistinct(k, |history|, r.size);
    }
  }

  /** Publishing the filled head slot appends its contents, provided a slot stays unused. */
  lemma PublishHead<T>(r: Ring<T>, history: seq<T>, retired: nat, from: nat)
    requires Refines(r, history, retired, from)
    requires |history| - retired <= r.size - 2
    requires from <= |history|
    ensures r.head < |r.slots|
    ensures Refines(r.(head := Next(r.head, r.size)), history + [r.slots[r.head]], retired, from)
  {
    RingCounts(r, history, retired, from);
  }

  /** The oldest slot may be rewritten once its contents are no longer vouched for. */
  lemma WriteTailSlot<T>(r: Ring<T>, history: seq<T>, retired: nat, x: T)
    requires Refines(r, history, retired, retired + 1)
    ensures r.tail < |r.slots|
    ensures Refines(r.(slots := r.slots[r.tail := x]), history, retired, retired + 1)
  {
    forall k | retired + 1 <= k < |history|
      ensures k % r.size != r.tail
    {
      SlotsDistinct(retired, k, r.size);
    }
  }

  lemma RetireTail<T>(r: Ring<T>, history: seq<T>, retired: nat, from: nat)
    requires Refines(r, history, retired, from)
    requires |history| > retired
    ensures Refines(r.(tail := Next(r.tail, r.size)), history, retired + 1, retired + 1)
  {
    RingCounts(r, history, retired, from);
  }

  /** Exclusive access: a live slot is never the one at the head, where the producer writes. */
  lemma LiveSlotIsNotHead<T>(r: Ring<T>, history: seq<T>, retired: nat, from: nat, k: nat)
    requires Refines(r, history, retired, from)
    requires retired <= k < |history|
    ensures k % r.size != r.head
  {
    SlotsDistinct(k, |history|, r.size);
  }

  /** The live slots together: none is at the head, the oldest is at the tail, and they hold what was published. */
  lemma LiveSlots<T>(r: Ring<T>, history: seq<T>, retired: nat, from: nat)
    requires Refines(r, history, retired, from)
    ensures r.size >= 1 && |r.slots| == r.size && r.head < r.size && r.tail < r.size && r.tail == retired % r.size
    ensures forall k :: retired <= k < |history| ==> k % r.size != r.head
    ensures forall k :: from <= k < |history| ==> r.slots[k % r.size] == history[k]
    ensures retired < |history| ==> r.tail != r.head
  {
    hide IsSize;
    RingFits(r, history, retired, from);
    forall k | retired <= k < |history|
      ensures k % r.size != r.head
    {
      LiveSlotIsNotHead(r, history, retired, from, k);
    }
  }

  /** The contents of the live slots, oldest first, as the consumer would read them. */
  ghost function Live<T>(r: Ring<T>): (s: seq<T>)
    requires r.size >= 1 && |r.slots| == r.size
  {
    seq(CircCnt(r.head, r.tail, r.size), k requires 0 <= k => r.slots[(r.tail + k) % r.size])
  }

  /** Reading the live slots gives the part of the history that is still in the ring. */
  lemma LiveIsHistory<T>(r: Ring<T>, history: seq<T>, retired: nat, from: nat)
    requires Refines(r, history, retired, from)
    ensures r.size >= 1 && |Live(r)| == |history| - retired
    ensures forall k :: from - retired <= k < |Live(r)| ==> Live(r)[k] == history[retired + k]
    ensures |Live(r)| > 0 ==> Live(r)[0] == r.slots[r.tail]
  {
    RingCounts(r, history, retired, from);
    hide CircCnt, IsSize;
    forall k | 0 <= k < |Live(r)|
      ensures Live(r)[k] == r.slots[(retired + k) % r.size]
    {
      TailOffset(retired, k, r.size);
    }
  }

  lemma TailOffset(n: nat, k: nat, size: nat)
    requires size >= 1
    ensures (n % size + k) % size == (n + k) % size
  {
    SmallMod(0, size);
    ModDiff(n, 0, k, size);
  }
}

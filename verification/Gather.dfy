/**
 Scatter/gather translation. A work request names up to four segments of virtual memory; posting it
 turns them into a page-granular list of physical ranges. This module states what that list is,
 segment by segment, and proves that walking it visits the translated address of every byte.
 The methods that build it in place are in module WorkQueue.
 */
module Gather {
  import opened Circ

  const SGE_PER_WQE: nat := 4
  const MAX_IOVLEN: nat := 1024
  const MR_MAX: nat := 100

  /** One entry of an I/O vector: a physical base address and a length in bytes. */
  datatype Iov = Iov(base: nat, len: nat)

  /** A registered memory region. `pages[i]` is the physical base of its i-th pinned page. */
  datatype Mr =
    | DmaMr
    | UserMr(va: nat, vaOffset: nat, length: nat, pages: seq<nat>)

  datatype MrSlot = NoMr | Registered(mr: Mr)

  datatype Sge = Sge(addr: nat, length: nat, lkey: nat)

  datatype Request = Request(wrId: nat, numSge: int, sgList: seq<Sge>)

  /** The segments that are mapped: the first min(num_sge, 4), none for a negative count. */
  function Segments(req: Request): (segs: seq<Sge>)
    requires req.numSge <= |req.sgList|
    ensures |segs| <= SGE_PER_WQE
  {
    if req.numSge <= 0 then []
    else if req.numSge <= SGE_PER_WQE then req.sgList[..req.numSge]
    else req.sgList[..SGE_PER_WQE]
  }

  // ---------- what callers guarantee ----------

  /** The page table covers the region, whose first byte lies `vaOffset` into its first page. */
  ghost predicate ValidMr(P: nat, mr: Mr) {
    P >= 1 && (mr.UserMr? ==> mr.vaOffset < P && mr.vaOffset + mr.length <= |mr.pages| * P)
  }

  ghost predicate SgeInside(P: nat, mr: Mr, sge: Sge) {
    && ValidMr(P, mr)
    && sge.length < U32
    && (mr.UserMr? ==> mr.va <= sge.addr && sge.addr + sge.length <= mr.va + mr.length)
  }

  ghost predicate ValidKey(P: nat, mrs: seq<MrSlot>, sge: Sge) {
    sge.lkey < |mrs| && (mrs[sge.lkey].Registered? ==> SgeInside(P, mrs[sge.lkey].mr, sge))
  }

  /**
   What the code relies on without checking: keys are in range, a segment lies inside its region,
   the mapped segments are all DMA or all user memory, and DMA lengths add up below 2^32.
   A key whose table entry is still null is allowed: that request is refused.
   */
  ghost predicate WellFormed(P: nat, mrs: seq<MrSlot>, req: Request) {
    && P >= 1
    && |mrs| == MR_MAX
    && req.numSge <= |req.sgList|
    && (forall i :: 0 <= i < |Segments(req)| ==> ValidKey(P, mrs, Segments(req)[i]))
    && (|| AllKind(mrs, Segments(req), false)
        || (AllKind(mrs, Segments(req), true) && TotalLength(Segments(req), |Segments(req)|) < U32))
  }

  ghost predicate AllKind(mrs: seq<MrSlot>, segs: seq<Sge>, dma: bool) {
    forall i :: 0 <= i < |segs| && segs[i].lkey < |mrs| && mrs[segs[i].lkey].Registered? ==>
      mrs[segs[i].lkey].mr.DmaMr? == dma
  }

  predicate AllRegistered(mrs: seq<MrSlot>, segs: seq<Sge>, n: nat)
    requires n <= |segs|
  {
    forall i :: 0 <= i < n ==> segs[i].lkey < |mrs| && mrs[segs[i].lkey].Registered?
  }

  /** Each of the first `n` segments has a region of a valid form around it. */
  ghost predicate Resolved(P: nat, mrs: seq<MrSlot>, segs: seq<Sge>, n: nat)
    requires n <= |segs|
  {
    && AllRegistered(mrs, segs, n)
    && (forall i :: 0 <= i < n ==> SgeInside(P, mrs[segs[i].lkey].mr, segs[i]))
  }

  function MrOf(mrs: seq<MrSlot>, sge: Sge): Mr
    requires sge.lkey < |mrs| && mrs[sge.lkey].Registered?
  {
    mrs[sge.lkey].mr
  }

  // ---------- the meaning: one physical address for every virtual byte ----------

  lemma PageInTable(P: nat, o: nat, count: nat)
    requires P >= 1 && o < count * P
    ensures o / P < count
  {
    assert o == (o / P) * P + o % P;
    if o / P >= count {
      Monotone(count, o / P, P);
      assert false;
    }
  }

  /** The address `o` bytes into a page table; 0 past its end. */
  function At(P: nat, pages: seq<nat>, o: nat): nat
    requires P >= 1
  {
    if o / P < |pages| then pages[o / P] + o % P else 0
  }

  /** Page-table walk: DMA regions are mapped one to one. */
  function Translate(P: nat, mr: Mr, va: nat): nat
    requires P >= 1 && (mr.UserMr? ==> mr.va <= va)
  {
    match mr
    case DmaMr => va
    case UserMr(base, vaOffset, _, pages) => At(P, pages, (va - base) + vaOffset)
  }

  /** The physical addresses of a segment's bytes, in order. */
  ghost function SegmentAddresses(P: nat, mr: Mr, sge: Sge): (s: seq<int>)
    requires SgeInside(P, mr, sge)
    ensures |s| == sge.length
  {
    seq(sge.length, k requires 0 <= k => Translate(P, mr, sge.addr + k))
  }

  /** The addresses of the first `n` segments, in order. */
  ghost function Addresses(P: nat, mrs: seq<MrSlot>, segs: seq<Sge>, n: nat): seq<int>
    requires n <= |segs| && Resolved(P, mrs, segs, n)
  {
    if n == 0 then []
    else Addresses(P, mrs, segs, n - 1) + SegmentAddresses(P, MrOf(mrs, segs[n - 1]), segs[n - 1])
  }

  function TotalLength(segs: seq<Sge>, n: nat): nat
    requires n <= |segs|
  {
    if n == 0 then 0 else TotalLength(segs, n - 1) + segs[n - 1].length
  }

  /** The addresses visited by walking an I/O vector from its start. */
  ghost function Bytes(iov: seq<Iov>): seq<int> {
    if iov == [] then []
    else Range(iov[0]) + Bytes(iov[1..])
  }

  function Range(e: Iov): seq<int> {
    seq(e.len, k => e.base + k)
  }

  // ---------- the list that is built ----------

  /** `len` bytes from `o` bytes into the page table on, cut at page boundaries. */
  ghost function Chunks(P: nat, pages: seq<nat>, o: nat, len: nat): seq<Iov>
    requires P >= 1 && o + len <= |pages| * P
    decreases len
  {
    if len == 0 then []
    else
      PageInTable(P, o, |pages|);
      var c := Chunk(P, o % P, len);
      [Iov(pages[o / P] + o % P, c)] + Chunks(P, pages, o + c, len - c)
  }

  /** min(len, PAGE_SIZE - off). */
  function Chunk(P: nat, off: nat, len: nat): (c: nat)
    requires off < P
    ensures c <= len && (len > 0 ==> c > 0)
  {
    if len < P - off then len else P - off
  }

  ghost function SegmentIovs(P: nat, mr: Mr, sge: Sge): seq<Iov>
    requires SgeInside(P, mr, sge)
  {
    if mr.DmaMr? then [Iov(sge.addr, sge.length)]
    else Chunks(P, mr.pages, Offset(mr, sge), sge.length)
  }

  ghost function Iovs(P: nat, mrs: seq<MrSlot>, segs: seq<Sge>, n: nat): seq<Iov>
    requires n <= |segs| && Resolved(P, mrs, segs, n)
  {
    if n == 0 then []
    else Iovs(P, mrs, segs, n - 1) + SegmentIovs(P, MrOf(mrs, segs[n - 1]), segs[n - 1])
  }

  /** Offset of a segment's first byte from the start of its region's first page. */
  function Offset(mr: Mr, sge: Sge): nat
    requires mr.UserMr? && mr.va <= sge.addr
  {
    (sge.addr - mr.va) + mr.vaOffset
  }

  /** Entries reserved for one segment by the sizing pass. */
  function Reserved(P: nat, mr: Mr, sge: Sge): nat
    requires P >= 1 && (mr.UserMr? ==> mr.va <= sge.addr)
  {
    if mr.DmaMr? then 1 else (sge.length + Offset(mr, sge) % P) / P + 1
  }

  /** Entries reserved for the first `n` segments. */
  ghost function Estimate(P: nat, mrs: seq<MrSlot>, segs: seq<Sge>, n: nat): nat
    requires n <= |segs| && Resolved(P, mrs, segs, n)
  {
    if n == 0 then 0
    else Estimate(P, mrs, segs, n - 1) + Reserved(P, MrOf(mrs, segs[n - 1]), segs[n - 1])
  }

  // ---------- walking the list visits the translated bytes ----------

  lemma {:induction false} BytesConcat(a: seq<Iov>, b: seq<Iov>)
    ensures Bytes(a + b) == Bytes(a) + Bytes(b)
  {
    if a == [] {
      assert a + b == b;
    } else {
      var ab := a + b;
      assert ab[0] == a[0] && ab[1..] == a[1..] + b;
      BytesConcat(a[1..], b);
      var x, y, z := Range(a[0]), Bytes(a[1..]), Bytes(b);
      assert Bytes(ab) == x + (y + z);
      assert x + (y + z) == (x + y) + z;
      assert Bytes(a) == x + y;
    }
  }

  /** Within a page the page number stays and the offset grows. */
  lemma SamePage(P: nat, o: nat, k: nat)
    requires P >= 1 && o % P + k < P
    ensures (o + k) / P == o / P && (o + k) % P == o % P + k
  {
    assert o + k == (o % P + k) + (o / P) * P;
    DivModBasics(o % P + k, o / P, P);
    SmallMod(o % P + k, P);
    assert (o + k) == (o + k) / P * P + (o + k) % P;
    assert ((o + k) / P - o / P) * P == 0;
    Multiple0((o + k) / P - o / P, P);
  }

  lemma Multiple0(z: int, n: nat)
    requires n >= 1 && z * n == 0
    ensures z == 0
  {
  }

  lemma SamePageAt(P: nat, pages: seq<nat>, o: nat, k: nat)
    requires P >= 1 && o / P < |pages| && o % P + k < P
    ensures At(P, pages, o + k) == pages[o / P] + o % P + k
  {
    SamePage(P, o, k);
  }

  lemma {:induction false} ChunksLength(P: nat, pages: seq<nat>, o: nat, len: nat)
    requires P >= 1 && o + len <= |pages| * P
    ensures |Bytes(Chunks(P, pages, o, len))| == len
    decreases len
  {
    if len > 0 {
      var c := Chunk(P, o % P, len);
      ChunksLength(P, pages, o + c, len - c);
      assert Chunks(P, pages, o, len)[1..] == Chunks(P, pages, o + c, len - c);
    }
  }

  lemma {:induction false} ChunksVisit(P: nat, pages: seq<nat>, o: nat, len: nat, k: nat)
    requires P >= 1 && o + len <= |pages| * P && k < len
    ensures |Bytes(Chunks(P, pages, o, len))| == len
    ensures Bytes(Chunks(P, pages, o, len))[k] == At(P, pages, o + k)
    decreases len
  {
    ChunksLength(P, pages, o, len);
    var c := Chunk(P, o % P, len);
    var all, rest := Chunks(P, pages, o, len), Chunks(P, pages, o + c, len - c);
    PageInTable(P, o, |pages|);
    assert all[1..] == rest;
    if k < c {
      SamePageAt(P, pages, o, k);
    } else {
      ChunksVisit(P, pages, o + c, len - c, k - c);
    }
  }

  lemma ByteVisits(P: nat, mr: Mr, sge: Sge, k: nat)
    requires SgeInside(P, mr, sge) && mr.UserMr? && k < sge.length
    ensures |Bytes(SegmentIovs(P, mr, sge))| == sge.length
    ensures Bytes(SegmentIovs(P, mr, sge))[k] == Translate(P, mr, sge.addr + k)
  {
    ChunksVisit(P, mr.pages, Offset(mr, sge), sge.length, k);
    assert (sge.addr + k - mr.va) + mr.vaOffset == Offset(mr, sge) + k;
  }

  lemma SegmentVisits(P: nat, mr: Mr, sge: Sge)
    requires SgeInside(P, mr, sge)
    ensures Bytes(SegmentIovs(P, mr, sge)) == SegmentAddresses(P, mr, sge)
  {
    if mr.UserMr? {
      ChunksLength(P, mr.pages, Offset(mr, sge), sge.length);
      forall k | 0 <= k < sge.length
        ensures Bytes(SegmentIovs(P, mr, sge))[k] == Translate(P, mr, sge.addr + k)
      {
        ByteVisits(P, mr, sge, k);
      }
    } else {
      var e := Iov(sge.addr, sge.length);
      assert [e][1..] == [];
      assert SegmentIovs(P, mr, sge) == [e];
      assert Bytes([e]) == Range(e) + Bytes([]) == Range(e);
      forall k | 0 <= k < sge.length
        ensures Range(e)[k] == Translate(P, mr, sge.addr + k)
      {
        assert mr == DmaMr;
      }
    }
  }

  /** The last of `n` segments, and those before it. */
  lemma ResolvedStep(P: nat, mrs: seq<MrSlot>, segs: seq<Sge>, n: nat)
    requires 0 < n <= |segs| && Resolved(P, mrs, segs, n)
    ensures Resolved(P, mrs, segs, n - 1)
    ensures segs[n - 1].lkey < |mrs| && mrs[segs[n - 1].lkey].Registered?
    ensures SgeInside(P, MrOf(mrs, segs[n - 1]), segs[n - 1])
  {
    hide SgeInside;
  }

  lemma IovsParts(P: nat, mrs: seq<MrSlot>, segs: seq<Sge>, n: nat)
    requires 0 < n <= |segs| && Resolved(P, mrs, segs, n)
    ensures Resolved(P, mrs, segs, n - 1)
    ensures segs[n - 1].lkey < |mrs| && mrs[segs[n - 1].lkey].Registered?
    ensures SgeInside(P, MrOf(mrs, segs[n - 1]), segs[n - 1])
    ensures var mr, sge := MrOf(mrs, segs[n - 1]), segs[n - 1];
            && Iovs(P, mrs, segs, n) == Iovs(P, mrs, segs, n - 1) + SegmentIovs(P, mr, sge)
            && Addresses(P, mrs, segs, n) == Addresses(P, mrs, segs, n - 1) + SegmentAddresses(P, mr, sge)
  {
    ResolvedStep(P, mrs, segs, n);
    hide SgeInside, Resolved, SegmentIovs, SegmentAddresses;
  }

  lemma NoSegments(P: nat, mrs: seq<MrSlot>, segs: seq<Sge>)
    requires Resolved(P, mrs, segs, 0)
    ensures Iovs(P, mrs, segs, 0) == [] && Bytes([]) == []
    ensures Addresses(P, mrs, segs, 0) == [] && TotalLength(segs, 0) == 0 && Estimate(P, mrs, segs, 0) == 0
  {
  }

  lemma {:induction false} IovsVisit(P: nat, mrs: seq<MrSlot>, segs: seq<Sge>, n: nat)
    requires n <= |segs| && Resolved(P, mrs, segs, n)
    ensures Bytes(Iovs(P, mrs, segs, n)) == Addresses(P, mrs, segs, n)
    ensures |Addresses(P, mrs, segs, n)| == TotalLength(segs, n)
    decreases n
  {
    hide Resolved, SgeInside, Iovs, Addresses, Bytes, SegmentIovs, SegmentAddresses;
    if n == 0 {
      NoSegments(P, mrs, segs);
    } else {
      IovsParts(P, mrs, segs, n);
      var mr, sge := MrOf(mrs, segs[n - 1]), segs[n - 1];
      IovsVisit(P, mrs, segs, n - 1);
      SegmentVisits(P, mr, sge);
      BytesConcat(Iovs(P, mrs, segs, n - 1), SegmentIovs(P, mr, sge));
    }
  }

  // ---------- the sizing pass bounds the filling pass ----------

  lemma DivStep(x: nat, P: nat)
    requires P >= 1 && x >= P
    ensures x / P == (x - P) / P + 1
  {
    assert x - P == (x - P) / P * P + (x - P) % P;
    assert x == ((x - P) / P + 1) * P + (x - P) % P;
    QuotientIs(x, (x - P) / P + 1, (x - P) % P, P);
  }

  lemma QuotientIs(x: nat, q: nat, r: nat, P: nat)
    requires P >= 1 && x == q * P + r && r < P
    ensures x / P == q && x % P == r
  {
    assert x == x / P * P + x % P;
    assert (x / P - q) * P == r - x % P;
    Multiple(x / P - q, P, r - x % P);
    Multiple0(x / P - q, P);
  }

  function CeilCount(P: nat, off: nat, len: nat): nat
    requires P >= 1
  {
    if len == 0 then 0 else (off + len - 1) / P + 1
  }

  lemma CeilCountStep(P: nat, off: nat, len: nat)
    requires off < P && len > 0
    ensures CeilCount(P, off, len) == 1 + CeilCount(P, 0, len - Chunk(P, off, len))
  {
    if len > P - off {
      DivStep(off + len - 1, P);
    } else {
      QuotientIs(off + len - 1, 0, off + len - 1, P);
    }
  }

  lemma NextPage(P: nat, o: nat)
    requires P >= 1
    ensures (o + (P - o % P)) % P == 0
    ensures (o + (P - o % P)) / P == o / P + 1
  {
    assert o == o / P * P + o % P;
    assert o + (P - o % P) == (o / P + 1) * P;
    QuotientIs(o + (P - o % P), o / P + 1, 0, P);
  }

  /** Number of chunks: the length and the offset in the first page, divided rounding up. */
  lemma {:induction false} ChunkCount(P: nat, pages: seq<nat>, o: nat, len: nat)
    requires P >= 1 && o + len <= |pages| * P
    ensures |Chunks(P, pages, o, len)| == CeilCount(P, o % P, len)
    decreases len
  {
    if len > 0 {
      var c := Chunk(P, o % P, len);
      ChunkCount(P, pages, o + c, len - c);
      CeilCountStep(P, o % P, len);
      NextPage(P, o);
    }
  }

  /** Going one below a number crosses into the quotient before it just at a multiple. */
  lemma Predecessor(P: nat, x: nat)
    requires P >= 1 && x >= 1
    ensures (x - 1) / P == x / P - if x % P == 0 then 1 else 0
  {
    var q, r := x / P, x % P;
    assert x == q * P + r;
    if r > 0 {
      QuotientIs(x - 1, q, r - 1, P);
    } else {
      assert (q - 1) * P == q * P - P;
      if q == 0 { assert false; }
      QuotientIs(x - 1, q - 1, P - 1, P);
    }
  }

  lemma SlackArithmetic(P: nat, off: nat, len: nat)
    requires off < P
    ensures CeilCount(P, off, len) <= (len + off) / P + 1 <= CeilCount(P, off, len) + 1
    ensures (len + off) / P + 1 == CeilCount(P, off, len) <==> len > 0 && (len + off) % P != 0
  {
    if len == 0 {
      QuotientIs(off, 0, off, P);
    } else {
      Predecessor(P, len + off);
    }
  }

  /**
   One segment: the reservation is at most one entry too large, and it is exact just when the
   segment is not empty and does not end on a page boundary.
   */
  lemma ReservationSlack(P: nat, mr: Mr, sge: Sge)
    requires SgeInside(P, mr, sge) && mr.UserMr?
    ensures |SegmentIovs(P, mr, sge)| <= Reserved(P, mr, sge) <= |SegmentIovs(P, mr, sge)| + 1
    ensures Reserved(P, mr, sge) == |SegmentIovs(P, mr, sge)| <==>
            sge.length > 0 && (sge.length + Offset(mr, sge) % P) % P != 0
  {
    ChunkCount(P, mr.pages, Offset(mr, sge), sge.length);
    SlackArithmetic(P, Offset(mr, sge) % P, sge.length);
  }

  lemma IovsLast(P: nat, mrs: seq<MrSlot>, segs: seq<Sge>, n: nat)
    requires 0 < n <= |segs| && Resolved(P, mrs, segs, n)
    ensures |Iovs(P, mrs, segs, n)|
         == |Iovs(P, mrs, segs, n - 1)| + |SegmentIovs(P, MrOf(mrs, segs[n - 1]), segs[n - 1])|
         >= |Iovs(P, mrs, segs, n - 1)|
  {
  }

  lemma LastSlack(P: nat, mrs: seq<MrSlot>, segs: seq<Sge>, n: nat)
    requires 0 < n <= |segs| && Resolved(P, mrs, segs, n)
    ensures var mr, sge := MrOf(mrs, segs[n - 1]), segs[n - 1];
            && |SegmentIovs(P, mr, sge)| <= Reserved(P, mr, sge) <= |SegmentIovs(P, mr, sge)| + 1
            && (mr.DmaMr? ==> Reserved(P, mr, sge) == |SegmentIovs(P, mr, sge)| == 1)
  {
    var mr, sge := MrOf(mrs, segs[n - 1]), segs[n - 1];
    if mr.UserMr? { ReservationSlack(P, mr, sge); }
  }

  lemma EstimateParts(P: nat, mrs: seq<MrSlot>, segs: seq<Sge>, n: nat)
    requires 0 < n <= |segs| && Resolved(P, mrs, segs, n)
    ensures Resolved(P, mrs, segs, n - 1)
    ensures segs[n - 1].lkey < |mrs| && mrs[segs[n - 1].lkey].Registered?
    ensures SgeInside(P, MrOf(mrs, segs[n - 1]), segs[n - 1])
    ensures Estimate(P, mrs, segs, n)
            == Estimate(P, mrs, segs, n - 1) + Reserved(P, MrOf(mrs, segs[n - 1]), segs[n - 1])
  {
    ResolvedStep(P, mrs, segs, n);
    hide Resolved, Reserved;
  }

  /** Whole request: entries written, at most entries reserved, at most one more per segment. */
  lemma {:induction false} SizingBoundsFilling(P: nat, mrs: seq<MrSlot>, segs: seq<Sge>, n: nat)
    requires n <= |segs| && Resolved(P, mrs, segs, n)
    ensures |Iovs(P, mrs, segs, n)| <= Estimate(P, mrs, segs, n) <= |Iovs(P, mrs, segs, n)| + n
    ensures AllKind(mrs, segs, true) ==> Estimate(P, mrs, segs, n) == |Iovs(P, mrs, segs, n)| == n
    decreases n
  {
    hide Resolved, SgeInside, Iovs, Estimate, SegmentIovs, Reserved;
    if n == 0 {
      NoSegments(P, mrs, segs);
    } else {
      LastSlack(P, mrs, segs, n);
      IovsParts(P, mrs, segs, n);
      EstimateParts(P, mrs, segs, n);
      SizingBoundsFilling(P, mrs, segs, n - 1);
    }
  }

  lemma BelowNextMultiple(P: nat, x: nat)
    requires P >= 1
    ensures x < (x / P + 1) * P
  {
    assert x == x / P * P + x % P;
    Distribute(x / P, 1, P);
  }

  /** A segment is shorter than the pages reserved for it. */
  lemma SegmentShorterThanReservation(P: nat, mr: Mr, sge: Sge)
    requires SgeInside(P, mr, sge) && mr.UserMr?
    ensures sge.length < Reserved(P, mr, sge) * P
  {
    BelowNextMultiple(P, sge.length + Offset(mr, sge) % P);
  }

  lemma {:induction false} LengthBelowEstimate(P: nat, mrs: seq<MrSlot>, segs: seq<Sge>, n: nat)
    requires n <= |segs| && Resolved(P, mrs, segs, n) && AllKind(mrs, segs, false)
    ensures TotalLength(segs, n) + n <= Estimate(P, mrs, segs, n) * P
    decreases n
  {
    if n > 0 {
      var mr, sge := MrOf(mrs, segs[n - 1]), segs[n - 1];
      LengthBelowEstimate(P, mrs, segs, n - 1);
      SegmentShorterThanReservation(P, mr, sge);
      Distribute(Estimate(P, mrs, segs, n - 1), Reserved(P, mr, sge), P);
    }
  }

  lemma Distribute(a: nat, b: nat, P: nat)
    ensures (a + b) * P == a * P + b * P
  {
  }

  // ---------- whole requests ----------

  ghost predicate AllResolved(P: nat, mrs: seq<MrSlot>, req: Request)
    requires req.numSge <= |req.sgList|
  {
    Resolved(P, mrs, Segments(req), |Segments(req)|)
  }

  function Length(req: Request): nat
    requires req.numSge <= |req.sgList|
  {
    TotalLength(Segments(req), |Segments(req)|)
  }

  ghost function Entries(P: nat, mrs: seq<MrSlot>, req: Request): seq<Iov>
    requires req.numSge <= |req.sgList| && AllResolved(P, mrs, req)
  {
    Iovs(P, mrs, Segments(req), |Segments(req)|)
  }

  ghost function IovLen(P: nat, mrs: seq<MrSlot>, req: Request): nat
    requires req.numSge <= |req.sgList| && AllResolved(P, mrs, req)
  {
    Estimate(P, mrs, Segments(req), |Segments(req)|)
  }

  /** The physical address of every byte of the request's mapped segments, in order. */
  ghost function RequestAddresses(P: nat, mrs: seq<MrSlot>, req: Request): seq<int>
    requires req.numSge <= |req.sgList| && AllResolved(P, mrs, req)
  {
    Addresses(P, mrs, Segments(req), |Segments(req)|)
  }

  /** The requests that posting does not refuse for their own sake. */
  ghost predicate Accepted(P: nat, mrs: seq<MrSlot>, req: Request)
    requires WellFormed(P, mrs, req)
  {
    && AllRegistered(mrs, Segments(req), |Segments(req)|)
    && IovLen(P, mrs, req) <= MAX_IOVLEN
  }

  /**
   The entry limit bounds the size: an accepted user-memory request is strictly shorter than
   DIS_MAX_IOVLEN pages, so at 4096-byte pages neither the 32-bit sum nor the later conversion
   to a signed 32-bit integer wraps.
   */
  lemma EntryLimitBoundsLength(P: nat, mrs: seq<MrSlot>, req: Request)
    requires WellFormed(P, mrs, req) && Accepted(P, mrs, req)
    requires AllKind(mrs, Segments(req), false)
    ensures Length(req) < MAX_IOVLEN * P
    ensures P == 4096 ==> Length(req) < U32 / 1024
  {
    var segs := Segments(req);
    LengthBelowEstimate(P, mrs, segs, |segs|);
    Monotone(IovLen(P, mrs, req), MAX_IOVLEN, P);
  }
}

/**
 Posting to a work queue: the two passes that build the I/O vector of an element in place in the
 slot at the ring's head, the publication of the head, and the posting of a chain of requests.
 */
module WorkQueue {
  import opened Circ
  import opened Gather
  import opened WorkElement

  /** The cursor of one segment, prepared by the sizing pass and consumed by the filling pass. */
  datatype SgeMap = SgeMap(isDma: bool, pages: seq<nat>, mrPage: nat, baseOffset: nat, sgeLen: nat)

  ghost predicate AtCursor(P: nat, m: SgeMap, o: nat)
    requires P >= 1
  {
    && !m.isDma
    && o + m.sgeLen <= |m.pages| * P
    && (m.sgeLen > 0 ==> m.mrPage == o / P && m.baseOffset == o % P)
  }

  ghost function Remaining(P: nat, m: SgeMap, o: nat): seq<Iov>
    requires P >= 1 && AtCursor(P, m, o)
  {
    Chunks(P, m.pages, o, m.sgeLen)
  }

  ghost predicate Describes(P: nat, mr: Mr, sge: Sge, m: SgeMap)
    requires SgeInside(P, mr, sge)
  {
    if mr.DmaMr? then m.isDma
    else AtCursor(P, m, Offset(mr, sge)) && m.pages == mr.pages && m.sgeLen == sge.length
  }

  /** The cursors of the first `n` segments. */
  ghost predicate DescribesAll(P: nat, mrs: seq<MrSlot>, segs: seq<Sge>, n: nat, ms: seq<SgeMap>)
    requires n <= |segs|
  {
    && Resolved(P, mrs, segs, n)
    && n <= |ms|
    && forall i :: 0 <= i < n ==> Describes(P, MrOf(mrs, segs[i]), segs[i], ms[i])
  }

  /** Addition in a 32-bit field. */
  function AddU32(a: nat, b: nat): nat {
    (a + b) % U32
  }

  lemma AddU32Twice(a: nat, b: nat, c: nat)
    ensures AddU32(AddU32(a, b), c) == AddU32(a, b + c)
  {
  }

  /** The arithmetic of pass one for a user-memory segment. */
  method PlaceSegment(P: nat, mr: Mr, sge: Sge) returns (m: SgeMap, pageCount: nat)
    requires SgeInside(P, mr, sge) && mr.UserMr?
    ensures AtCursor(P, m, Offset(mr, sge)) && m.pages == mr.pages && m.sgeLen == sge.length
    ensures pageCount == Reserved(P, mr, sge)
  {
    var baseOffset := (sge.addr - mr.va) + mr.vaOffset;
    var pageOffset := baseOffset / P;
    assert baseOffset == pageOffset * P + baseOffset % P;
    baseOffset := baseOffset - pageOffset * P;
    m := SgeMap(false, mr.pages, pageOffset, baseOffset, sge.length);
    pageCount := (m.sgeLen + m.baseOffset) / P + 1;
  }

  /** The state of pass one after `n` segments. */
  ghost predicate Sized(P: nat, mrs: seq<MrSlot>, segs: seq<Sge>, n: nat, ms: seq<SgeMap>, entries: seq<Iov>,
                        iovlen: nat, byteLen: nat)
    requires n <= |segs|
  {
    && DescribesAll(P, mrs, segs, n, ms)
    && iovlen == Estimate(P, mrs, segs, n)
    && (AllKind(mrs, segs, false) ==> byteLen == 0)
    && (!AllKind(mrs, segs, false) ==> byteLen == TotalLength(segs, n) && Iovs(P, mrs, segs, n) <= entries)
  }

  lemma {:induction false} TotalGrows(segs: seq<Sge>, n: nat, m: nat)
    requires n <= m <= |segs|
    ensures TotalLength(segs, n) <= TotalLength(segs, m)
    decreases m
  {
    if n < m { TotalGrows(segs, n, m - 1); }
  }

  lemma {:induction false} DmaEntryCount(P: nat, mrs: seq<MrSlot>, segs: seq<Sge>, n: nat)
    requires n <= |segs| && Resolved(P, mrs, segs, n) && AllKind(mrs, segs, true)
    ensures |Iovs(P, mrs, segs, n)| == n
    decreases n
  {
    if n > 0 { DmaEntryCount(P, mrs, segs, n - 1); }
  }

  /** The body of the loop of pass one, once the region has been found. */
  method SizeNext(P: nat, mrs: seq<MrSlot>, segs: seq<Sge>, i: nat, staticMap: array<Iov>, sgeMap: array<SgeMap>,
                  iovlen: nat, byteLen: nat) returns (iovlen': nat, byteLen': nat)
    requires i < |segs| <= staticMap.Length == sgeMap.Length && staticMap as object != sgeMap as object
    requires Sized(P, mrs, segs, i, sgeMap[..], staticMap[..], iovlen, byteLen)
    requires ValidKey(P, mrs, segs[i]) && mrs[segs[i].lkey].Registered?
    requires AllKind(mrs, segs, false) || (AllKind(mrs, segs, true) && TotalLength(segs, |segs|) < U32)
    modifies staticMap, sgeMap
    ensures Sized(P, mrs, segs, i + 1, sgeMap[..], staticMap[..], iovlen', byteLen')
  {
    hide SgeInside;
    var sge := segs[i];
    var mr := MrOf(mrs, sge);
    TotalGrows(segs, i + 1, |segs|);
    iovlen', byteLen' := iovlen, byteLen;
    if mr.DmaMr? {
      DmaEntryCount(P, mrs, segs, i);
      ghost var was := staticMap[..i];
      sgeMap[i] := SgeMap(true, [], 0, 0, 0);
      staticMap[i] := Iov(sge.addr, sge.length);
      byteLen' := AddU32(byteLen, sge.length);
      iovlen' := iovlen + 1;
      assert staticMap[..i + 1] == was + [Iov(sge.addr, sge.length)];
    } else {
      var m, pageCount := PlaceSegment(P, mr, sge);
      sgeMap[i] := m;
      iovlen' := iovlen + pageCount;
    }
  }

  /** Pass one: look up the regions, reserve entries, and lay out DMA segments directly. */
  method SizePass(P: nat, mrs: seq<MrSlot>, segs: seq<Sge>, staticMap: array<Iov>, sgeMap: array<SgeMap>)
      returns (ok: bool, iovlen: nat, byteLen: nat)
    requires P >= 1 && |segs| <= staticMap.Length == sgeMap.Length && staticMap as object != sgeMap as object
    requires forall i :: 0 <= i < |segs| ==> ValidKey(P, mrs, segs[i])
    requires AllKind(mrs, segs, false) || (AllKind(mrs, segs, true) && TotalLength(segs, |segs|) < U32)
    modifies staticMap, sgeMap
    ensures ok <==> AllRegistered(mrs, segs, |segs|)
    ensures ok ==> Sized(P, mrs, segs, |segs|, sgeMap[..], staticMap[..], iovlen, byteLen)
  {
    iovlen, byteLen := 0, 0;
    var i := 0;
    while i < |segs|
      invariant 0 <= i <= |segs|
      invariant Sized(P, mrs, segs, i, sgeMap[..], staticMap[..], iovlen, byteLen)
    {
      if mrs[segs[i].lkey].NoMr? {
        return false, iovlen, byteLen;
      }
      iovlen, byteLen := SizeNext(P, mrs, segs, i, staticMap, sgeMap, iovlen, byteLen);
      i := i + 1;
    }
    ok := true;
  }

  /** One step of the splitting loop. */
  lemma ChunkStep(P: nat, pages: seq<nat>, o: nat, len: nat)
    requires P >= 1 && o + len <= |pages| * P && len > 0
    ensures var c := Chunk(P, o % P, len);
            && o / P < |pages|
            && Chunks(P, pages, o, len) == [Iov(pages[o / P] + o % P, c)] + Chunks(P, pages, o + c, len - c)
            && (c < len ==> (o + c) / P == o / P + 1 && (o + c) % P == 0)
  {
    PageInTable(P, o, |pages|);
    NextPage(P, o);
  }

  /** The entry a cursor yields next, and the cursor behind it. */
  method TakeChunk(P: nat, m: SgeMap, ghost o: nat) returns (e: Iov, m': SgeMap, ghost o': nat)
    requires P >= 1 && AtCursor(P, m, o) && m.sgeLen > 0
    ensures AtCursor(P, m', o')
    ensures Remaining(P, m, o) == [e] + Remaining(P, m', o')
    ensures 0 < e.len && m'.sgeLen + e.len == m.sgeLen
  {
    ChunkStep(P, m.pages, o, m.sgeLen);
    var sgeChunk := Chunk(P, m.baseOffset, m.sgeLen);
    e := Iov(m.pages[m.mrPage] + m.baseOffset, sgeChunk);
    m' := m.(sgeLen := m.sgeLen - sgeChunk, baseOffset := 0, mrPage := m.mrPage + 1);
    o' := o + sgeChunk;
  }

  /** The inner loop of pass two: split one segment at page boundaries. */
  method FillSegment(P: nat, sge: SgeMap, pageMap: array<Iov>, start: nat, total: nat, ghost o: nat)
      returns (next: nat, byteLen: nat)
    requires P >= 1 && AtCursor(P, sge, o)
    requires start + |Remaining(P, sge, o)| <= pageMap.Length
    modifies pageMap
    ensures next == start + |Remaining(P, sge, o)| <= pageMap.Length
    ensures pageMap[..next] == old(pageMap[..start]) + Remaining(P, sge, o)
    ensures byteLen == AddU32(total, sge.sgeLen)
  {
    var m := sge;
    next, byteLen := start, total % U32;
    ghost var at := o;
    ghost var all, was := Remaining(P, sge, o), pageMap[..start];
    while m.sgeLen > 0
      invariant AtCursor(P, m, at)
      invariant start <= next <= pageMap.Length
      invariant pageMap[..next] + Remaining(P, m, at) == was + all
      invariant m.sgeLen <= sge.sgeLen && byteLen == AddU32(total, sge.sgeLen - m.sgeLen)
      decreases m.sgeLen
    {
      ghost var before, len := pageMap[..next], m.sgeLen;
      var e;
      e, m, at := TakeChunk(P, m, at);
      assert before + ([e] + Remaining(P, m, at)) == was + all;
      pageMap[next] := e;
      assert pageMap[..next + 1] == before + [e];
      AddU32Twice(total, sge.sgeLen - len, e.len);
      byteLen := AddU32(byteLen, e.len);
      next := next + 1;
    }
  }

  /** The state of pass two after `n` segments of user memory. */
  ghost predicate Filled(P: nat, mrs: seq<MrSlot>, segs: seq<Sge>, n: nat, entries: seq<Iov>, next: nat, byteLen: nat)
    requires n <= |segs|
  {
    && Resolved(P, mrs, segs, n)
    && next == |Iovs(P, mrs, segs, n)| <= |entries|
    && entries[..next] == Iovs(P, mrs, segs, n)
    && byteLen == AddU32(0, TotalLength(segs, n))
  }

  lemma {:induction false} IovsGrow(P: nat, mrs: seq<MrSlot>, segs: seq<Sge>, n: nat, m: nat)
    requires n <= m <= |segs| && Resolved(P, mrs, segs, m)
    ensures |Iovs(P, mrs, segs, n)| <= |Iovs(P, mrs, segs, m)|
    decreases m
  {
    hide Iovs, SegmentIovs, SgeInside;
    if n < m {
      IovsLast(P, mrs, segs, m);
      IovsGrow(P, mrs, segs, n, m - 1);
    }
  }

  /** The body of the outer loop of pass two, for segment `i` of user memory. */
  method FillNext(P: nat, ghost mrs: seq<MrSlot>, ghost segs: seq<Sge>, ghost i: nat, m: SgeMap,
                  pageMap: array<Iov>, start: nat, total: nat) returns (next: nat, byteLen: nat)
    requires i < |segs| && Resolved(P, mrs, segs, i + 1)
    requires MrOf(mrs, segs[i]).UserMr? && Describes(P, MrOf(mrs, segs[i]), segs[i], m)
    requires |Iovs(P, mrs, segs, i + 1)| <= pageMap.Length
    requires Filled(P, mrs, segs, i, pageMap[..], start, total)
    modifies pageMap
    ensures Filled(P, mrs, segs, i + 1, pageMap[..], next, byteLen)
  {
    AddU32Twice(0, TotalLength(segs, i), segs[i].length);
    assert pageMap[..][..start] == pageMap[..start];
    next, byteLen := FillSegment(P, m, pageMap, start, total, Offset(MrOf(mrs, segs[i]), segs[i]));
    assert pageMap[..][..next] == pageMap[..next];
  }

  /** Pass two: map each segment into the chosen store, one entry per page; DMA segments are skipped. */
  method FillPass(P: nat, ghost mrs: seq<MrSlot>, segs: seq<Sge>, sgeMap: array<SgeMap>, pageMap: array<Iov>,
                  total: nat)
      returns (byteLen: nat)
    requires DescribesAll(P, mrs, segs, |segs|, sgeMap[..])
    requires |Iovs(P, mrs, segs, |segs|)| <= pageMap.Length
    requires pageMap as object != sgeMap as object
    requires AllKind(mrs, segs, false) ==> total == 0
    requires AllKind(mrs, segs, false) || AllKind(mrs, segs, true)
    modifies pageMap
    ensures AllKind(mrs, segs, false) ==>
              Iovs(P, mrs, segs, |segs|) <= pageMap[..] && byteLen == AddU32(0, TotalLength(segs, |segs|))
    ensures !AllKind(mrs, segs, false) ==> pageMap[..] == old(pageMap[..]) && byteLen == total
  {
    hide SgeInside, Filled, Iovs, TotalLength, AddU32;
    ghost var user := AllKind(mrs, segs, false);
    byteLen := total;
    var next := 0;
    var i := 0;
    FilledEnds(P, mrs, segs, pageMap[..], 0, 0);
    while i < |segs|
      invariant 0 <= i <= |segs|
      invariant user ==> Filled(P, mrs, segs, i, pageMap[..], next, byteLen)
      invariant !user ==> pageMap[..] == old(pageMap[..]) && byteLen == total
    {
      assert Describes(P, MrOf(mrs, segs[i]), segs[i], sgeMap[..][i]);
      if !sgeMap[i].isDma {
        IovsGrow(P, mrs, segs, i + 1, |segs|);
        next, byteLen := FillNext(P, mrs, segs, i, sgeMap[i], pageMap, next, byteLen);
      }
      i := i + 1;
    }
    FilledEnds(P, mrs, segs, pageMap[..], next, byteLen);
  }

  /** Pass two starts with nothing filled, and at its end the whole list is in place. */
  lemma FilledEnds(P: nat, mrs: seq<MrSlot>, segs: seq<Sge>, entries: seq<Iov>, next: nat, byteLen: nat)
    requires Resolved(P, mrs, segs, |segs|)
    ensures Filled(P, mrs, segs, 0, entries, 0, 0)
    ensures Filled(P, mrs, segs, |segs|, entries, next, byteLen) ==>
              Iovs(P, mrs, segs, |segs|) <= entries && byteLen == AddU32(0, TotalLength(segs, |segs|))
  {
    hide SgeInside;
    if Filled(P, mrs, segs, |segs|, entries, next, byteLen) {
      assert Iovs(P, mrs, segs, |segs|) == entries[..next];
    }
  }

  /** How posting one request ends when a slot is free: the element it adds, or refusal. */
  ghost predicate Postable(P: nat, mrs: seq<MrSlot>, req: Request, allocOk: bool) {
    && WellFormed(P, mrs, req)
    && Accepted(P, mrs, req)
    && (IovLen(P, mrs, req) <= SGE_PER_WQE || allocOk)
  }

  ghost predicate PostedOne(P: nat, mrs: seq<MrSlot>, req: Request, allocOk: bool, kind: Kind, qp: nat, w: Wqe) {
    Postable(P, mrs, req, allocOk) && Built(P, mrs, req, kind, qp, w)
  }

  /** The elements are those of the requests, one each, in order. */
  ghost predicate PostedAs(P: nat, mrs: seq<MrSlot>, reqs: seq<Request>, allocOk: seq<bool>, kind: Kind, qp: nat,
                           wqes: seq<Wqe>)
  {
    && |wqes| == |reqs| == |allocOk|
    && forall i :: 0 <= i < |reqs| ==> PostedOne(P, mrs, reqs[i], allocOk[i], kind, qp, wqes[i])
  }

  lemma PostedMore(P: nat, mrs: seq<MrSlot>, chain: seq<Request>, allocOk: seq<bool>, kind: Kind, qp: nat,
                   wqes: seq<Wqe>, w: Wqe, n: nat)
    requires n < |chain| == |allocOk|
    requires PostedAs(P, mrs, chain[..n], allocOk[..n], kind, qp, wqes)
    requires PostedOne(P, mrs, chain[n], allocOk[n], kind, qp, w)
    ensures PostedAs(P, mrs, chain[..n + 1], allocOk[..n + 1], kind, qp, wqes + [w])
  {
    forall i | 0 <= i < n + 1
      ensures PostedOne(P, mrs, chain[..n + 1][i], allocOk[..n + 1][i], kind, qp, (wqes + [w])[i])
    {
      if i < n {
        assert PostedOne(P, mrs, chain[..n][i], allocOk[..n][i], kind, qp, wqes[i]);
      }
    }
  }

  /** Builds the I/O vector of a request in the store the code chooses for it. */
  method BuildMap(P: nat, mrs: seq<MrSlot>, req: Request, allocOk: bool)
      returns (ok: bool, iovlen: nat, byteLen: nat, store: seq<Iov>)
    requires WellFormed(P, mrs, req)
    ensures ok <==> Postable(P, mrs, req, allocOk)
    ensures ok ==> iovlen == IovLen(P, mrs, req) <= |store| && Entries(P, mrs, req) <= store
    ensures ok ==> byteLen == Length(req) % U32
  {
    hide SgeInside, Describes, Iovs, Estimate, TotalLength;
    var segs := Segments(req);
    var staticMap := new Iov[SGE_PER_WQE];
    var sgeMap := new SgeMap[SGE_PER_WQE];
    store := [];
    ok, iovlen, byteLen := SizePass(P, mrs, segs, staticMap, sgeMap);
    if !ok {
      return;
    }
    SizingBoundsFilling(P, mrs, segs, |segs|);
    var pageMap := staticMap;
    if iovlen > MAX_IOVLEN {
      return false, iovlen, byteLen, store;
    } else if iovlen > SGE_PER_WQE {
      if !allocOk {
        return false, iovlen, byteLen, store;
      }
      pageMap := new Iov[iovlen];
    }
    byteLen := FillPass(P, mrs, segs, sgeMap, pageMap, byteLen);
    store := pageMap[..];
  }

  /**
   A work queue: `buf` is its ring of elements, `head` where the poster publishes and `tail` where
   the worker retires. `history` lists every element ever published; the first `retired` of them
   have left the ring.
   */
  class Wq {
    const pageSize: nat
    const kind: Kind
    const qp: nat
    const size: nat
    const buf: array<Wqe>
    var head: nat
    var tail: nat
    ghost var history: seq<Wqe>
    ghost var retired: nat

    ghost predicate Valid()
      reads this, buf
    {
      Refines(Ring(size, buf[..], head, tail), history, retired, retired)
    }

    /** The elements in the ring, oldest first. */
    ghost function Queue(): seq<Wqe>
      reads this, buf
      requires Valid()
    {
      history[retired..]
    }

    /** A ring for `maxWr` requests, as dis_create_qp sizes it: none at all from 2^31 requests on. */
    constructor (pageSize: nat, kind: Kind, qp: nat, maxWr: nat, zero: Wqe)
      requires maxWr + 1 < U32
      ensures fresh(buf) && buf.Length == size == StoredSize(maxWr)
      ensures this.pageSize == pageSize && this.kind == kind && this.qp == qp
      ensures Valid() <==> maxWr < Pow2(31)
      ensures head == tail == 0 && history == [] && retired == 0
      ensures Valid() ==> size == RoundupPow2(maxWr + 1) && Queue() == []
    {
      hide Fls, RoundupPow2, StoredSize, CircSpace, Pow2;
      RingSizing(maxWr, 0, 0);
      this.pageSize, this.kind, this.qp := pageSize, kind, qp;
      size := StoredSize(maxWr);
      buf := new Wqe[StoredSize(maxWr)](i => zero);
      head, tail := 0, 0;
      history, retired := [], 0;
    }

    /**
     dis_qp_post_one_sqe and dis_qp_post_one_rqe, which differ only in the opcode. The request is
     appended exactly when a slot is free and the request is postable; otherwise the queue and
     the indices are as before, although the slot at the head may have been scribbled on.
     */
    method PostOne(mrs: seq<MrSlot>, req: Request, allocOk: bool) returns (ok: bool)
      requires Valid() && WellFormed(pageSize, mrs, req)
      modifies this`head, this`history, buf
      ensures Valid()
      ensures ok <==> old(|Queue()|) < size - 1 && Postable(pageSize, mrs, req, allocOk)
      ensures ok ==>
                && |history| == |old(history)| + 1
                && old(history) <= history
                && Built(pageSize, mrs, req, kind, qp, history[|history| - 1])
                && (history[|history| - 1].dynamic <==> !Postable(pageSize, mrs, req, false))
      ensures !ok ==> history == old(history) && head == old(head)
    {
      ghost var r := Ring(size, buf[..], head, tail);
      RingCounts(r, history, retired, retired);
      if CircSpace(head, tail, size) < 1 {
        return false;
      }
      WriteHeadSlot(r, history, retired, retired, buf[head].(opcode := OpcodeOf(kind), byteLen := 0, qp := qp,
                                                             wrId := req.wrId % U32, iovlen := 0));
      buf[head] := buf[head].(opcode := OpcodeOf(kind), byteLen := 0, qp := qp, wrId := req.wrId % U32, iovlen := 0);
      r := Ring(size, buf[..], head, tail);
      var iovlen, byteLen, store;
      ok, iovlen, byteLen, store := BuildMap(pageSize, mrs, req, allocOk);
      if !ok {
        return;
      }
      var wqe := buf[head].(byteLen := byteLen, iovlen := iovlen, pageMap := store, dynamic := iovlen > SGE_PER_WQE);
      WriteHeadSlot(r, history, retired, retired, wqe);
      buf[head] := wqe;
      r := Ring(size, buf[..], head, tail);
      PublishHead(r, history, retired, retired);
      history := history + [wqe];
      head := Next(head, size);
    }

    /**
     dis_post_send and dis_post_recv: requests are posted in order up to the first that fails.
     `done` counts those posted; each has its own allocation outcome.
     */
    method PostList(mrs: seq<MrSlot>, chain: seq<Request>, allocOk: seq<bool>) returns (ok: bool, done: nat)
      requires Valid() && |allocOk| == |chain|
      requires forall req <- chain :: WellFormed(pageSize, mrs, req)
      modifies this`head, this`history, buf
      ensures Valid()
      ensures done <= |chain| && (ok <==> done == |chain|)
      ensures old(history) <= history
      ensures PostedAs(pageSize, mrs, chain[..done], allocOk[..done], kind, qp, history[|old(history)|..])
      ensures !ok ==> |Queue()| == size - 1 || !Postable(pageSize, mrs, chain[done], allocOk[done])
    {
      done := 0;
      while done < |chain|
        invariant Valid() && done <= |chain|
        invariant old(history) <= history
        invariant PostedAs(pageSize, mrs, chain[..done], allocOk[..done], kind, qp, history[|old(history)|..])
      {
        ghost var before := history[|old(history)|..];
        var ret := PostOne(mrs, chain[done], allocOk[done]);
        if !ret {
          return false, done;
        }
        assert history[|old(history)|..] == before + [history[|history| - 1]];
        PostedMore(pageSize, mrs, chain, allocOk, kind, qp, before, history[|history| - 1], done);
        done := done + 1;
      }
      ok := true;
    }
  }
}

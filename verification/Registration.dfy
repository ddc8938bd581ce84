/**
 What the calls on a protection domain mean to their callers: which calls succeed, which addresses a registered
 region stands for in the requests posted afterwards, how large the rings of a queue pair are, and that a released
 object is gone while all others stay.
 */
module Registration {
  import opened Circ
  import opened Gather
  import opened WorkElement
  import opened ProtectionDomain

  /** The table of regions as posting looks it up. */
  function KeyTable(mrList: seq<MrEntry>): seq<MrSlot> {
    seq(|mrList|, k requires 0 <= k < |mrList| => SlotOf(mrList[k]))
  }

  function SlotOf(e: MrEntry): MrSlot {
    match e
    case NullMr => NoMr
    case MrEntry(o) => Registered(MrOfObj(o))
  }

  // ---------- memory regions ----------

  /** dis_get_dma_mr succeeds exactly if a key is left and memory is found; its region maps every address to itself. */
  lemma DmaRegistration(P: nat, s: State, a: Alloc, va: nat)
    requires Inv(P, s) && Legal(P, s, GetDmaMr(a))
    ensures var s' := Do(s, GetDmaMr(a));
            if s.mrC < MR_MAX && a.Block? then
              && s'.mrC == s.mrC + 1 && s'.mrs == s.mrs[s.mrC := DmaObj(a.at)] && a.at in s'.heap
              && s.mrC < |s'.mrList| && SlotOf(s'.mrList[s.mrC]).Registered?
              && SlotOf(s'.mrList[s.mrC]).mr == DmaMr && Translate(P, SlotOf(s'.mrList[s.mrC]).mr, va) == va
            else s' == s
  {
    hide HeapExact, FreshBlocks;
  }

  /** What dis_reg_user_mr needs. */
  predicate CanRegister(mrC: nat, a: Alloc, pin: Pin, p: Alloc) {
    mrC < MR_MAX && a.Block? && pin.Pinned? && |pin.pages| > 0 && p.Block? && 0 !in pin.pages
  }

  /** dis_reg_user_mr succeeds exactly if a key is left, every allocation succeeds and every page has an address. */
  lemma UserRegistration(P: nat, s: State, va: nat, length: nat, a: Alloc, pin: Pin, p: Alloc)
    requires Inv(P, s) && Legal(P, s, RegUserMr(va, length, a, pin, p))
    ensures var s' := Do(s, RegUserMr(va, length, a, pin, p));
            if CanRegister(s.mrC, a, pin, p) then
              && s'.mrC == s.mrC + 1 && s.mrC in s'.mrs && s'.mrs - {s.mrC} == s.mrs - {s.mrC}
              && MrBlocks(s'.mrs[s.mrC]) == {a.at, pin.at, p.at}
              && s.mrC < |s'.mrList| && s'.mrList == s.mrList[s.mrC := MrEntry(s'.mrs[s.mrC])]
            else s' == s
  {
    hide HeapExact, FreshBlocks;
  }

  /** The region stands for the pinned pages: each of its addresses is translated to its byte in them. */
  lemma RegionTranslates(P: nat, s: State, va: nat, length: nat, a: Alloc, pin: Pin, p: Alloc, k: nat)
    requires Inv(P, s) && Legal(P, s, RegUserMr(va, length, a, pin, p))
    requires CanRegister(s.mrC, a, pin, p) && k < length
    ensures var s' := Do(s, RegUserMr(va, length, a, pin, p));
            && s.mrC < |s'.mrList| && s'.mrList[s.mrC].MrEntry?
            && var mr := MrOfObj(s'.mrList[s.mrC].obj);
               && (mr.UserMr? ==> mr.va <= va + k)
               && (pin.offset + k) / P < |pin.pages|
               && Translate(P, mr, va + k) == pin.pages[(pin.offset + k) / P] + (pin.offset + k) % P
  {
    hide HeapExact, FreshBlocks;
    PageInTable(P, pin.offset + k, |pin.pages|);
    assert va + k - va + pin.offset == pin.offset + k;
  }

  /** A segment lies inside the region exactly if its addresses do. */
  lemma RegionInside(P: nat, s: State, va: nat, length: nat, a: Alloc, pin: Pin, p: Alloc, sge: Sge)
    requires Inv(P, s) && Legal(P, s, RegUserMr(va, length, a, pin, p)) && CanRegister(s.mrC, a, pin, p)
    ensures var s' := Do(s, RegUserMr(va, length, a, pin, p));
            && s.mrC < |s'.mrList| && s'.mrList[s.mrC].MrEntry?
            && (SgeInside(P, MrOfObj(s'.mrList[s.mrC].obj), sge) <==>
                  sge.length < U32 && va <= sge.addr && sge.addr + sge.length <= va + length)
  {
    hide HeapExact, FreshBlocks;
  }

  /** What one call leaves of the table, and of an object that it does not release. */
  lemma StepKeeps(P: nat, s: State, c: Call, key: nat)
    requires Inv(P, s) && Legal(P, s, c) && key < s.mrC
    ensures var s' := Do(s, c);
            && key < s'.mrC && key < |s.mrList| == |s'.mrList| && s'.mrList[key] == s.mrList[key]
            && (key in s.mrs && c != DeregMr(key) ==> key in s'.mrs && s'.mrs[key] == s.mrs[key])
  {
    hide HeapExact, FreshBlocks;
  }

  /** Along a run a key keeps its entry, and its object as long as no call releases it. */
  lemma {:induction false} EntryStays(P: nat, states: seq<State>, calls: seq<Call>, j: nat, k: nat, key: nat)
    requires IsRun(P, states, calls) && j <= k < |states| && key < states[j].mrC
    ensures key < states[k].mrC && key < |states[j].mrList| == |states[k].mrList|
    ensures states[k].mrList[key] == states[j].mrList[key]
    ensures key in states[j].mrs && (forall i :: j <= i < k && i < |calls| ==> calls[i] != DeregMr(key)) ==>
              key in states[k].mrs && states[k].mrs[key] == states[j].mrs[key]
    decreases k
  {
    RunConserves(P, states, calls, k);
    hide Do, Legal, HeapExact, Empty;
    if j < k {
      EntryStays(P, states, calls, j, k - 1, key);
      RunConserves(P, states, calls, k - 1);
      assert RunsTo(P, states[k - 1], calls[k - 1], states[k]);
      StepKeeps(P, states[k - 1], calls[k - 1], key);
    }
  }

  /** `mr` stands for `length` bytes at `va`, backed by pinned pages from `offset` bytes into the first one on. */
  ghost predicate StandsFor(P: nat, mr: Mr, va: nat, length: nat, offset: nat, pages: seq<nat>) {
    && P >= 1
    && (forall sge :: SgeInside(P, mr, sge) <==>
          sge.length < U32 && va <= sge.addr && sge.addr + sge.length <= va + length)
    && (forall k :: 0 <= k < length ==> TranslatesTo(P, mr, va, pages, offset, k))
  }

  ghost predicate TranslatesTo(P: nat, mr: Mr, va: nat, pages: seq<nat>, offset: nat, k: nat)
    requires P >= 1
  {
    && (mr.UserMr? ==> mr.va <= va + k) && (offset + k) / P < |pages|
    && Translate(P, mr, va + k) == pages[(offset + k) / P] + (offset + k) % P
  }

  lemma RegionStands(P: nat, s: State, va: nat, length: nat, a: Alloc, pin: Pin, p: Alloc)
    requires Inv(P, s) && Legal(P, s, RegUserMr(va, length, a, pin, p)) && CanRegister(s.mrC, a, pin, p)
    ensures var s' := Do(s, RegUserMr(va, length, a, pin, p));
            && s.mrC < s'.mrC && s.mrC < |s'.mrList| && s'.mrList[s.mrC].MrEntry?
            && StandsFor(P, MrOfObj(s'.mrList[s.mrC].obj), va, length, pin.offset, pin.pages)
  {
    assert P >= 1;
    UserRegistration(P, s, va, length, a, pin, p);
    hide Inv, Legal, Do, SgeInside, Translate, MrOfObj, CanRegister, MrBlocks;
    forall sge
      ensures var s' := Do(s, RegUserMr(va, length, a, pin, p));
              SgeInside(P, MrOfObj(s'.mrList[s.mrC].obj), sge) <==>
                sge.length < U32 && va <= sge.addr && sge.addr + sge.length <= va + length
    {
      RegionInside(P, s, va, length, a, pin, p, sge);
    }
    forall k | 0 <= k < length
      ensures var s' := Do(s, RegUserMr(va, length, a, pin, p));
              TranslatesTo(P, MrOfObj(s'.mrList[s.mrC].obj), va, pin.pages, pin.offset, k)
    {
      RegionTranslates(P, s, va, length, a, pin, p, k);
    }
  }

  /** The region registered by call `j` of a run, in the table of every later state. */
  lemma RegionInTable(P: nat, states: seq<State>, calls: seq<Call>, j: nat, n: nat)
    requires IsRun(P, states, calls) && j < n < |states| && |states| == |calls| + 1
    requires calls[j].RegUserMr? && CanRegister(states[j].mrC, calls[j].mr, calls[j].pin, calls[j].pageList)
    ensures var c, key := calls[j], states[j].mrC;
            && key < |states[n].mrList| && states[n].mrList[key].MrEntry?
            && StandsFor(P, MrOfObj(states[n].mrList[key].obj), c.va, c.length, c.pin.offset, c.pin.pages)
  {
    var c := calls[j];
    assert RunsTo(P, states[j], c, states[j + 1]);
    RunConserves(P, states, calls, j);
    hide IsRun, Do, Legal, Inv, StandsFor, CanRegister;
    RegionStands(P, states[j], c.va, c.length, c.mr, c.pin, c.pageList);
    EntryStays(P, states, calls, j + 1, n, states[j].mrC);
  }

  lemma ByteOfRegion(P: nat, mrs: seq<MrSlot>, req: Request, kind: Kind, qp: nat, w: Wqe, i: nat, x: nat,
                     va: nat, length: nat, offset: nat, pages: seq<nat>)
    requires Built(P, mrs, req, kind, qp, w) && MAX_IOVLEN * P <= U32
    requires i < req.numSge && i < |req.sgList| && i < SGE_PER_WQE && x < req.sgList[i].length
    requires req.sgList[i].lkey < |mrs| && mrs[req.sgList[i].lkey].Registered?
    requires StandsFor(P, MrOf(mrs, req.sgList[i]), va, length, offset, pages)
    ensures ReadsPinned(P, MsgOf(w), req.sgList[i], TotalLength(req.sgList, i) + x, x, va, length, offset, pages)
  {
    hide Built, Bytes, MsgOf, SgeInside, Translate, TotalLength, MrOf;
    MessageByte(P, mrs, req, kind, qp, w, i, x);
    var sge := req.sgList[i];
    assert SgeInside(P, MrOf(mrs, sge), sge);
    assert TranslatesTo(P, MrOf(mrs, sge), va, pages, offset, sge.addr - va + x);
    assert va + (sge.addr - va + x) == sge.addr + x;
  }

  /** The segment lies in the memory, and byte `at` of the message is the byte of the pages for its place `x`. */
  ghost predicate ReadsPinned(P: nat, m: Msg, sge: Sge, at: nat, x: nat,
                              va: nat, length: nat, offset: nat, pages: seq<nat>)
  {
    && P >= 1 && va <= sge.addr && sge.addr + sge.length <= va + length && x < sge.length
    && var place := offset + (sge.addr - va) + x;
       at < |Bytes(m.iov)| && place / P < |pages| && Bytes(m.iov)[at] == pages[place / P] + place % P
  }

  /**
   From registration to message: call number `j` of a run registers user memory, and later, in state `n`, a request is
   built whose i-th mapped segment names the key that was issued. Then the segment lies in the memory, and the message's
   byte for place `x` of the segment is that byte of the pinned pages.
   */
  lemma PostedBytesArePinned(P: nat, states: seq<State>, calls: seq<Call>, j: nat, n: nat,
                             req: Request, kind: Kind, qp: nat, w: Wqe, i: nat, x: nat)
    requires IsRun(P, states, calls) && j < n < |states| && |states| == |calls| + 1 && MAX_IOVLEN * P <= U32
    requires calls[j].RegUserMr? && CanRegister(states[j].mrC, calls[j].mr, calls[j].pin, calls[j].pageList)
    requires Built(P, KeyTable(states[n].mrList), req, kind, qp, w)
    requires i < req.numSge && i < |req.sgList| && i < SGE_PER_WQE && x < req.sgList[i].length
    requires req.sgList[i].lkey == states[j].mrC
    ensures ReadsPinned(P, MsgOf(w), req.sgList[i], TotalLength(req.sgList, i) + x, x,
                        calls[j].va, calls[j].length, calls[j].pin.offset, calls[j].pin.pages)
  {
    hide IsRun, Built, StandsFor, ReadsPinned, MsgOf, TotalLength, MrOfObj;
    RegionInTable(P, states, calls, j, n);
    var c := calls[j];
    ByteOfRegion(P, KeyTable(states[n].mrList), req, kind, qp, w, i, x, c.va, c.length, c.pin.offset, c.pin.pages);
  }

  /** After dis_dereg_mr the region and its memory are gone, and everything else is as before. */
  lemma DeregReleases(P: nat, s: State, key: nat)
    requires Inv(P, s) && key in s.mrs
    ensures var s' := Do(s, DeregMr(key));
            && key !in s'.mrs && s' == s.(mrs := s'.mrs, heap := s'.heap)
            && (forall k :: k != key ==> (k in s'.mrs <==> k in s.mrs) && (k in s'.mrs ==> s'.mrs[k] == s.mrs[k]))
            && (forall b :: b in s'.heap <==> b in s.heap && s.heap[b] != MrOwner(key))
            && (forall b :: b in s'.heap ==> s'.heap[b] == s.heap[b])
  {
    hide TablesOk, MrBlocks, QpBlocks;
    forall b | b in s.heap
      ensures b in MrBlocks(s.mrs[key]) <==> s.heap[b] == MrOwner(key)
    {
      assert BelongsTo(s.mrs, s.qps, b, s.heap[b]);
      assert b in MrBlocks(s.mrs[key]) <==> BelongsTo(s.mrs, s.qps, b, MrOwner(key));
    }
  }

  // ---------- queue pairs ----------

  /**
   A ring created for `requested` elements: its size is the least power of two above `requested`, and a poster finds it
   full only when that many are outstanding.
   */
  ghost predicate SizedFor(size: nat, requested: nat) {
    && IsSize(size) && requested < size <= 2 * requested + 1
    && forall published: nat, retired: nat ::
         retired <= published < retired + size && CircSpace(published % size, retired % size, size) < 1 ==>
           published - retired >= requested
  }

  lemma StoredIsSized(requested: nat)
    requires requested < Pow2(31)
    ensures SizedFor(StoredSize(requested), requested)
  {
    PowersGrow();
    hide Pow2, Fls, StoredSize, CircSpace, IsSize;
    forall published: nat, retired: nat |
      var size := StoredSize(requested); retired <= published < retired + size
      ensures var size := StoredSize(requested);
              CircSpace(published % size, retired % size, size) < 1 ==> published - retired >= requested
    {
      RingSizing(requested, published, retired);
    }
    RingSizing(requested, 0, 0);
    RoundupIsLeast(requested + 1, 0);
    RoundupBelowDouble(requested + 1);
  }

  lemma PowersGrow()
    ensures Pow2(31) + 1 < U32
  {
    WordIsPow2();
  }

  lemma RoundupBelowDouble(n: nat)
    requires n >= 1
    ensures RoundupPow2(n) <= 2 * n - 1
  {
    FlsBounds(n - 1);
  }

  /**
   dis_create_qp succeeds exactly if a number and all memory are found; each queue then gets a ring for its own
   number of requests.
   */
  lemma QpCreation(P: nat, s: State, maxSendWr: nat, maxRecvWr: nat, q: Alloc, sb: Alloc, rb: Alloc)
    requires Inv(P, s) && Legal(P, s, CreateQp(maxSendWr, maxRecvWr, q, sb, rb))
    ensures var s' := Do(s, CreateQp(maxSendWr, maxRecvWr, q, sb, rb));
            if s.qpC < QP_MAX && q.Block? && sb.Block? && rb.Block? then
              && s'.qpC == s.qpC + 1 && s.qpC in s'.qps && s'.qps - {s.qpC} == s.qps - {s.qpC}
              && s.qpC < |s'.qpList| && s'.qpList == s.qpList[s.qpC := QpEntry(s'.qps[s.qpC])]
              && var obj := s'.qps[s.qpC];
                 && obj.block == q.at && obj.sqBuf == sb.at && obj.rqBuf == rb.at
                 && (maxSendWr < Pow2(31) ==> SizedFor(obj.sqSize, maxSendWr))
                 && (maxRecvWr < Pow2(31) ==> SizedFor(obj.rqSize, maxRecvWr))
                 && (maxSendWr >= Pow2(31) ==> obj.sqSize == 0)
                 && (maxRecvWr >= Pow2(31) ==> obj.rqSize == 0)
            else s' == s
  {
    hide HeapExact, FreshBlocks, StoredSize, SizedFor, Pow2;
    if maxSendWr < Pow2(31) { StoredIsSized(maxSendWr); } else { RingSizing(maxSendWr, 0, 0); }
    if maxRecvWr < Pow2(31) { StoredIsSized(maxRecvWr); } else { RingSizing(maxRecvWr, 0, 0); }
  }

  /** After dis_destroy_qp the queue pair and its memory are gone, and everything else is as before. */
  lemma DestroyReleases(P: nat, s: State, qpn: nat)
    requires Inv(P, s) && qpn in s.qps
    ensures var s' := Do(s, DestroyQp(qpn));
            && qpn !in s'.qps && s' == s.(qps := s'.qps, heap := s'.heap)
            && (forall n :: n != qpn ==> (n in s'.qps <==> n in s.qps) && (n in s'.qps ==> s'.qps[n] == s.qps[n]))
            && (forall b :: b in s'.heap <==> b in s.heap && s.heap[b] != QpOwner(qpn))
            && (forall b :: b in s'.heap ==> s'.heap[b] == s.heap[b])
  {
    hide TablesOk, MrBlocks, QpBlocks;
    forall b | b in s.heap
      ensures b in QpBlocks(s.qps[qpn]) <==> s.heap[b] == QpOwner(qpn)
    {
      assert BelongsTo(s.mrs, s.qps, b, s.heap[b]);
      assert b in QpBlocks(s.qps[qpn]) <==> BelongsTo(s.mrs, s.qps, b, QpOwner(qpn));
    }
  }
}

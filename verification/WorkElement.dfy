/**
 The records that travel through the driver: work-queue elements, completion-queue elements and
 the completions handed to the user, with the widths of their fields.
 */
module WorkElement {
  import opened Circ
  import opened Gather

  const U16: nat := 0x1_0000

  datatype Kind = SQ | RQ

  datatype Opcode = Send | Recv

  datatype Status = Success | RespTimeoutErr

  /**
   `pageMap` is the I/O vector that the message refers to, static or dynamic, with `iovlen` entries.
   `dynamic` tells whether it was allocated for this element.
   */
  datatype Wqe = Wqe(qp: nat, opcode: Opcode, wrId: nat, byteLen: nat, iovlen: nat, pageMap: seq<Iov>, dynamic: bool)

  datatype Cqe = Cqe(qp: nat, opcode: Opcode, wrId: nat, byteLen: nat, status: Status)

  datatype Wc = Wc(wrId: nat, status: Status, opcode: Opcode, byteLen: nat, qp: nat)

  /** What the transport is given: an I/O vector and a size. */
  datatype Msg = Msg(iov: seq<Iov>, size: nat)

  function OpcodeOf(kind: Kind): Opcode {
    match kind
    case SQ => Send
    case RQ => Recv
  }

  function MsgOf(w: Wqe): Msg {
    Msg(if w.iovlen <= |w.pageMap| then w.pageMap[..w.iovlen] else w.pageMap, w.byteLen)
  }

  /** A CQE keeps only 16 bits of the byte count. */
  function MakeCqe(w: Wqe, status: Status): Cqe {
    Cqe(w.qp, w.opcode, w.wrId, w.byteLen % U16, status)
  }

  function MakeWc(c: Cqe): Wc {
    Wc(c.wrId, c.status, c.opcode, c.byteLen, c.qp)
  }

  /**
   `w` is a correctly built element for `req`. Entries of the map beyond those written, up to the
   estimate, hold whatever the memory held before.
   */
  ghost predicate Built(P: nat, mrs: seq<MrSlot>, req: Request, kind: Kind, qp: nat, w: Wqe) {
    && WellFormed(P, mrs, req)
    && Accepted(P, mrs, req)
    && w.qp == qp
    && w.opcode == OpcodeOf(kind)
    && w.wrId == req.wrId % U32
    && w.byteLen == Length(req) % U32
    && w.iovlen == IovLen(P, mrs, req) <= |w.pageMap|
    && Entries(P, mrs, req) <= w.pageMap
    && w.dynamic == (w.iovlen > SGE_PER_WQE)
  }

  /** The 32-bit byte count of a request: no wrap when the entry limit spans less than 2^32 bytes. */
  lemma ByteLenExact(P: nat, mrs: seq<MrSlot>, req: Request)
    requires WellFormed(P, mrs, req) && Accepted(P, mrs, req) && MAX_IOVLEN * P <= U32
    ensures Length(req) < U32
  {
    if AllKind(mrs, Segments(req), false) {
      EntryLimitBoundsLength(P, mrs, req);
    }
  }

  /** Walking the entries that were written visits the translated address of every byte. */
  lemma EntriesVisit(P: nat, mrs: seq<MrSlot>, req: Request)
    requires req.numSge <= |req.sgList| && AllResolved(P, mrs, req)
    ensures Bytes(Entries(P, mrs, req)) == RequestAddresses(P, mrs, req)
    ensures |RequestAddresses(P, mrs, req)| == Length(req)
    ensures |Entries(P, mrs, req)| <= IovLen(P, mrs, req)
  {
    var segs := Segments(req);
    IovsVisit(P, mrs, segs, |segs|);
    SizingBoundsFilling(P, mrs, segs, |segs|);
  }

  /**
   Reading the first `size` bytes of the message visits the translated address of every byte of
   the mapped segments, in order, once each. The unwritten tail of the map is never reached.
   */
  lemma MessageReadsRequest(P: nat, mrs: seq<MrSlot>, req: Request, kind: Kind, qp: nat, w: Wqe)
    requires Built(P, mrs, req, kind, qp, w)
    requires MAX_IOVLEN * P <= U32
    ensures AllResolved(P, mrs, req)
    ensures MsgOf(w).size == Length(req) <= |Bytes(MsgOf(w).iov)|
    ensures Bytes(MsgOf(w).iov)[..MsgOf(w).size] == RequestAddresses(P, mrs, req)
  {
    ByteLenExact(P, mrs, req);
    EntriesVisit(P, mrs, req);
    SlackIsNotRead(Entries(P, mrs, req), w.pageMap, w.iovlen);
    PrefixTaken(RequestAddresses(P, mrs, req), Bytes(MsgOf(w).iov));
  }

  lemma PrefixTaken(a: seq<int>, b: seq<int>)
    requires a <= b
    ensures b[..|a|] == a
  {
  }

  /** Walking a longer list starts with walking its prefix. */
  lemma SlackIsNotRead(iovs: seq<Iov>, pageMap: seq<Iov>, n: nat)
    requires |iovs| <= n <= |pageMap| && iovs <= pageMap
    ensures Bytes(iovs) <= Bytes(pageMap[..n])
  {
    var slack := pageMap[|iovs|..n];
    assert pageMap[..n] == iovs + slack;
    BytesConcat(iovs, slack);
  }

  /** Field widths: the identifier survives modulo 2^32 and the byte count modulo 2^16. */
  lemma CompletionFields(P: nat, mrs: seq<MrSlot>, req: Request, kind: Kind, qp: nat, w: Wqe, status: Status)
    requires Built(P, mrs, req, kind, qp, w)
    requires MAX_IOVLEN * P <= U32
    ensures req.numSge <= |req.sgList|
    ensures var wc := MakeWc(MakeCqe(w, status));
            && wc.qp == qp && wc.opcode == (if kind == SQ then Send else Recv) && wc.status == status
            && (wc.wrId == req.wrId <==> req.wrId < U32)
            && (wc.byteLen == Length(req) <==> Length(req) < U16)
  {
    BuiltCount(P, mrs, req, kind, qp, w);
    hide WellFormed, Accepted, Length, Entries, IovLen;
    ByteLenExact(P, mrs, req);
  }

  // ---------- in terms of the request's own list ----------

  /** How many entries of the request's list are mapped: the first min(num_sge, 4), none for a negative count. */
  function Mapped(req: Request): nat {
    if req.numSge <= 0 then 0 else Min(req.numSge, SGE_PER_WQE)
  }

  lemma SegmentsAreFirst(req: Request)
    requires req.numSge <= |req.sgList|
    ensures |Segments(req)| == Mapped(req) <= |req.sgList|
    ensures forall i :: 0 <= i < Mapped(req) ==> Segments(req)[i] == req.sgList[i]
  {
  }

  lemma {:induction false} TotalPrefix(a: seq<Sge>, b: seq<Sge>, n: nat)
    requires n <= |a| && n <= |b| && forall i :: 0 <= i < n ==> a[i] == b[i]
    ensures TotalLength(a, n) == TotalLength(b, n)
    decreases n
  {
    if n > 0 { TotalPrefix(a, b, n - 1); }
  }

  /** The length of a request is the sum of the lengths of the entries that are mapped. */
  lemma LengthIsSum(req: Request)
    requires req.numSge <= |req.sgList|
    ensures Mapped(req) <= |req.sgList| && Length(req) == TotalLength(req.sgList, Mapped(req))
  {
    SegmentsAreFirst(req);
    TotalPrefix(Segments(req), req.sgList, Mapped(req));
  }

  lemma {:induction false} AddressAt(P: nat, mrs: seq<MrSlot>, segs: seq<Sge>, n: nat, i: nat, k: nat)
    requires i < n <= |segs| && Resolved(P, mrs, segs, n) && k < segs[i].length
    ensures |Addresses(P, mrs, segs, n)| == TotalLength(segs, n) && TotalLength(segs, i) + k < TotalLength(segs, n)
    ensures SgeInside(P, MrOf(mrs, segs[i]), segs[i])
    ensures Addresses(P, mrs, segs, n)[TotalLength(segs, i) + k]
            == Translate(P, MrOf(mrs, segs[i]), segs[i].addr + k)
    decreases n
  {
    hide Resolved, SgeInside, Translate, Addresses, SegmentAddresses;
    AddressesSplit(P, mrs, segs, n);
    if i < n - 1 {
      AddressAt(P, mrs, segs, n - 1, i, k);
    } else {
      SegmentByte(P, MrOf(mrs, segs[i]), segs[i], k);
    }
  }

  lemma AddressesSplit(P: nat, mrs: seq<MrSlot>, segs: seq<Sge>, n: nat)
    requires 0 < n <= |segs| && Resolved(P, mrs, segs, n)
    ensures Resolved(P, mrs, segs, n - 1)
    ensures segs[n - 1].lkey < |mrs| && mrs[segs[n - 1].lkey].Registered?
    ensures SgeInside(P, MrOf(mrs, segs[n - 1]), segs[n - 1])
    ensures var all, before := Addresses(P, mrs, segs, n), Addresses(P, mrs, segs, n - 1);
            && |before| == TotalLength(segs, n - 1) && |all| == TotalLength(segs, n) == |before| + segs[n - 1].length
            && all == before + SegmentAddresses(P, MrOf(mrs, segs[n - 1]), segs[n - 1])
  {
    hide Resolved, SgeInside, Translate, Addresses, SegmentAddresses;
    IovsParts(P, mrs, segs, n);
    IovsVisit(P, mrs, segs, n);
    IovsVisit(P, mrs, segs, n - 1);
  }

  lemma SegmentByte(P: nat, mr: Mr, sge: Sge, k: nat)
    requires SgeInside(P, mr, sge) && k < sge.length
    ensures SegmentAddresses(P, mr, sge)[k] == Translate(P, mr, sge.addr + k)
  {
    hide Translate;
  }

  /**
   Byte for byte: in a message built for a request, the byte at place `k` of the i-th mapped entry of the request's
   list comes behind the bytes of the entries before it, and is the one at the translated address.
   */
  lemma MessageByte(P: nat, mrs: seq<MrSlot>, req: Request, kind: Kind, qp: nat, w: Wqe, i: nat, k: nat)
    requires Built(P, mrs, req, kind, qp, w) && MAX_IOVLEN * P <= U32
    requires i < req.numSge && i < SGE_PER_WQE && k < req.sgList[i].length
    ensures req.sgList[i].lkey < |mrs| && mrs[req.sgList[i].lkey].Registered?
    ensures SgeInside(P, MrOf(mrs, req.sgList[i]), req.sgList[i])
    ensures var sge, at := req.sgList[i], TotalLength(req.sgList, i) + k;
            && at < MsgOf(w).size <= |Bytes(MsgOf(w).iov)|
            && Bytes(MsgOf(w).iov)[at] == Translate(P, MrOf(mrs, sge), sge.addr + k)
  {
    BuiltCount(P, mrs, req, kind, qp, w);
    hide Built, AllResolved, RequestAddresses, Length, Mapped, SgeInside, Translate, Bytes, MsgOf, TotalLength;
    MessageReadsRequest(P, mrs, req, kind, qp, w);
    RequestByte(P, mrs, req, i, k);
    var m, at := MsgOf(w), TotalLength(req.sgList, i) + k;
    assert Bytes(m.iov)[..m.size][at] == Bytes(m.iov)[at];
  }

  lemma BuiltCount(P: nat, mrs: seq<MrSlot>, req: Request, kind: Kind, qp: nat, w: Wqe)
    requires Built(P, mrs, req, kind, qp, w)
    ensures req.numSge <= |req.sgList|
  {
    hide Accepted, Length, Entries, IovLen;
  }

  lemma RequestByte(P: nat, mrs: seq<MrSlot>, req: Request, i: nat, k: nat)
    requires req.numSge <= |req.sgList| && AllResolved(P, mrs, req)
    requires i < req.numSge && i < SGE_PER_WQE && k < req.sgList[i].length
    ensures req.sgList[i].lkey < |mrs| && mrs[req.sgList[i].lkey].Registered?
    ensures SgeInside(P, MrOf(mrs, req.sgList[i]), req.sgList[i])
    ensures var sge, at := req.sgList[i], TotalLength(req.sgList, i) + k;
            && at < Length(req) == |RequestAddresses(P, mrs, req)|
            && RequestAddresses(P, mrs, req)[at] == Translate(P, MrOf(mrs, sge), sge.addr + k)
  {
    SegmentsAreFirst(req);
    hide Segments, Resolved, SgeInside, Translate, Addresses, TotalLength;
    var segs := Segments(req);
    TotalPrefix(segs, req.sgList, i);
    KeysInTable(P, mrs, segs, i);
    AddressAt(P, mrs, segs, |segs|, i, k);
  }

  lemma KeysInTable(P: nat, mrs: seq<MrSlot>, segs: seq<Sge>, i: nat)
    requires Resolved(P, mrs, segs, |segs|) && i < |segs|
    ensures segs[i].lkey < |mrs| && mrs[segs[i].lkey].Registered? && SgeInside(P, MrOf(mrs, segs[i]), segs[i])
  {
    hide SgeInside;
  }

  /** The segment's key names a region. */
  predicate Named(mrs: seq<MrSlot>, sge: Sge) {
    sge.lkey < |mrs| && mrs[sge.lkey].Registered?
  }

  /** Entries reserved for one segment, by the formula of the sizing pass; 1 for a segment mapped one to one. */
  function Reservation(P: nat, mrs: seq<MrSlot>, sge: Sge): nat
    requires P >= 1
  {
    if sge.lkey < |mrs| && mrs[sge.lkey].Registered? && mrs[sge.lkey].mr.UserMr? then
      var mr := mrs[sge.lkey].mr;
      (sge.length + (sge.addr - mr.va + mr.vaOffset) % P) / P + 1
    else 1
  }

  function Reservations(P: nat, mrs: seq<MrSlot>, list: seq<Sge>, n: nat): nat
    requires P >= 1 && n <= |list|
  {
    if n == 0 then 0 else Reservations(P, mrs, list, n - 1) + Reservation(P, mrs, list[n - 1])
  }

  lemma {:induction false} EstimateIsReservations(P: nat, mrs: seq<MrSlot>, segs: seq<Sge>, list: seq<Sge>, n: nat)
    requires P >= 1 && n <= |segs| && n <= |list| && Resolved(P, mrs, segs, n)
    requires forall i :: 0 <= i < n ==> segs[i] == list[i]
    ensures Estimate(P, mrs, segs, n) == Reservations(P, mrs, list, n)
    decreases n
  {
    if n > 0 { EstimateIsReservations(P, mrs, segs, list, n - 1); }
  }

  /**
   A request is accepted exactly if every mapped entry of its list names a registered region and the reservations
   of these entries add up to DIS_MAX_IOVLEN at most; their sum is the length of the I/O vector.
   */
  lemma AcceptedExactly(P: nat, mrs: seq<MrSlot>, req: Request)
    requires WellFormed(P, mrs, req)
    ensures Mapped(req) <= |req.sgList|
    ensures Accepted(P, mrs, req) <==>
            && (forall i :: 0 <= i < Mapped(req) ==> Named(mrs, req.sgList[i]))
            && Reservations(P, mrs, req.sgList, Mapped(req)) <= MAX_IOVLEN
    ensures Accepted(P, mrs, req) ==> IovLen(P, mrs, req) == Reservations(P, mrs, req.sgList, Mapped(req))
  {
    SegmentsAreFirst(req);
    hide SgeInside, Estimate, Reservations;
    if AllRegistered(mrs, Segments(req), |Segments(req)|) {
      EstimateIsReservations(P, mrs, Segments(req), req.sgList, Mapped(req));
    }
  }

  /** Segments that are mapped one to one, with lengths that sum below 2^32, are always accepted. */
  lemma OneToOneAccepted(P: nat, mrs: seq<MrSlot>, req: Request)
    requires P >= 1 && |mrs| == MR_MAX && req.numSge <= |req.sgList|
    requires Mapped(req) <= |req.sgList| && TotalLength(req.sgList, Mapped(req)) < U32
    requires forall i :: 0 <= i < Mapped(req) ==>
               Named(mrs, req.sgList[i]) && mrs[req.sgList[i].lkey].mr.DmaMr? && req.sgList[i].length < U32
    ensures WellFormed(P, mrs, req) && Accepted(P, mrs, req) && IovLen(P, mrs, req) == Mapped(req)
  {
    SegmentsAreFirst(req);
    var segs := Segments(req);
    TotalPrefix(segs, req.sgList, Mapped(req));
    hide Segments, Mapped, TotalLength, Estimate;
    SizingBoundsFilling(P, mrs, segs, |segs|);
  }

  /** An element gets a map of its own exactly if the reservations exceed the four entries that the slot holds. */
  lemma OwnMapExactly(P: nat, mrs: seq<MrSlot>, req: Request, kind: Kind, qp: nat, w: Wqe)
    requires Built(P, mrs, req, kind, qp, w)
    ensures P >= 1 && Mapped(req) <= |req.sgList|
    ensures w.dynamic <==> Reservations(P, mrs, req.sgList, Mapped(req)) > SGE_PER_WQE
  {
    hide WellFormed, Accepted, IovLen, Entries, Reservations, Mapped;
    AcceptedExactly(P, mrs, req);
    PageSizePositive(P, mrs, req);
  }

  lemma PageSizePositive(P: nat, mrs: seq<MrSlot>, req: Request)
    requires WellFormed(P, mrs, req)
    ensures P >= 1
  {
  }
}

/**
 A protection domain: its tables and counters, and the kernel memory held for the memory regions and queue
 pairs created in it. Each call may fail at any of its allocations and must then undo the earlier ones.
 */
module ProtectionDomain {
  import opened Circ
  import opened Gather

  const QP_INI: nat := 100
  const QP_MAX: nat := 200
  const MR_INI: nat := 0

  /** The outcome of an allocation: a block that was not in use, or nothing. */
  datatype Alloc = NoMemory | Block(at: nat)

  /** The outcome of pinning user memory: an object, its pages' addresses (0 for none) and its first byte's offset. */
  datatype Pin = PinError | Pinned(at: nat, pages: seq<nat>, offset: nat)

  datatype MrObj = DmaObj(block: nat) | UserObj(block: nat, umem: nat, pageList: nat, mr: Mr)

  datatype QpObj = QpObj(block: nat, sqBuf: nat, rqBuf: nat, sqSize: nat, rqSize: nat)

  datatype Owner = MrOwner(lkey: nat) | QpOwner(qpn: nat)

  datatype MrEntry = NullMr | MrEntry(obj: MrObj)

  datatype QpEntry = NullQp | QpEntry(obj: QpObj)

  /** `heap` maps each block in use to the object it was allocated for; `mrs` and `qps` are the live objects. */
  datatype State = State(
    mrC: nat, qpC: nat, mrList: seq<MrEntry>, qpList: seq<QpEntry>,
    heap: map<nat, Owner>, mrs: map<nat, MrObj>, qps: map<nat, QpObj>)

  function MrBlocks(o: MrObj): set<nat> {
    match o
    case DmaObj(b) => {b}
    case UserObj(b, u, p, _) => {b, u, p}
  }

  function QpBlocks(o: QpObj): set<nat> {
    {o.block, o.sqBuf, o.rqBuf}
  }

  function MrOfObj(o: MrObj): Mr {
    match o
    case DmaObj(_) => DmaMr
    case UserObj(_, _, _, mr) => mr
  }

  datatype Call =
    | GetDmaMr(mr: Alloc)
    | RegUserMr(va: nat, length: nat, mr: Alloc, pin: Pin, pageList: Alloc)
    | DeregMr(lkey: nat)
    | CreateQp(maxSendWr: nat, maxRecvWr: nat, qp: Alloc, sqBuf: Alloc, rqBuf: Alloc)
    | DestroyQp(qpn: nat)

  /** Blocks handed out by successive allocations are unused and differ from one another. */
  ghost predicate FreshBlocks(heap: map<nat, Owner>, a: Alloc, b: Alloc, c: Alloc) {
    && (a.Block? ==> a.at !in heap)
    && (b.Block? ==> b.at !in heap)
    && (c.Block? ==> c.at !in heap)
    && (a.Block? && b.Block? ==> a.at != b.at)
    && (a.Block? && c.Block? ==> a.at != c.at)
    && (b.Block? && c.Block? ==> b.at != c.at)
  }

  function PinAlloc(pin: Pin): Alloc {
    if pin.Pinned? then Block(pin.at) else NoMemory
  }

  /** What callers and the kernel guarantee: objects are released once, while live, and blocks are fresh. */
  ghost predicate Legal(P: nat, s: State, c: Call) {
    match c
    case GetDmaMr(a) => FreshBlocks(s.heap, a, NoMemory, NoMemory)
    case RegUserMr(_, length, a, pin, p) =>
      && FreshBlocks(s.heap, a, PinAlloc(pin), p)
      && (pin.Pinned? ==> pin.offset < P && pin.offset + length <= |pin.pages| * P)
    case DeregMr(k) => k in s.mrs
    case CreateQp(sw, rw, q, sb, rb) => FreshBlocks(s.heap, q, sb, rb) && sw + 1 < U32 && rw + 1 < U32
    case DestroyQp(n) => n in s.qps
  }

  predicate Succeeds(s: State, c: Call) {
    match c
    case GetDmaMr(a) => s.mrC < MR_MAX && a.Block?
    case RegUserMr(_, _, a, pin, p) =>
      s.mrC < MR_MAX && a.Block? && pin.Pinned? && |pin.pages| > 0 && p.Block? && 0 !in pin.pages
    case DeregMr(_) => true
    case CreateQp(_, _, q, sb, rb) => s.qpC < QP_MAX && q.Block? && sb.Block? && rb.Block?
    case DestroyQp(_) => true
  }

  function Give(h: map<nat, Owner>, blocks: set<nat>, o: Owner): map<nat, Owner> {
    h + map b | b in blocks :: o
  }

  /** Entering a new memory region under the next key. */
  function AddMr(s: State, o: MrObj): State
    requires s.mrC < |s.mrList|
  {
    s.(mrC := s.mrC + 1, mrList := s.mrList[s.mrC := MrEntry(o)], mrs := s.mrs[s.mrC := o],
       heap := Give(s.heap, MrBlocks(o), MrOwner(s.mrC)))
  }

  function AddQp(s: State, o: QpObj): State
    requires s.qpC < |s.qpList|
  {
    s.(qpC := s.qpC + 1, qpList := s.qpList[s.qpC := QpEntry(o)], qps := s.qps[s.qpC := o],
       heap := Give(s.heap, QpBlocks(o), QpOwner(s.qpC)))
  }

  /** All or nothing: a call that fails leaves the state exactly as it was. */
  function Do(s: State, c: Call): State
    requires |s.mrList| == MR_MAX && |s.qpList| == QP_MAX
  {
    if !Succeeds(s, c) then s
    else match c
      case GetDmaMr(a) => AddMr(s, DmaObj(a.at))
      case RegUserMr(va, length, a, pin, p) =>
        AddMr(s, UserObj(a.at, pin.at, p.at, UserMr(va, pin.offset, length, pin.pages)))
      case DeregMr(k) => if k in s.mrs then s.(mrs := s.mrs - {k}, heap := s.heap - MrBlocks(s.mrs[k])) else s
      case CreateQp(sw, rw, q, sb, rb) =>
        AddQp(s, QpObj(q.at, sb.at, rb.at, StoredSize(sw), StoredSize(rw)))
      case DestroyQp(n) => if n in s.qps then s.(qps := s.qps - {n}, heap := s.heap - QpBlocks(s.qps[n])) else s
  }

  // ---------- what every sequence of calls keeps ----------

  /** Block `b` is one of those that the live object `owner` was given. */
  ghost predicate BelongsTo(mrs: map<nat, MrObj>, qps: map<nat, QpObj>, b: nat, owner: Owner) {
    match owner
    case MrOwner(k) => k in mrs && b in MrBlocks(mrs[k])
    case QpOwner(n) => n in qps && b in QpBlocks(qps[n])
  }

  /** The blocks in use are exactly those of the live objects, and each belongs to one object only. */
  ghost predicate HeapExact(s: State) {
    && (forall b :: b in s.heap ==> BelongsTo(s.mrs, s.qps, b, s.heap[b]))
    && (forall b, o :: BelongsTo(s.mrs, s.qps, b, o) ==> b in s.heap && s.heap[b] == o)
  }

  /** Keys below the counters have been issued, and the table still names the object of each. */
  ghost predicate TablesOk(P: nat, s: State) {
    && |s.mrList| == MR_MAX && |s.qpList| == QP_MAX
    && MR_INI <= s.mrC <= MR_MAX && QP_INI <= s.qpC <= QP_MAX
    && (forall k :: 0 <= k < MR_MAX ==> (s.mrList[k] == NullMr <==> k >= s.mrC))
    && (forall k :: k in s.mrs ==> k < s.mrC && s.mrList[k] == MrEntry(s.mrs[k]))
    && (forall n :: n in s.qps ==> QP_INI <= n < s.qpC && s.qpList[n] == QpEntry(s.qps[n]))
    && (forall k :: 0 <= k < s.mrC && s.mrList[k].MrEntry? ==> ValidMr(P, MrOfObj(s.mrList[k].obj)))
  }

  ghost predicate Inv(P: nat, s: State) {
    P >= 1 && HeapExact(s) && TablesOk(P, s)
  }

  lemma AddMrHeap(s: State, o: MrObj)
    requires HeapExact(s) && s.mrC < |s.mrList| && s.mrC !in s.mrs
    requires MrBlocks(o) !! s.heap.Keys
    ensures HeapExact(AddMr(s, o))
  {
    hide MrBlocks, QpBlocks;
    var s' := AddMr(s, o);
    forall b, w
      ensures BelongsTo(s'.mrs, s'.qps, b, w) <==> b in s'.heap && s'.heap[b] == w
    {
      if w != MrOwner(s.mrC) {
        assert BelongsTo(s'.mrs, s'.qps, b, w) <==> BelongsTo(s.mrs, s.qps, b, w);
      } else {
        assert !BelongsTo(s.mrs, s.qps, b, w);
      }
    }
  }

  lemma AddQpHeap(s: State, o: QpObj)
    requires HeapExact(s) && s.qpC < |s.qpList| && s.qpC !in s.qps
    requires QpBlocks(o) !! s.heap.Keys
    ensures HeapExact(AddQp(s, o))
  {
    hide MrBlocks, QpBlocks;
    var s' := AddQp(s, o);
    forall b, w
      ensures BelongsTo(s'.mrs, s'.qps, b, w) <==> b in s'.heap && s'.heap[b] == w
    {
      if w != QpOwner(s.qpC) {
        assert BelongsTo(s'.mrs, s'.qps, b, w) <==> BelongsTo(s.mrs, s.qps, b, w);
      } else {
        assert !BelongsTo(s.mrs, s.qps, b, w);
      }
    }
  }

  lemma RemoveMrHeap(s: State, k: nat)
    requires HeapExact(s) && k in s.mrs
    ensures HeapExact(s.(mrs := s.mrs - {k}, heap := s.heap - MrBlocks(s.mrs[k])))
  {
    hide MrBlocks, QpBlocks;
    var s' := s.(mrs := s.mrs - {k}, heap := s.heap - MrBlocks(s.mrs[k]));
    forall b, w
      ensures BelongsTo(s'.mrs, s'.qps, b, w) <==> b in s'.heap && s'.heap[b] == w
    {
      assert BelongsTo(s'.mrs, s'.qps, b, w) <==> BelongsTo(s.mrs, s.qps, b, w) && w != MrOwner(k);
      assert b in MrBlocks(s.mrs[k]) <==> BelongsTo(s.mrs, s.qps, b, MrOwner(k));
    }
  }

  lemma RemoveQpHeap(s: State, n: nat)
    requires HeapExact(s) && n in s.qps
    ensures HeapExact(s.(qps := s.qps - {n}, heap := s.heap - QpBlocks(s.qps[n])))
  {
    hide MrBlocks, QpBlocks;
    var s' := s.(qps := s.qps - {n}, heap := s.heap - QpBlocks(s.qps[n]));
    forall b, w
      ensures BelongsTo(s'.mrs, s'.qps, b, w) <==> b in s'.heap && s'.heap[b] == w
    {
      assert BelongsTo(s'.mrs, s'.qps, b, w) <==> BelongsTo(s.mrs, s.qps, b, w) && w != QpOwner(n);
      assert b in QpBlocks(s.qps[n]) <==> BelongsTo(s.mrs, s.qps, b, QpOwner(n));
    }
  }

  lemma DoKeepsHeap(P: nat, s: State, c: Call)
    requires Inv(P, s) && Legal(P, s, c)
    ensures HeapExact(Do(s, c))
  {
    if Succeeds(s, c) {
      match c
      case GetDmaMr(a) => AddMrHeap(s, DmaObj(a.at));
      case RegUserMr(va, length, a, pin, p) =>
        AddMrHeap(s, UserObj(a.at, pin.at, p.at, UserMr(va, pin.offset, length, pin.pages)));
      case DeregMr(k) => RemoveMrHeap(s, k);
      case CreateQp(sw, rw, q, sb, rb) =>
        AddQpHeap(s, QpObj(q.at, sb.at, rb.at, StoredSize(sw), StoredSize(rw)));
      case DestroyQp(n) => RemoveQpHeap(s, n);
    }
  }

  lemma DoKeepsTables(P: nat, s: State, c: Call)
    requires Inv(P, s) && Legal(P, s, c)
    ensures TablesOk(P, Do(s, c))
  {
    hide HeapExact, FreshBlocks;
  }

  // ---------- runs ----------

  /** The states of a sequence of calls on one domain, from an empty one. */
  ghost predicate Empty(s: State) {
    && s.mrC == MR_INI && s.qpC == QP_INI && s.heap == map[] && s.mrs == map[] && s.qps == map[]
    && s.mrList == seq(MR_MAX, _ => NullMr) && s.qpList == seq(QP_MAX, _ => NullQp)
  }

  ghost predicate IsRun(P: nat, states: seq<State>, calls: seq<Call>) {
    && P >= 1 && |states| == |calls| + 1 && Empty(states[0])
    && forall k :: 0 <= k < |calls| ==> RunsTo(P, states[k], calls[k], states[k + 1])
  }

  ghost predicate RunsTo(P: nat, s: State, c: Call, s': State) {
    && |s.mrList| == MR_MAX && |s.qpList| == QP_MAX
    && Legal(P, s, c) && s' == Do(s, c)
  }

  /**
   Resource conservation: after any sequence of registrations, deregistrations, creations and destructions,
   with any allocation failing anywhere, the blocks in use are exactly those of the live objects.
   */
  lemma {:induction false} RunConserves(P: nat, states: seq<State>, calls: seq<Call>, k: nat)
    requires IsRun(P, states, calls) && k < |states|
    ensures Inv(P, states[k])
    decreases k
  {
    if k > 0 {
      RunConserves(P, states, calls, k - 1);
      assert RunsTo(P, states[k - 1], calls[k - 1], states[k]);
      hide Do, Legal, HeapExact, TablesOk, Empty;
      DoKeepsHeap(P, states[k - 1], calls[k - 1]);
      DoKeepsTables(P, states[k - 1], calls[k - 1]);
    }
  }

  predicate Registers(c: Call) {
    c.GetDmaMr? || c.RegUserMr?
  }

  lemma CountersStep(P: nat, s: State, c: Call)
    requires Inv(P, s) && Legal(P, s, c)
    ensures Do(s, c).mrC == s.mrC + (if Registers(c) && Succeeds(s, c) then 1 else 0)
    ensures Do(s, c).qpC == s.qpC + (if c.CreateQp? && Succeeds(s, c) then 1 else 0)
  {
    hide HeapExact, FreshBlocks;
  }

  lemma {:induction false} CountersGrow(P: nat, states: seq<State>, calls: seq<Call>, j: nat, k: nat)
    requires IsRun(P, states, calls) && j <= k < |states|
    ensures states[j].mrC <= states[k].mrC && states[j].qpC <= states[k].qpC
    decreases k
  {
    hide Inv, Do, Legal, Empty;
    if j < k {
      CountersGrow(P, states, calls, j, k - 1);
      RunConserves(P, states, calls, k - 1);
      assert RunsTo(P, states[k - 1], calls[k - 1], states[k]);
      CountersStep(P, states[k - 1], calls[k - 1]);
    }
  }

  /**
   Uniqueness: two successful registrations in the life of a domain never issue the same key, nor two
   creations the same queue pair number, however many objects were released in between.
   */
  lemma NeverReissued(P: nat, states: seq<State>, calls: seq<Call>, j: nat, k: nat)
    requires IsRun(P, states, calls) && j < k < |calls|
    requires Succeeds(states[j], calls[j]) && Succeeds(states[k], calls[k])
    ensures Registers(calls[j]) && Registers(calls[k]) ==> states[j].mrC < states[k].mrC
    ensures calls[j].CreateQp? && calls[k].CreateQp? ==> states[j].qpC < states[k].qpC
  {
    hide Inv, Do, Legal, Empty, Succeeds;
    RunConserves(P, states, calls, j);
    assert RunsTo(P, states[j], calls[j], states[j + 1]);
    CountersStep(P, states[j], calls[j]);
    CountersGrow(P, states, calls, j + 1, k);
  }

  // ---------- the calls themselves ----------

  lemma HeapAddThree(h: map<nat, Owner>, a: nat, b: nat, c: nat, o: Owner)
    ensures h[a := o][b := o][c := o] == Give(h, {a, b, c}, o)
  {
  }

  lemma HeapUndo(h: map<nat, Owner>, a: nat, o: Owner)
    requires a !in h
    ensures h[a := o] - {a} == h
  {
  }

  lemma GiveUndo(h: map<nat, Owner>, a: Alloc, b: Alloc, c: Alloc, o: Owner)
    requires FreshBlocks(h, a, b, c) && a.Block? && b.Block? && c.Block?
    ensures Give(h, {a.at, b.at, c.at}, o) - {a.at, b.at, c.at} == h
  {
  }

  datatype Issued = Refused | Issued(key: nat)

  /** `live` and `qps` record the objects that callers hold; the tables keep entries of released ones. */
  class Pd {
    const mrList: array<MrEntry>
    const qpList: array<QpEntry>
    var mrC: nat
    var qpC: nat
    var heap: map<nat, Owner>
    ghost var mrs: map<nat, MrObj>
    ghost var qps: map<nat, QpObj>

    ghost function Abs(): State
      reads this, mrList, qpList
    {
      State(mrC, qpC, mrList[..], qpList[..], heap, mrs, qps)
    }

    ghost predicate Valid(P: nat)
      reads this, mrList, qpList
    {
      Inv(P, Abs())
    }

    /** dis_alloc_pd, on zeroed memory. */
    constructor (P: nat)
      requires P >= 1
      ensures Valid(P) && Empty(Abs()) && fresh(mrList) && fresh(qpList)
    {
      mrList := new MrEntry[MR_MAX](i => NullMr);
      qpList := new QpEntry[QP_MAX](i => NullQp);
      mrC, qpC := MR_INI, QP_INI;
      heap, mrs, qps := map[], map[], map[];
    }

    method GetDmaMr(ghost P: nat, mr: Alloc) returns (r: Issued)
      requires Valid(P) && Legal(P, Abs(), Call.GetDmaMr(mr))
      modifies this, mrList
      ensures Abs() == Do(old(Abs()), Call.GetDmaMr(mr))
      ensures r == if Succeeds(old(Abs()), Call.GetDmaMr(mr)) then Issued(old(mrC)) else Refused
    {
      if mrC >= MR_MAX || mr.NoMemory? {
        return Refused;
      }
      heap := heap[mr.at := MrOwner(mrC)];
      EnterMr(DmaObj(mr.at));
      r := Issued(mrC - 1);
    }

    /** Takes the next key for an object and enters it in the table. */
    method EnterMr(obj: MrObj)
      requires mrC < mrList.Length
      modifies this`mrC, this`mrs, mrList
      ensures var s := old(Abs());
              Abs() == s.(mrC := s.mrC + 1, mrList := s.mrList[s.mrC := MrEntry(obj)], mrs := s.mrs[s.mrC := obj])
    {
      mrList[mrC] := MrEntry(obj);
      mrs := mrs[mrC := obj];
      mrC := mrC + 1;
    }

    method EnterQp(obj: QpObj)
      requires qpC < qpList.Length
      modifies this`qpC, this`qps, qpList
      ensures var s := old(Abs());
              Abs() == s.(qpC := s.qpC + 1, qpList := s.qpList[s.qpC := QpEntry(obj)], qps := s.qps[s.qpC := obj])
    {
      qpList[qpC] := QpEntry(obj);
      qps := qps[qpC := obj];
      qpC := qpC + 1;
    }

    /** Copies the address of each pinned page into the list, up to the first that has none. */
    static method StorePages(pinned: seq<nat>, pages: array<nat>) returns (ok: bool)
      requires pages.Length == |pinned|
      modifies pages
      ensures ok <==> 0 !in pinned
      ensures ok ==> pages[..] == pinned
    {
      var i := 0;
      while i < |pinned|
        invariant 0 <= i <= |pinned|
        invariant pages[..i] == pinned[..i] && 0 !in pinned[..i]
      {
        pages[i] := pinned[i];
        if pages[i] == 0 {
          return false;
        }
        i := i + 1;
      }
      ok := true;
      assert pinned[..i] == pinned && pages[..i] == pages[..];
    }

    /** Up to three allocations for one object; a failure undoes, in reverse order, those before it. */
    method TakeBlocks(owner: Owner, a: Alloc, b: Alloc, c: Alloc) returns (ok: bool)
      requires FreshBlocks(heap, a, b, c)
      modifies this`heap
      ensures ok <==> a.Block? && b.Block? && c.Block?
      ensures !ok ==> heap == old(heap)
      ensures ok ==> heap == Give(old(heap), {a.at, b.at, c.at}, owner)
    {
      ghost var before := heap;
      if a.NoMemory? {
        return false;
      }
      heap := heap[a.at := owner];
      if b.Block? {
        heap := heap[b.at := owner];
        if c.Block? {
          heap := heap[c.at := owner];
          HeapAddThree(before, a.at, b.at, c.at, owner);
          return true;
        }
        heap := heap - {b.at};
        HeapUndo(before[a.at := owner], b.at, owner);
      }
      heap := heap - {a.at};
      HeapUndo(before, a.at, owner);
      ok := false;
    }

    /** An object's blocks are released one at a time. */
    method ReleaseBlocks(a: nat, b: nat, c: nat)
      modifies this`heap
      ensures heap == old(heap) - {a, b, c}
    {
      heap := heap - {c};
      heap := heap - {b};
      heap := heap - {a};
    }

    method RegUserMr(ghost P: nat, va: nat, length: nat, mr: Alloc, pin: Pin, pageList: Alloc) returns (r: Issued)
      requires Valid(P) && Legal(P, Abs(), Call.RegUserMr(va, length, mr, pin, pageList))
      modifies this, mrList
      ensures Abs() == Do(old(Abs()), Call.RegUserMr(va, length, mr, pin, pageList))
      ensures r == if Succeeds(old(Abs()), Call.RegUserMr(va, length, mr, pin, pageList))
                   then Issued(old(mrC)) else Refused
    {
      Room(P, Abs());
      var list := if pin.Pinned? && |pin.pages| > 0 then pageList else NoMemory;
      assert FreshBlocks(heap, mr, PinAlloc(pin), list);
      hide Inv, Give, Legal, FreshBlocks;
      if mrC >= MR_MAX {
        return Refused;
      }
      var ok := TakeBlocks(MrOwner(mrC), mr, PinAlloc(pin), list);
      if !ok {
        return Refused;
      }
      var pages := new nat[|pin.pages|];
      ok := StorePages(pin.pages, pages);
      if !ok {
        ReleaseBlocks(mr.at, pin.at, pageList.at);
        GiveUndo(old(heap), mr, PinAlloc(pin), list, MrOwner(mrC));
        return Refused;
      }
      EnterMr(UserObj(mr.at, pin.at, pageList.at, UserMr(va, pin.offset, length, pages[..])));
      r := Issued(mrC - 1);
    }

    method DeregMr(ghost P: nat, lkey: nat, obj: MrObj)
      requires Valid(P) && lkey in mrs && mrs[lkey] == obj
      modifies this
      ensures Abs() == Do(old(Abs()), Call.DeregMr(lkey))
    {
      ghost var before := heap;
      if obj.UserObj? {
        heap := heap - {obj.pageList};
        heap := heap - {obj.umem};
      }
      heap := heap - {obj.block};
      assert heap == before - MrBlocks(obj);
      mrs := mrs - {lkey};
    }

    method CreateQp(ghost P: nat, maxSendWr: nat, maxRecvWr: nat, qp: Alloc, sqBuf: Alloc, rqBuf: Alloc)
      returns (r: Issued)
      requires Valid(P) && Legal(P, Abs(), Call.CreateQp(maxSendWr, maxRecvWr, qp, sqBuf, rqBuf))
      modifies this, qpList
      ensures Abs() == Do(old(Abs()), Call.CreateQp(maxSendWr, maxRecvWr, qp, sqBuf, rqBuf))
      ensures r == if Succeeds(old(Abs()), Call.CreateQp(maxSendWr, maxRecvWr, qp, sqBuf, rqBuf))
                   then Issued(old(qpC)) else Refused
    {
      Room(P, Abs());
      hide Inv, Give, StoredSize, Pow2, FreshBlocks;
      if qpC >= QP_MAX {
        return Refused;
      }
      var ok := TakeBlocks(QpOwner(qpC), qp, sqBuf, rqBuf);
      if !ok {
        return Refused;
      }
      EnterQp(QpObj(qp.at, sqBuf.at, rqBuf.at, StoredSize(maxSendWr), StoredSize(maxRecvWr)));
      r := Issued(qpC - 1);
    }

    /** The release of memory; that no worker uses it any more is a theorem of module PipelineRuns. */
    method DestroyQp(ghost P: nat, qpn: nat, obj: QpObj)
      requires Valid(P) && qpn in qps && qps[qpn] == obj
      modifies this
      ensures Abs() == Do(old(Abs()), Call.DestroyQp(qpn))
    {
      ghost var before := heap;
      ReleaseBlocks(obj.block, obj.sqBuf, obj.rqBuf);
      assert heap == before - QpBlocks(obj);
      qps := qps - {qpn};
    }
  }

  lemma Room(P: nat, s: State)
    requires Inv(P, s)
    ensures |s.mrList| == MR_MAX && |s.qpList| == QP_MAX && s.mrC <= MR_MAX && s.qpC <= QP_MAX
  {
  }
}

/**
 The invariant of the data path: what one work queue keeps by itself, what the completion queue keeps,
 and how they fit together. Every step of every thread keeps it.
 */
module PipelineInv {
  import opened Circ
  import opened Gather
  import opened WorkElement
  import opened Pipeline

  /** The worker holds the slot at the tail and may rewrite it. */
  predicate Busy(pc: WorkerPc) {
    pc.WTry? || pc.WXfer? || pc.WPost? || pc.WFree? || pc.WRetire?
  }

  /** The completion of the element at the tail has been generated, the element not yet retired. */
  predicate Completed(pc: WorkerPc) {
    (pc.WPost? && pc.stage == CUnlock) || pc.WFree? || pc.WRetire?
  }

  predicate Draining(pc: WorkerPc) {
    pc.WDrain? || pc.WRead? || pc.WWait? || Busy(pc)
  }

  /** Where a worker can be after it has posted a timeout. */
  predicate Ending(pc: WorkerPc) {
    Completed(pc) || pc.WDrain? || pc.WTeardown? || pc.WSetExited? || pc.WDone?
  }

  predicate InCritical(pc: WorkerPc) {
    pc.WPost? && pc.stage != CLock
  }

  /** The byte count a completion reports: all of it on success, else what is still missing. */
  function FinalLen(w: Wqe, status: Status, got: nat): nat {
    if status == Success then w.byteLen
    else if got <= w.byteLen then w.byteLen - got else 0
  }

  // ---------- one work queue ----------

  ghost predicate RingOk(ring: Ring<Wqe>, posted: seq<Wqe>, retired: nat, busy: bool) {
    && Refines(ring, posted, retired, if busy then retired + 1 else retired)
    && (busy ==> retired < |posted|)
  }

  ghost predicate OriginOk(P: nat, kind: Kind, qp: nat, o: Origin, w: Wqe) {
    Built(P, o.mrs, o.req, kind, qp, w)
  }

  ghost predicate PostedOk(P: nat, kind: Kind, qp: nat, posted: seq<Wqe>, origin: seq<Origin>) {
    && |origin| == |posted|
    && forall k :: 0 <= k < |posted| ==> OriginOk(P, kind, qp, origin[k], posted[k])
  }

  /** A slot that is being written is not live, and there is room to publish it. */
  ghost predicate PosterOk(ring: Ring<Wqe>, posted: seq<Wqe>, retired: nat, poster: PosterPc) {
    poster.PTear? || poster.PBuild? || poster.PPublish? ==> |posted| - retired <= ring.size - 2
  }

  ghost predicate FilledOk(P: nat, kind: Kind, qp: nat, ring: Ring<Wqe>, poster: PosterPc) {
    poster.PPublish? ==>
      ring.head < |ring.slots| && OriginOk(P, kind, qp, Origin(poster.req, poster.mrs), ring.slots[ring.head])
  }

  ghost predicate SlotHolds(kind: Kind, ring: Ring<Wqe>, orig: Wqe, len: nat, got: nat) {
    && ring.tail < |ring.slots|
    && ring.slots[ring.tail] == orig.(byteLen := len)
    && (kind == SQ ==> got == 0)
  }

  /** The slot in work: nothing is lost between the bytes received and the bytes still asked for. */
  ghost predicate SlotOk(kind: Kind, ring: Ring<Wqe>, orig: Wqe, pc: WorkerPc, got: nat, stop: bool) {
    match pc
    case WTry(total, left) => SlotHolds(kind, ring, orig, left, got) && total == orig.byteLen && got + left == total
    case WXfer(total, left) => SlotHolds(kind, ring, orig, left, got) && total == orig.byteLen && got + left == total
    case WPost(_, st) =>
      && SlotHolds(kind, ring, orig, FinalLen(orig, st, got), got)
      && got <= orig.byteLen
      && (st == Success && kind == RQ ==> got == orig.byteLen)
      && (st == RespTimeoutErr ==> stop)
    case WFree => ring.tail < |ring.slots| && ring.slots[ring.tail].dynamic == orig.dynamic
    case WRetire => ring.tail < |ring.slots| && !ring.slots[ring.tail].dynamic
    case _ => true
  }

  ghost predicate BusyOk(kind: Kind, ring: Ring<Wqe>, posted: seq<Wqe>, retired: nat, pc: WorkerPc, got: nat,
                         stop: bool)
  {
    Busy(pc) ==> retired < |posted| && SlotOk(kind, ring, posted[retired], pc, got, stop)
  }

  ghost predicate DoneMatches(kind: Kind, orig: Wqe, d: Done) {
    && d.got <= orig.byteLen
    && d.cqe == MakeCqe(orig.(byteLen := FinalLen(orig, d.cqe.status, d.got)), d.cqe.status)
    && (kind == RQ && d.cqe.status == Success ==> d.got == orig.byteLen)
    && (kind == SQ ==> d.got == 0)
  }

  ghost predicate DoneOk(kind: Kind, posted: seq<Wqe>, retired: nat, done: seq<Done>, completed: bool) {
    && |done| == retired + (if completed then 1 else 0)
    && |done| <= |posted|
    && (forall k :: 0 <= k < |done| ==> DoneMatches(kind, posted[k], done[k]))
  }

  /** All completions but the last are successes, and after a timeout the worker only winds up. */
  ghost predicate ShapeOk(done: seq<Done>, stop: bool, pc: WorkerPc) {
    && (forall k :: 0 <= k < |done| && done[k].cqe.status == RespTimeoutErr ==>
          k == |done| - 1 && stop && Ending(pc))
    && (pc.WPost? && pc.stage == CUnlock ==> |done| > 0 && done[|done| - 1].cqe.status == pc.status)
  }

  predicate LastTimedOut(done: seq<Done>) {
    |done| > 0 && done[|done| - 1].cqe.status == RespTimeoutErr
  }

  /** A message that was accepted but whose completion is not generated yet. */
  predicate SendPending(pc: WorkerPc) {
    pc.WPost? && pc.stage != CUnlock && pc.status == Success
  }

  /** How many elements have been sent: the successful completions and the one being posted. */
  function SentCount(done: seq<Done>, pending: bool): int {
    |done| - (if LastTimedOut(done) then 1 else 0) + (if pending then 1 else 0)
  }

  ghost predicate SentOk(kind: Kind, posted: seq<Wqe>, done: seq<Done>, sent: seq<Msg>, pending: bool) {
    if kind == SQ then
      && |sent| == SentCount(done, pending)
      && |sent| <= |posted|
      && forall k :: 0 <= k < |sent| ==> sent[k] == MsgOf(posted[k])
    else sent == []
  }

  /** No lost wake-up: an element posted after the worker last cleared the flag is announced. */
  ghost predicate FlagOk(posted: nat, retired: nat, clearedAt: nat, flag: Flag, poster: PosterPc, pc: WorkerPc) {
    Draining(pc) ==>
      && clearedAt <= posted
      && (posted > clearedAt ==> flag == PostFlag || poster == PNotify || poster == PSetFlag)
      && (pc == WWait ==> clearedAt <= retired)
  }

  function StateOf(pc: WorkerPc): WqState {
    match pc
    case WCreated => Initialized
    case WDone => Exited
    case _ => Running
  }

  ghost predicate LifeOk(state: WqState, stop: bool, pc: WorkerPc, control: ControlPc) {
    && (pc != WNone ==> state == StateOf(pc))
    && (pc == WNone ==>
          match control
          case KFresh => state == Uninitialized
          case KSetInit => state == Uninitialized
          case KSetFlag => state == Initialized
          case KCreate => state == Initialized
          case KExitCheck => state == Uninitialized
          case KGone => state == Uninitialized
          case _ => false)
    && (pc != WNone ==> !control.KFresh? && !control.KSetInit? && !control.KSetFlag? && !control.KCreate?)
    && (control.KPoll? || control.KGone? ==> pc == WNone || pc == WDone)
    && (stop ==> control.KJoin? || control.KPoll? || control.KGone?)
    && (control.KJoin? || control.KPoll? ==> stop)
    && (pc == WAbandon ==> stop)
  }

  predicate BeforeEstablished(pc: WorkerPc) {
    pc.WNone? || pc.WCreated? || pc.WConnect? || pc.WConnectTry? || pc.WAbandon?
  }

  /** Teardown happens once if the connection was established, and never otherwise. */
  ghost predicate TeardownOk(established: nat, teardowns: nat, pc: WorkerPc) {
    && established == (if BeforeEstablished(pc) then 0 else if pc == WDone then teardowns else 1)
    && teardowns == (if pc == WSetExited then 1 else if pc == WDone then established else 0)
    && established <= 1
  }

  ghost predicate DataOk(w: Wq) {
    && RingOk(w.ring, w.posted, w.retired, Busy(w.worker))
    && PostedOk(w.pageSize, w.kind, w.qp, w.posted, w.origin)
    && PosterOk(w.ring, w.posted, w.retired, w.poster)
    && FilledOk(w.pageSize, w.kind, w.qp, w.ring, w.poster)
    && BusyOk(w.kind, w.ring, w.posted, w.retired, w.worker, w.got, w.stop)
    && DoneOk(w.kind, w.posted, w.retired, w.done, Completed(w.worker))
    && ShapeOk(w.done, w.stop, w.worker)
    && SentOk(w.kind, w.posted, w.done, w.sent, SendPending(w.worker))
  }

  ghost predicate ThreadsOk(w: Wq) {
    && FlagOk(|w.posted|, w.retired, w.clearedAt, w.flag, w.poster, w.worker)
    && LifeOk(w.state, w.stop, w.worker, w.control)
    && TeardownOk(w.established, w.teardowns, w.worker)
  }

  ghost predicate WqInv(w: Wq) {
    DataOk(w) && ThreadsOk(w)
  }

  // ---------- single clauses ----------

  lemma BusyIdle(kind: Kind, ring: Ring<Wqe>, posted: seq<Wqe>, retired: nat, pc: WorkerPc, got: nat, stop: bool)
    requires !Busy(pc)
    ensures BusyOk(kind, ring, posted, retired, pc, got, stop)
  {
  }

  lemma BusyStops(kind: Kind, ring: Ring<Wqe>, posted: seq<Wqe>, retired: nat, pc: WorkerPc, got: nat, stop: bool)
    requires BusyOk(kind, ring, posted, retired, pc, got, stop)
    ensures BusyOk(kind, ring, posted, retired, pc, got, true)
  {
    hide SlotHolds, FinalLen;
  }

  lemma ShapeStops(done: seq<Done>, stop: bool, pc: WorkerPc)
    requires ShapeOk(done, stop, pc)
    ensures ShapeOk(done, true, pc)
  {
  }

  /** A worker that cannot have timed out may move anywhere but into the end of a posting. */
  lemma ShapeMoves(done: seq<Done>, stop: bool, pc: WorkerPc, pc': WorkerPc)
    requires ShapeOk(done, stop, pc) && !(pc'.WPost? && pc'.stage == CUnlock)
    requires Ending(pc) ==> Ending(pc')
    ensures ShapeOk(done, stop, pc')
  {
  }

  // ---------- steps of the control thread ----------

  lemma ControlThreads(w: Wq, c: ControlChoice)
    requires ThreadsOk(w) && ControlEnabled(w, c)
    ensures ThreadsOk(ControlStep(w, c))
  {
  }

  lemma ControlFrame(w: Wq, c: ControlChoice)
    requires ControlEnabled(w, c) && LifeOk(w.state, w.stop, w.worker, w.control)
    ensures var w' := ControlStep(w, c);
            && w' == w.(state := w'.state, flag := w'.flag, stop := w'.stop, worker := w'.worker, control := w'.control)
            && (w'.worker == w.worker || (w.worker == WNone && w'.worker == WCreated))
            && (w'.stop == w.stop || w'.stop)
  {
  }

  lemma ControlData(w: Wq, c: ControlChoice)
    requires WqInv(w) && ControlEnabled(w, c)
    ensures DataOk(ControlStep(w, c))
  {
    ControlFrame(w, c);
    hide RingOk, PostedOk, FilledOk, PosterOk, BusyOk, DoneOk, ShapeOk, SentOk, ThreadsOk, ControlStep, ControlEnabled;
    var w' := ControlStep(w, c);
    if w'.worker != w.worker {
      BusyIdle(w.kind, w.ring, w.posted, w.retired, w'.worker, w.got, w'.stop);
      ShapeMoves(w.done, w.stop, w.worker, w'.worker);
      ShapeStops(w.done, w.stop, w'.worker);
    } else {
      BusyStops(w.kind, w.ring, w.posted, w.retired, w.worker, w.got, w.stop);
      ShapeStops(w.done, w.stop, w.worker);
    }
  }

  // ---------- steps of the poster ----------

  lemma PosterFrame(w: Wq, c: PosterChoice)
    requires PosterEnabled(w, c)
    ensures var w' := PosterStep(w, c);
            && w' == w.(ring := w'.ring, poster := w'.poster, posted := w'.posted, origin := w'.origin, flag := w'.flag)
            && w.posted <= w'.posted
  {
    hide Built, WellFormed, Gather.Accepted, CircSpace, Next;
  }

  /** Publishing an element leaves a poster on its way to the flag; it is turned away only before the worker runs. */
  lemma PosterFlag(w: Wq, c: PosterChoice)
    requires PosterEnabled(w, c)
    requires FlagOk(|w.posted|, w.retired, w.clearedAt, w.flag, w.poster, w.worker)
    requires Draining(w.worker) ==> w.state != Uninitialized
    ensures var w' := PosterStep(w, c);
            FlagOk(|w'.posted|, w'.retired, w'.clearedAt, w'.flag, w'.poster, w'.worker)
  {
    hide Built, WellFormed, Gather.Accepted, CircSpace, Next, Draining;
  }

  lemma PosterThreads(w: Wq, c: PosterChoice)
    requires ThreadsOk(w) && PosterEnabled(w, c)
    ensures ThreadsOk(PosterStep(w, c))
  {
    assert Draining(w.worker) ==> w.state != Uninitialized;
    hide PosterEnabled, PosterStep, FlagOk, LifeOk, TeardownOk;
    PosterFrame(w, c);
    PosterFlag(w, c);
  }

  lemma PosterReads(w: Wq, c: PosterChoice)
    requires DataOk(w) && PosterEnabled(w, c) && w.poster.PRead?
    ensures DataOk(PosterStep(w, c))
  {
    hide PostedOk, BusyOk, DoneOk, ShapeOk, SentOk, CircSpace, IsSize, Built;
    var from := if Busy(w.worker) then w.retired + 1 else w.retired;
    RingCounts(w.ring, w.posted, w.retired, from);
  }

  /** Writing the slot at the head does not disturb the ring, nor the slot the worker holds. */
  lemma PosterWrites(w: Wq, v: Wqe)
    requires RingOk(w.ring, w.posted, w.retired, Busy(w.worker)) && Shape(w.ring)
    requires BusyOk(w.kind, w.ring, w.posted, w.retired, w.worker, w.got, w.stop)
    ensures var ring' := w.ring.(slots := w.ring.slots[w.ring.head := v]);
            && RingOk(ring', w.posted, w.retired, Busy(w.worker))
            && BusyOk(w.kind, ring', w.posted, w.retired, w.worker, w.got, w.stop)
  {
    hide IsSize, FinalLen;
    var from := if Busy(w.worker) then w.retired + 1 else w.retired;
    WriteHeadSlot(w.ring, w.posted, w.retired, from, v);
  }

  lemma PosterBuilds(w: Wq, c: PosterChoice)
    requires DataOk(w) && PosterEnabled(w, c) && (w.poster.PTear? || w.poster.PBuild?)
    ensures DataOk(PosterStep(w, c))
  {
    if c.Scribble? {
      PosterWrites(w, c.junk);
    } else if c.Finish? {
      PosterWrites(w, c.wqe);
    }
    hide RingOk, PostedOk, BusyOk, DoneOk, ShapeOk, SentOk, Built, WellFormed, Accepted;
  }

  lemma PosterPublishes(w: Wq, c: PosterChoice)
    requires DataOk(w) && PosterEnabled(w, c) && w.poster.PPublish?
    ensures DataOk(PosterStep(w, c))
  {
    hide IsSize, Next, OriginOk, SlotOk, DoneMatches, ShapeOk, CircSpace, MsgOf;
    var from := if Busy(w.worker) then w.retired + 1 else w.retired;
    RingCounts(w.ring, w.posted, w.retired, from);
    PublishHead(w.ring, w.posted, w.retired, from);
    var w' := PosterStep(w, c);
    assert w'.posted == w.posted + [w.ring.slots[w.ring.head]];
    assert RingOk(w'.ring, w'.posted, w'.retired, Busy(w'.worker));
    SlotSameRing(w, w'.ring);
  }

  /** The slot in work is looked up through the tail, whatever the head. */
  lemma SlotSameRing(w: Wq, ring': Ring<Wqe>)
    requires ring'.slots == w.ring.slots && ring'.tail == w.ring.tail
    ensures forall orig :: SlotOk(w.kind, ring', orig, w.worker, w.got, w.stop)
                      == SlotOk(w.kind, w.ring, orig, w.worker, w.got, w.stop)
  {
  }

  lemma PosterQuiet(w: Wq, c: PosterChoice)
    requires DataOk(w) && PosterEnabled(w, c) && (w.poster.PIdle? || w.poster.PNotify? || w.poster.PSetFlag?)
    ensures DataOk(PosterStep(w, c))
  {
    hide RingOk, PostedOk, BusyOk, DoneOk, ShapeOk, SentOk, Built, WellFormed, Gather.Accepted, CircSpace, Next;
  }

  lemma PosterKeeps(w: Wq, c: PosterChoice)
    requires WqInv(w) && PosterEnabled(w, c)
    ensures WqInv(PosterStep(w, c))
  {
    hide DataOk, ThreadsOk, PosterStep, PosterEnabled;
    PosterThreads(w, c);
    match w.poster
    case PRead(_, _) => PosterReads(w, c);
    case PTear(_, _) => PosterBuilds(w, c);
    case PBuild(_, _) => PosterBuilds(w, c);
    case PPublish(_, _) => PosterPublishes(w, c);
    case _ => PosterQuiet(w, c);
  }

  // ---------- steps of the worker, apart from the completion queue ----------

  lemma LocalFlag(w: Wq, c: WorkerChoice)
    requires LocalEnabled(w, c)
    requires w.worker.WRead? ==> CircCnt(w.ring.head, w.ring.tail, w.ring.size) == |w.posted| - w.retired
    requires FlagOk(|w.posted|, w.retired, w.clearedAt, w.flag, w.poster, w.worker)
    ensures var w' := LocalStep(w, c);
            FlagOk(|w'.posted|, w'.retired, w'.clearedAt, w'.flag, w'.poster, w'.worker)
  {
    hide CircCnt, Next, MsgOf, TransferStep;
    match w.worker
    case WXfer(_, _) => TransferPc(w, c);
    case WClear =>
    case WRead =>
    case WRetire =>
    case _ =>
  }

  lemma TransferPc(w: Wq, c: WorkerChoice)
    requires LocalEnabled(w, c) && w.worker.WXfer?
    ensures var w' := TransferStep(w, c);
            && w' == w.(ring := w'.ring, worker := w'.worker, got := w'.got, sent := w'.sent)
            && (w'.worker.WTry? || w'.worker == WPost(CLock, Success))
  {
  }

  lemma LocalLife(w: Wq, c: WorkerChoice)
    requires LocalEnabled(w, c) && LifeOk(w.state, w.stop, w.worker, w.control)
    ensures var w' := LocalStep(w, c); LifeOk(w'.state, w'.stop, w'.worker, w'.control)
  {
    hide CircCnt, Next, MsgOf, TransferStep;
    if w.worker.WXfer? { TransferPc(w, c); }
  }

  lemma LocalTeardown(w: Wq, c: WorkerChoice)
    requires LocalEnabled(w, c) && TeardownOk(w.established, w.teardowns, w.worker)
    ensures var w' := LocalStep(w, c); TeardownOk(w'.established, w'.teardowns, w'.worker)
  {
    hide CircCnt, Next, MsgOf, TransferStep;
    if w.worker.WXfer? { TransferPc(w, c); }
  }

  /** Steps that touch neither the ring nor the histories. */
  predicate Quiet(pc: WorkerPc) {
    !Busy(pc) && !pc.WRead? && !pc.WNone? && !pc.WDone?
  }

  lemma QuietFrame(w: Wq, c: WorkerChoice)
    requires LocalEnabled(w, c) && Quiet(w.worker) && LifeOk(w.state, w.stop, w.worker, w.control)
    ensures var w' := LocalStep(w, c);
            && w' == w.(state := w'.state, flag := w'.flag, worker := w'.worker, clearedAt := w'.clearedAt,
                        established := w'.established, teardowns := w'.teardowns)
            && !Busy(w'.worker) && (Ending(w.worker) && w.worker != WDrain ==> Ending(w'.worker))
            && (w.worker == WDrain && w.stop ==> Ending(w'.worker))
  {
  }

  lemma ShapeAtDrain(done: seq<Done>, stop: bool, pc': WorkerPc)
    requires ShapeOk(done, stop, WDrain) && !(pc'.WPost? && pc'.stage == CUnlock) && (stop ==> Ending(pc'))
    ensures ShapeOk(done, stop, pc')
  {
  }

  lemma LocalQuiet(w: Wq, c: WorkerChoice)
    requires WqInv(w) && LocalEnabled(w, c) && Quiet(w.worker)
    ensures DataOk(LocalStep(w, c))
  {
    QuietFrame(w, c);
    hide RingOk, PostedOk, PosterOk, FilledOk, BusyOk, DoneOk, ShapeOk, SentOk, ThreadsOk, LocalStep, LocalEnabled;
    var w' := LocalStep(w, c);
    BusyIdle(w.kind, w.ring, w.posted, w.retired, w'.worker, w.got, w.stop);
    if w.worker == WDrain {
      ShapeAtDrain(w.done, w.stop, w'.worker);
    } else {
      ShapeMoves(w.done, w.stop, w.worker, w'.worker);
    }
  }

  lemma BusyStarts(kind: Kind, ring: Ring<Wqe>, posted: seq<Wqe>, retired: nat, stop: bool)
    requires ring.tail < |ring.slots| && retired < |posted| && ring.slots[ring.tail] == posted[retired]
    ensures var len := posted[retired].byteLen;
            BusyOk(kind, ring, posted, retired, WTry(len, len), 0, stop)
  {
  }

  lemma LocalRead(w: Wq, c: WorkerChoice)
    requires DataOk(w) && LocalEnabled(w, c) && w.worker.WRead?
    ensures DataOk(LocalStep(w, c))
  {
    hide CircCnt, RingOk, PostedOk, PosterOk, FilledOk, BusyOk, DoneOk, ShapeOk, SentOk;
    OldestSlot(w);
    ShapeMoves(w.done, w.stop, w.worker, LocalStep(w, c).worker);
    if |w.posted| > w.retired {
      BusyStarts(w.kind, w.ring, w.posted, w.retired, w.stop);
    } else {
      BusyIdle(w.kind, w.ring, w.posted, w.retired, WWait, w.got, w.stop);
    }
  }

  /** A worker that finds the ring not empty takes the oldest element, unaltered. */
  lemma OldestSlot(w: Wq)
    requires RingOk(w.ring, w.posted, w.retired, false) && Shape(w.ring)
    ensures CircCnt(w.ring.head, w.ring.tail, w.ring.size) == |w.posted| - w.retired
    ensures |w.posted| > w.retired ==>
              RingOk(w.ring, w.posted, w.retired, true) && w.ring.slots[w.ring.tail] == w.posted[w.retired]
  {
    RingCounts(w.ring, w.posted, w.retired, w.retired);
  }

  lemma LocalTry(w: Wq, c: WorkerChoice)
    requires WqInv(w) && LocalEnabled(w, c) && w.worker.WTry?
    ensures DataOk(LocalStep(w, c))
  {
    hide RingOk, PostedOk, PosterOk, FilledOk, DoneOk, SentOk, FlagOk, TeardownOk, LifeOk, SlotHolds;
  }

  /** Rewriting the slot at the tail keeps the ring, and the slot a poster has filled. */
  lemma TailWrite(w: Wq, v: Wqe)
    requires RingOk(w.ring, w.posted, w.retired, true) && Shape(w.ring)
    ensures RingOk(WithTail(w, v).ring, w.posted, w.retired, true)
    ensures w.ring.head != w.ring.tail
  {
    hide IsSize;
    WriteTailSlot(w.ring, w.posted, w.retired, v);
    LiveSlotIsNotHead(w.ring, w.posted, w.retired, w.retired + 1, w.retired);
  }

  lemma LocalXfer(w: Wq, c: WorkerChoice)
    requires DataOk(w) && LocalEnabled(w, c) && w.worker.WXfer? && w.kind == RQ
    ensures DataOk(LocalStep(w, c))
  {
    hide RingOk, PostedOk, DoneOk, BusyOk, ShapeOk, OriginOk, TransferStep;
    var w' := LocalStep(w, c);
    TransferFrame(w, c);
    TailWrite(w, w'.ring.slots[w.ring.tail]);
    TransferSlot(w, c);
    ShapeMoves(w.done, w.stop, w.worker, w'.worker);
    hide LocalStep, LocalEnabled, WithTail;
  }

  lemma TransferFrame(w: Wq, c: WorkerChoice)
    requires LocalEnabled(w, c) && w.worker.WXfer? && w.kind == RQ && LocalStep(w, c) == TransferStep(w, c)
    ensures var w' := LocalStep(w, c);
            && w' == w.(ring := w'.ring, worker := w'.worker, got := w'.got)
            && Shape(w'.ring) && w'.ring == WithTail(w, w'.ring.slots[w.ring.tail]).ring
            && (w.ring.head != w.ring.tail ==> w'.ring.slots[w.ring.head] == w.ring.slots[w.ring.head])
            && (w'.worker.WTry? || w'.worker == WPost(CLock, Success))
  {
  }

  /** A receive, failed, partial or complete, accounts for every byte of the element. */
  lemma TransferSlot(w: Wq, c: WorkerChoice)
    requires LocalEnabled(w, c) && w.worker.WXfer? && w.kind == RQ
    requires BusyOk(w.kind, w.ring, w.posted, w.retired, w.worker, w.got, w.stop)
    ensures var w' := LocalStep(w, c);
            BusyOk(w'.kind, w'.ring, w'.posted, w'.retired, w'.worker, w'.got, w'.stop)
  {
  }

  lemma LocalSend(w: Wq, c: WorkerChoice)
    requires WqInv(w) && LocalEnabled(w, c) && w.worker.WXfer? && w.kind == SQ
    ensures DataOk(LocalStep(w, c))
  {
    hide RingOk, PostedOk, PosterOk, FilledOk, FlagOk, TeardownOk, LifeOk, DoneMatches, MsgOf;
    var orig := w.posted[w.retired];
    assert w.ring.slots[w.ring.tail] == orig;
  }

  lemma LocalFree(w: Wq, c: WorkerChoice)
    requires DataOk(w) && LocalEnabled(w, c) && w.worker.WFree?
    ensures DataOk(LocalStep(w, c))
  {
    hide RingOk, PostedOk, DoneOk, SentOk, BusyOk, ShapeOk, OriginOk;
    var w' := LocalStep(w, c);
    TailWrite(w, w'.ring.slots[w.ring.tail]);
    ShapeMoves(w.done, w.stop, w.worker, w'.worker);
    BusyLast(w, w');
  }

  lemma BusyLast(w: Wq, w': Wq)
    requires BusyOk(w.kind, w.ring, w.posted, w.retired, w.worker, w.got, w.stop) && w.worker.WFree?
    requires w' == w.(ring := w'.ring, worker := WRetire)
    requires w'.ring.tail < |w'.ring.slots| && !w'.ring.slots[w'.ring.tail].dynamic
    ensures BusyOk(w'.kind, w'.ring, w'.posted, w'.retired, w'.worker, w'.got, w'.stop)
  {
  }

  lemma LocalRetire(w: Wq, c: WorkerChoice)
    requires DataOk(w) && LocalEnabled(w, c) && w.worker.WRetire?
    ensures DataOk(LocalStep(w, c))
  {
    RingRetired(w);
    hide RingOk, Next, PostedOk, DoneMatches, SentOk, BusyOk, ShapeOk;
    var w' := LocalStep(w, c);
    ShapeMoves(w.done, w.stop, w.worker, w'.worker);
    BusyIdle(w'.kind, w'.ring, w'.posted, w'.retired, w'.worker, w'.got, w'.stop);
  }

  lemma RingRetired(w: Wq)
    requires RingOk(w.ring, w.posted, w.retired, true) && Shape(w.ring)
    ensures RingOk(w.ring.(tail := Next(w.ring.tail, w.ring.size)), w.posted, w.retired + 1, false)
  {
    RetireTail(w.ring, w.posted, w.retired, w.retired + 1);
  }

  lemma LocalKeeps(w: Wq, c: WorkerChoice)
    requires WqInv(w) && LocalEnabled(w, c)
    ensures WqInv(LocalStep(w, c))
  {
    if w.worker.WRead? { OldestSlot(w); }
    hide DataOk, LocalStep, LocalEnabled;
    LocalFlag(w, c);
    LocalLife(w, c);
    LocalTeardown(w, c);
    hide FlagOk, LifeOk, TeardownOk;
    match w.worker
    case WRead => LocalRead(w, c);
    case WTry(_, _) => LocalTry(w, c);
    case WXfer(_, _) => if w.kind == RQ { LocalXfer(w, c); } else { LocalSend(w, c); }
    case WFree => LocalFree(w, c);
    case WRetire => LocalRetire(w, c);
    case _ => LocalQuiet(w, c);
  }
}

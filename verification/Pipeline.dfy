/**
 The concurrent data path as a state machine: any number of work queues, each with a poster, a worker
 thread and a control thread, that share one completion queue and its poller. Every step makes at most
 one access to a variable that another thread may write, so all interleavings of the driver's loads and
 stores are runs of this machine. A thread's own ring index is not shared and is read in place.

 Fields after the marker "history" are not in the driver: they record what has happened.
 */
module Pipeline {
  import opened Circ
  import opened Gather
  import opened WorkElement

  datatype Flag = EmptyFlag | PostFlag

  datatype WqState = Uninitialized | Initialized | Running | Exited

  /** dis_qp_post_one_sqe or _rqe followed by dis_qp_notify. */
  datatype PosterPc =
    | PIdle
    | PRead(req: Request, mrs: seq<MrSlot>)     // next: read the tail, check for space
    | PTear(req: Request, mrs: seq<MrSlot>)     // next: begin to write the slot at the head
    | PBuild(req: Request, mrs: seq<MrSlot>)    // next: complete the slot or refuse the request
    | PPublish(req: Request, mrs: seq<MrSlot>)  // next: store the head
    | PNotify                                   // next: read the state
    | PSetFlag                                  // next: set the flag and wake the worker

  datatype PosterChoice =
    | Begin(req: Request, mrs: seq<MrSlot>)
    | Proceed
    | Scribble(junk: Wqe)
    | Refuse
    | Finish(wqe: Wqe)

  /** dis_wq_post_sqe_cqe or _rqe_cqe. */
  datatype Stage = CLock | CRead | CTear | CFill | CPublish | CUnlock

  /** dis_wq_thread and what it calls. */
  datatype WorkerPc =
    | WNone                                     // no thread
    | WCreated                                  // created, not yet in dis_wq_thread
    | WConnect                                  // loop head of dis_wq_init
    | WConnectTry                               // next: create or connect the message queue
    | WAbandon                                  // establishment given up; next: set the state
    | WLoop                                     // loop head of dis_wq_thread
    | WClear                                    // next: clear the flag
    | WDrain                                    // loop head of dis_wq_consume_all
    | WRead                                     // next: load the head, check for an element
    | WTry(total: nat, left: nat)               // loop head of dis_wq_consume_one_*
    | WXfer(total: nat, left: nat)              // next: call the transport
    | WPost(stage: Stage, status: Status)       // posting the completion
    | WFree                                     // next: free the dynamic map
    | WRetire                                   // next: store the tail
    | WWait                                     // wait_event_killable
    | WTeardown                                 // next: dis_wq_exit
    | WSetExited                                // next: set the state
    | WDone                                     // returned

  datatype WorkerChoice = Step | Connect(ok: bool) | Transfer(ok: bool, bytes: nat) | Junk(cqe: Cqe) | Kill

  /** dis_qp_init and dis_qp_exit. */
  datatype ControlPc =
    | KFresh
    | KSetInit                                  // next: set the state to initialized
    | KSetFlag                                  // next: clear the flag
    | KCreate                                   // next: create the thread
    | KLive
    | KExitCheck                                // next: read the state
    | KStop                                     // next: request the stop
    | KJoin                                     // waiting for the thread to return
    | KPoll                                     // waiting for the state
    | KGone                                     // dis_qp_exit has returned

  datatype ControlChoice = Rtr | Destroy | Go | Create(ok: bool)

  /** A completion generated for an element: whether the CQ took it, and the bytes then received. */
  datatype Done = Done(cqe: Cqe, accepted: bool, got: nat)

  datatype Origin = Origin(req: Request, mrs: seq<MrSlot>)

  datatype Wq = Wq(
    pageSize: nat, kind: Kind, qp: nat,
    ring: Ring<Wqe>, flag: Flag, state: WqState, stop: bool,
    poster: PosterPc, worker: WorkerPc, control: ControlPc,
    // history
    posted: seq<Wqe>, origin: seq<Origin>, retired: nat, done: seq<Done>, sent: seq<Msg>, got: nat,
    clearedAt: nat, established: nat, teardowns: nat)

  datatype PollerPc = PollIdle | PollCopy | PollRetire(wc: Wc)

  datatype Lock = Free | Held(holder: nat)

  datatype Cq = Cq(
    ring: Ring<Cqe>, lock: Lock, poller: PollerPc,
    // history
    pushed: seq<Cqe>, polled: seq<Wc>)

  datatype System = System(wqs: seq<Wq>, cq: Cq)

  datatype Label =
    | Post(i: nat, p: PosterChoice)
    | Work(i: nat, w: WorkerChoice)
    | Control(i: nat, k: ControlChoice)
    | Poll

  predicate Shape<T>(r: Ring<T>) {
    r.size >= 1 && |r.slots| == r.size && r.head < r.size && r.tail < r.size
  }

  // ---------- poster ----------

  ghost predicate PosterEnabled(w: Wq, c: PosterChoice) {
    Shape(w.ring) &&
    match w.poster
    case PIdle => c.Begin? && WellFormed(w.pageSize, c.mrs, c.req)
    case PTear(_, _) => c.Scribble?
    case PBuild(req, mrs) =>
      || (c.Refuse? && WellFormed(w.pageSize, mrs, req)
          && (Accepted(w.pageSize, mrs, req) ==> IovLen(w.pageSize, mrs, req) > SGE_PER_WQE))
      || (c.Finish? && Built(w.pageSize, mrs, req, w.kind, w.qp, c.wqe))
    case _ => c.Proceed?
  }

  ghost function PosterStep(w: Wq, c: PosterChoice): Wq
    requires PosterEnabled(w, c)
  {
    match w.poster
    case PIdle => w.(poster := PRead(c.req, c.mrs))
    case PRead(req, mrs) =>
      if CircSpace(w.ring.head, w.ring.tail, w.ring.size) < 1 then w.(poster := PIdle)
      else w.(poster := PTear(req, mrs))
    case PTear(req, mrs) =>
      w.(ring := w.ring.(slots := w.ring.slots[w.ring.head := c.junk]), poster := PBuild(req, mrs))
    case PBuild(req, mrs) =>
      if c.Refuse? then w.(poster := PIdle)
      else w.(ring := w.ring.(slots := w.ring.slots[w.ring.head := c.wqe]), poster := PPublish(req, mrs))
    case PPublish(req, mrs) =>
      w.(ring := w.ring.(head := Next(w.ring.head, w.ring.size)), poster := PNotify,
         posted := w.posted + [w.ring.slots[w.ring.head]], origin := w.origin + [Origin(req, mrs)])
    case PNotify =>
      if w.state == Uninitialized then w.(poster := PIdle) else w.(poster := PSetFlag)
    case PSetFlag => w.(flag := PostFlag, poster := PIdle)
  }

  // ---------- control ----------

  ghost predicate ControlEnabled(w: Wq, c: ControlChoice) {
    match w.control
    case KFresh => c.Rtr? || c.Destroy?
    case KCreate => c.Create?
    case KLive => c.Destroy?
    case KJoin => c.Go? && w.worker == WDone
    case KPoll => c.Go? && w.state == Exited
    case KGone => false
    case _ => c.Go?
  }

  ghost function ControlStep(w: Wq, c: ControlChoice): Wq
    requires ControlEnabled(w, c)
  {
    match w.control
    case KFresh =>
      if c.Destroy? then w.(control := KExitCheck)
      else if w.state == Exited then w
      else w.(control := KSetInit)
    case KSetInit => w.(state := Initialized, control := KSetFlag)
    case KSetFlag => w.(flag := EmptyFlag, control := KCreate)
    case KCreate =>
      if c.ok then w.(worker := WCreated, control := KLive)
      else w.(state := Uninitialized, control := KFresh)
    case KLive => w.(control := KExitCheck)
    case KExitCheck =>
      if w.state == Uninitialized || w.state == Exited then w.(control := KGone) else w.(control := KStop)
    case KStop => w.(stop := true, control := KJoin)
    case KJoin => w.(control := KPoll)
    case KPoll => w.(control := KGone)
  }

  // ---------- worker, apart from the completion queue ----------

  ghost predicate LocalEnabled(w: Wq, c: WorkerChoice) {
    Shape(w.ring) &&
    match w.worker
    case WNone => false
    case WDone => false
    case WPost(_, _) => false
    case WConnectTry => c.Connect?
    case WXfer(_, left) => c.Transfer? && (w.kind == RQ && c.ok ==> c.bytes <= left)
    case WWait => c.Kill? || (c.Step? && (w.flag != EmptyFlag || w.stop))
    case _ => c.Step?
  }

  ghost function LocalStep(w: Wq, c: WorkerChoice): Wq
    requires LocalEnabled(w, c)
  {
    match w.worker
    case WCreated => w.(state := Running, worker := WConnect)
    case WConnect => w.(worker := if w.stop then WAbandon else WConnectTry)
    case WConnectTry =>
      if c.ok then w.(established := w.established + 1, worker := WLoop) else w.(worker := WConnect)
    case WAbandon => w.(state := Exited, worker := WDone)
    case WLoop => w.(worker := if w.stop then WTeardown else WClear)
    case WClear => w.(flag := EmptyFlag, worker := WDrain, clearedAt := |w.posted|)
    case WDrain => w.(worker := if w.stop then WTeardown else WRead)
    case WRead =>
      if CircCnt(w.ring.head, w.ring.tail, w.ring.size) < 1 then w.(worker := WWait)
      else
        var len := w.ring.slots[w.ring.tail].byteLen;
        w.(worker := WTry(len, len), got := 0)
    case WTry(total, left) =>
      w.(worker := if w.stop then WPost(CLock, RespTimeoutErr) else WXfer(total, left))
    case WXfer(total, left) => TransferStep(w, c)
    case WFree => WithTail(w, w.ring.slots[w.ring.tail].(dynamic := false)).(worker := WRetire)
    case WRetire =>
      w.(ring := w.ring.(tail := Next(w.ring.tail, w.ring.size)), worker := WDrain, retired := w.retired + 1)
    case WWait => w.(worker := if c.Kill? then WTeardown else WLoop)
    case WTeardown => w.(teardowns := w.teardowns + 1, worker := WSetExited)
    case WSetExited => w.(state := Exited, worker := WDone)
  }

  ghost function WithTail(w: Wq, v: Wqe): Wq
    requires Shape(w.ring)
  {
    w.(ring := w.ring.(slots := w.ring.slots[w.ring.tail := v]))
  }

  /** One call of the transport. A receive may be partial; it leaves the missing bytes in the slot. */
  ghost function TransferStep(w: Wq, c: WorkerChoice): Wq
    requires Shape(w.ring) && w.worker.WXfer? && c.Transfer? && (w.kind == RQ && c.ok ==> c.bytes <= w.worker.left)
  {
    var WXfer(total, left) := w.worker;
    var slot := w.ring.slots[w.ring.tail];
    if w.kind == SQ then
      if c.ok then w.(sent := w.sent + [MsgOf(slot)], worker := WPost(CLock, Success))
      else w.(worker := WTry(total, left))
    else if !c.ok then WithTail(w, slot.(byteLen := left)).(worker := WTry(total, left))
    else if c.bytes == left then
      WithTail(w, slot.(byteLen := total)).(got := w.got + c.bytes, worker := WPost(CLock, Success))
    else
      WithTail(w, slot.(byteLen := left - c.bytes)).(got := w.got + c.bytes, worker := WTry(total, left - c.bytes))
  }

  // ---------- worker, posting a completion ----------

  ghost predicate CqEnabled(w: Wq, cq: Cq, c: WorkerChoice) {
    && Shape(w.ring) && Shape(cq.ring) && w.worker.WPost?
    && (w.worker.stage == CLock ==> cq.lock == Free)
    && (if w.worker.stage == CTear then c.Junk? else c.Step?)
  }

  /** The completion of the element at the tail, as it is now. */
  ghost function CurrentCqe(w: Wq): Cqe
    requires Shape(w.ring) && w.worker.WPost?
  {
    MakeCqe(w.ring.slots[w.ring.tail], w.worker.status)
  }

  ghost predicate CqFull(cq: Cq)
    requires Shape(cq.ring)
  {
    CircSpace(cq.ring.head, cq.ring.tail, cq.ring.size) < 1
  }

  ghost function CqStepWq(w: Wq, cq: Cq, c: WorkerChoice): Wq
    requires CqEnabled(w, cq, c)
  {
    var st := w.worker.status;
    match w.worker.stage
    case CLock => w.(worker := WPost(CRead, st))
    case CRead =>
      if CqFull(cq) then w.(worker := WPost(CUnlock, st), done := w.done + [Done(CurrentCqe(w), false, w.got)])
      else w.(worker := WPost(CTear, st))
    case CTear => w.(worker := WPost(CFill, st))
    case CFill => w.(worker := WPost(CPublish, st))
    case CPublish =>
      w.(worker := WPost(CUnlock, st), done := w.done + [Done(cq.ring.slots[cq.ring.head], true, w.got)])
    case CUnlock => w.(worker := WFree)
  }

  ghost function CqStepCq(i: nat, w: Wq, cq: Cq, c: WorkerChoice): Cq
    requires CqEnabled(w, cq, c)
  {
    match w.worker.stage
    case CLock => cq.(lock := Held(i))
    case CRead => cq
    case CTear => cq.(ring := cq.ring.(slots := cq.ring.slots[cq.ring.head := c.cqe]))
    case CFill => cq.(ring := cq.ring.(slots := cq.ring.slots[cq.ring.head := CurrentCqe(w)]))
    case CPublish =>
      cq.(ring := cq.ring.(head := Next(cq.ring.head, cq.ring.size)),
          pushed := cq.pushed + [cq.ring.slots[cq.ring.head]])
    case CUnlock => cq.(lock := Free)
  }

  // ---------- poller ----------

  ghost function PollStep(cq: Cq): Cq
    requires Shape(cq.ring)
  {
    match cq.poller
    case PollIdle =>
      if CircCnt(cq.ring.head, cq.ring.tail, cq.ring.size) < 1 then cq else cq.(poller := PollCopy)
    case PollCopy => cq.(poller := PollRetire(MakeWc(cq.ring.slots[cq.ring.tail])))
    case PollRetire(wc) =>
      cq.(ring := cq.ring.(tail := Next(cq.ring.tail, cq.ring.size)), poller := PollIdle, polled := cq.polled + [wc])
  }

  // ---------- the system ----------

  ghost predicate Enabled(s: System, l: Label) {
    match l
    case Post(i, c) => i < |s.wqs| && PosterEnabled(s.wqs[i], c)
    case Control(i, c) => i < |s.wqs| && ControlEnabled(s.wqs[i], c)
    case Work(i, c) => i < |s.wqs| && (LocalEnabled(s.wqs[i], c) || CqEnabled(s.wqs[i], s.cq, c))
    case Poll => Shape(s.cq.ring)
  }

  ghost function Apply(s: System, l: Label): System
    requires Enabled(s, l)
  {
    match l
    case Post(i, c) => s.(wqs := s.wqs[i := PosterStep(s.wqs[i], c)])
    case Control(i, c) => s.(wqs := s.wqs[i := ControlStep(s.wqs[i], c)])
    case Work(i, c) =>
      if LocalEnabled(s.wqs[i], c) then s.(wqs := s.wqs[i := LocalStep(s.wqs[i], c)])
      else System(s.wqs[i := CqStepWq(s.wqs[i], s.cq, c)], CqStepCq(i, s.wqs[i], s.cq, c))
    case Poll => s.(cq := PollStep(s.cq))
  }

  ghost predicate FreshWq(w: Wq) {
    && Refines(w.ring, w.posted, 0, 0) && w.posted == [] && w.origin == []
    && w.flag == EmptyFlag && w.state == Uninitialized && !w.stop
    && w.poster == PIdle && w.worker == WNone && w.control == KFresh
    && w.retired == 0 && w.done == [] && w.sent == [] && w.got == 0
    && w.clearedAt == 0 && w.established == 0 && w.teardowns == 0
  }

  /** Queues are told apart by their QP and their direction, the two fields a completion carries. */
  ghost predicate DistinctQueues(wqs: seq<Wq>) {
    forall i, j :: 0 <= i < j < |wqs| ==> wqs[i].qp != wqs[j].qp || wqs[i].kind != wqs[j].kind
  }

  ghost predicate Init(s: System) {
    && (forall i :: 0 <= i < |s.wqs| ==> FreshWq(s.wqs[i]))
    && DistinctQueues(s.wqs)
    && Refines(s.cq.ring, s.cq.pushed, 0, 0) && s.cq.pushed == [] && s.cq.polled == []
    && s.cq.lock == Free && s.cq.poller == PollIdle
  }

  /** A run: its states, and the labels of the steps between them. */
  ghost predicate IsRun(states: seq<System>, labels: seq<Label>) {
    && |states| == |labels| + 1
    && Init(states[0])
    && Follows(states, labels)
  }

  ghost predicate Follows(states: seq<System>, labels: seq<Label>)
    requires |states| == |labels| + 1
  {
    forall k :: 0 <= k < |labels| ==> Enabled(states[k], labels[k]) && states[k + 1] == Apply(states[k], labels[k])
  }
}

/**
 The invariant of the whole system: the work queues, the shared completion queue under its lock, and the
 correspondence between the completions generated by each worker and those in the completion queue.
 */
module PipelineSystem {
  import opened Circ
  import opened Gather
  import opened WorkElement
  import opened Pipeline
  import opened PipelineInv

  /** The completions that belong to one queue, told by the fields they carry. */
  function Project(cs: seq<Cqe>, qp: nat, op: Opcode): seq<Cqe> {
    if cs == [] then []
    else
      var last := cs[|cs| - 1];
      Project(cs[..|cs| - 1], qp, op) + if last.qp == qp && last.opcode == op then [last] else []
  }

  /** The completions of one worker that the CQ took, in order. */
  function TakenByCq(done: seq<Done>): seq<Cqe> {
    if done == [] then []
    else
      var last := done[|done| - 1];
      TakenByCq(done[..|done| - 1]) + if last.accepted then [last.cqe] else []
  }

  function Dropped(done: seq<Done>): nat {
    if done == [] then 0
    else Dropped(done[..|done| - 1]) + if done[|done| - 1].accepted then 0 else 1
  }

  /** Total number of completions generated by the first `n` queues. */
  function SumDone(wqs: seq<Wq>, n: nat): nat
    requires n <= |wqs|
  {
    if n == 0 then 0 else SumDone(wqs, n - 1) + |wqs[n - 1].done|
  }

  function SumPosted(wqs: seq<Wq>, n: nat): nat
    requires n <= |wqs|
  {
    if n == 0 then 0 else SumPosted(wqs, n - 1) + |wqs[n - 1].posted|
  }

  ghost predicate CqRingOk(ring: Ring<Cqe>, pushed: seq<Cqe>, polled: seq<Wc>, poller: PollerPc) {
    && Refines(ring, pushed, |polled|, |polled|)
    && (forall k :: 0 <= k < |polled| ==> polled[k] == MakeWc(pushed[k]))
    && (poller.PollCopy? ==> |polled| < |pushed|)
    && (poller.PollRetire? ==> |polled| < |pushed| && poller.wc == MakeWc(pushed[|polled|]))
  }

  /** The completion that a worker in the critical section is posting. */
  ghost predicate CritOk(w: Wq, cq: Cq) {
    w.worker.WPost? ==>
      && (w.worker.stage == CTear || w.worker.stage == CFill || w.worker.stage == CPublish ==>
            |cq.pushed| - |cq.polled| <= cq.ring.size - 2)
      && (w.worker.stage == CPublish ==>
            && cq.ring.head < |cq.ring.slots|
            && w.retired < |w.posted|
            && cq.ring.slots[cq.ring.head] == Completion(w.posted[w.retired], w.worker.status, w.got))
  }

  function Completion(orig: Wqe, status: Status, got: nat): Cqe {
    MakeCqe(orig.(byteLen := FinalLen(orig, status, got)), status)
  }

  ghost predicate LockOk(wqs: seq<Wq>, lock: Lock) {
    && (lock.Held? ==> lock.holder < |wqs|)
    && (forall i :: 0 <= i < |wqs| ==> (InCritical(wqs[i].worker) <==> lock == Held(i)))
  }

  ghost predicate QueueOk(w: Wq, cq: Cq) {
    && WqInv(w)
    && CritOk(w, cq)
    && Project(cq.pushed, w.qp, OpcodeOf(w.kind)) == TakenByCq(w.done)
  }

  ghost predicate Inv(s: System) {
    && (forall i :: 0 <= i < |s.wqs| ==> QueueOk(s.wqs[i], s.cq))
    && DistinctQueues(s.wqs)
    && LockOk(s.wqs, s.cq.lock)
    && CqRingOk(s.cq.ring, s.cq.pushed, s.cq.polled, s.cq.poller)
    && |s.cq.pushed| <= SumDone(s.wqs, |s.wqs|)
  }

  // ---------- sums ----------

  lemma {:induction false} SumDoneUpdate(wqs: seq<Wq>, i: nat, w: Wq, n: nat)
    requires i < |wqs| && n <= |wqs|
    ensures SumDone(wqs[i := w], n) == SumDone(wqs, n) + if i < n then |w.done| - |wqs[i].done| else 0
    decreases n
  {
    if n > 0 { SumDoneUpdate(wqs, i, w, n - 1); }
  }

  /** Fewer completions than posted elements, by one at least if some queue has an element to complete. */
  lemma {:induction false} SumsCompare(wqs: seq<Wq>, n: nat, i: nat)
    requires n <= |wqs| && forall j :: 0 <= j < n ==> |wqs[j].done| <= |wqs[j].posted|
    ensures SumDone(wqs, n) <= SumPosted(wqs, n)
    ensures i < n && |wqs[i].done| < |wqs[i].posted| ==> SumDone(wqs, n) < SumPosted(wqs, n)
    decreases n
  {
    if n > 0 { SumsCompare(wqs, n - 1, i); }
  }

  // ---------- steps of a worker on the completion queue ----------

  lemma CritIdle(w: Wq, cq: Cq)
    requires !InCritical(w.worker)
    ensures CritOk(w, cq)
  {
  }

  lemma CqStepThreads(w: Wq, cq: Cq, c: WorkerChoice)
    requires ThreadsOk(w) && CqEnabled(w, cq, c)
    ensures ThreadsOk(CqStepWq(w, cq, c))
  {
    hide CqFull, MakeCqe;
  }

  /** The slot in work yields the completion that the histories call for. */
  lemma CurrentCompletion(w: Wq)
    requires DataOk(w) && Shape(w.ring) && w.worker.WPost? && w.worker.stage != CUnlock
    ensures w.retired < |w.posted| && |w.done| == w.retired
    ensures CurrentCqe(w) == Completion(w.posted[w.retired], w.worker.status, w.got)
    ensures DoneMatches(w.kind, w.posted[w.retired], Done(CurrentCqe(w), true, w.got))
    ensures DoneMatches(w.kind, w.posted[w.retired], Done(CurrentCqe(w), false, w.got))
  {
    hide RingOk, PostedOk, PosterOk, FilledOk, SentOk, ShapeOk;
  }

  /** A worker that appends a completion, taken by the CQ or not. */
  lemma Completes(w: Wq, d: Done)
    requires DataOk(w) && w.worker.WPost? && w.worker.stage != CUnlock && w.retired < |w.posted|
    requires |w.done| == w.retired && DoneMatches(w.kind, w.posted[w.retired], d) && d.cqe.status == w.worker.status
    ensures DataOk(w.(worker := WPost(CUnlock, w.worker.status), done := w.done + [d]))
  {
    hide RingOk, PostedOk, PosterOk, FilledOk, DoneMatches, SlotHolds, MsgOf;
  }

  lemma CqStepCompletes(w: Wq, cq: Cq, c: WorkerChoice)
    requires DataOk(w) && CqEnabled(w, cq, c) && CritOk(w, cq)
    requires w.worker.stage == CRead || w.worker.stage == CPublish
    ensures DataOk(CqStepWq(w, cq, c))
  {
    CurrentCompletion(w);
    var cqe := CurrentCqe(w);
    assert cqe.status == w.worker.status;
    hide DataOk, DoneMatches, Completion, CqFull, CurrentCqe;
    if w.worker.stage == CRead {
      if CqFull(cq) {
        Completes(w, Done(cqe, false, w.got));
      } else {
        StageMoves(w, CTear);
      }
    } else {
      Completes(w, Done(cqe, true, w.got));
    }
  }

  /** Moving on within the posting of a completion changes no data. */
  lemma StageMoves(w: Wq, stage: Stage)
    requires DataOk(w) && w.worker.WPost? && w.worker.stage != CUnlock && stage != CUnlock
    ensures DataOk(w.(worker := WPost(stage, w.worker.status)))
  {
    hide RingOk, PostedOk, PosterOk, FilledOk, DoneOk, SentOk, SlotHolds;
  }

  lemma Unlocks(w: Wq)
    requires DataOk(w) && w.worker.WPost? && w.worker.stage == CUnlock
    ensures DataOk(w.(worker := WFree))
  {
    hide RingOk, PostedOk, PosterOk, FilledOk, DoneOk, SentOk;
  }

  lemma CqStepData(w: Wq, cq: Cq, c: WorkerChoice)
    requires DataOk(w) && CqEnabled(w, cq, c) && CritOk(w, cq)
    ensures DataOk(CqStepWq(w, cq, c))
  {
    hide DataOk;
    match w.worker.stage
    case CLock => StageMoves(w, CRead);
    case CTear => StageMoves(w, CFill);
    case CFill => StageMoves(w, CPublish);
    case CUnlock => Unlocks(w);
    case _ => CqStepCompletes(w, cq, c);
  }

  lemma RingTears(w: Wq, cq: Cq, c: WorkerChoice)
    requires CqEnabled(w, cq, c) && CqRingOk(cq.ring, cq.pushed, cq.polled, cq.poller)
    requires w.worker.stage == CTear || w.worker.stage == CFill
    ensures var cq' := CqStepCq(0, w, cq, c);
            CqRingOk(cq'.ring, cq'.pushed, cq'.polled, cq'.poller)
  {
    hide CurrentCqe, IsSize, MakeWc;
    var cqe := if w.worker.stage == CTear then c.cqe else CurrentCqe(w);
    WriteHeadSlot(cq.ring, cq.pushed, |cq.polled|, |cq.polled|, cqe);
  }

  lemma RingPublishes(w: Wq, cq: Cq, c: WorkerChoice)
    requires CqEnabled(w, cq, c) && CqRingOk(cq.ring, cq.pushed, cq.polled, cq.poller)
    requires w.worker.stage == CPublish && |cq.pushed| - |cq.polled| <= cq.ring.size - 2
    ensures var cq' := CqStepCq(0, w, cq, c);
            CqRingOk(cq'.ring, cq'.pushed, cq'.polled, cq'.poller)
  {
    hide IsSize, MakeWc, Next;
    PublishHead(cq.ring, cq.pushed, |cq.polled|, |cq.polled|);
  }

  lemma CritReads(w: Wq, cq: Cq, c: WorkerChoice)
    requires CqEnabled(w, cq, c) && w.worker.stage == CRead
    requires CqRingOk(cq.ring, cq.pushed, cq.polled, cq.poller)
    ensures CritOk(CqStepWq(w, cq, c), CqStepCq(0, w, cq, c))
  {
    RingCounts(cq.ring, cq.pushed, |cq.polled|, |cq.polled|);
    hide CurrentCqe, CqRingOk, CircSpace;
  }

  lemma CritFills(w: Wq, cq: Cq, c: WorkerChoice)
    requires DataOk(w) && CqEnabled(w, cq, c) && CritOk(w, cq) && w.worker.stage == CFill
    requires CqRingOk(cq.ring, cq.pushed, cq.polled, cq.poller)
    ensures CritOk(CqStepWq(w, cq, c), CqStepCq(0, w, cq, c))
  {
    RingFits(cq.ring, cq.pushed, |cq.polled|, |cq.polled|);
    CurrentCompletion(w);
    hide DataOk, Completion, CurrentCqe, CqRingOk;
  }

  /** Room found is room kept: the poller can only make more of it. */
  lemma CritMoves(w: Wq, cq: Cq, c: WorkerChoice)
    requires DataOk(w) && CqEnabled(w, cq, c) && CritOk(w, cq)
    requires CqRingOk(cq.ring, cq.pushed, cq.polled, cq.poller)
    ensures CritOk(CqStepWq(w, cq, c), CqStepCq(0, w, cq, c))
  {
    hide DataOk, Completion, CurrentCqe, CqRingOk, Next, CqFull;
    match w.worker.stage
    case CRead => CritReads(w, cq, c);
    case CFill => CritFills(w, cq, c);
    case _ =>
  }

  /** The completion ring under a worker's step; only its holder of the lock writes it. */
  lemma CqStepRing(i: nat, w: Wq, cq: Cq, c: WorkerChoice)
    requires DataOk(w) && CqEnabled(w, cq, c) && CritOk(w, cq)
    requires CqRingOk(cq.ring, cq.pushed, cq.polled, cq.poller)
    ensures var cq' := CqStepCq(i, w, cq, c);
            && CqRingOk(cq'.ring, cq'.pushed, cq'.polled, cq'.poller)
            && CritOk(CqStepWq(w, cq, c), cq')
  {
    hide DataOk, CqRingOk, CurrentCqe, Next, Completion;
    CritMoves(w, cq, c);
    match w.worker.stage
    case CTear => RingTears(w, cq, c);
    case CFill => RingTears(w, cq, c);
    case CPublish => RingPublishes(w, cq, c);
    case _ =>
  }

  // ---------- projections ----------

  lemma ProjectMore(cs: seq<Cqe>, c: Cqe, qp: nat, op: Opcode)
    ensures Project(cs + [c], qp, op) == Project(cs, qp, op) + if c.qp == qp && c.opcode == op then [c] else []
  {
    assert (cs + [c])[..|cs|] == cs;
  }

  lemma AcceptedMore(done: seq<Done>, d: Done)
    ensures TakenByCq(done + [d]) == TakenByCq(done) + if d.accepted then [d.cqe] else []
    ensures Dropped(done + [d]) == Dropped(done) + if d.accepted then 0 else 1
  {
    assert (done + [d])[..|done|] == done;
  }

  /** A completion carries the queue pair and the direction of the queue it was posted to. */
  lemma CompletionOwner(w: Wq, status: Status, got: nat)
    requires DataOk(w) && w.retired < |w.posted|
    ensures var c := Completion(w.posted[w.retired], status, got); c.qp == w.qp && c.opcode == OpcodeOf(w.kind)
  {
    hide RingOk, PosterOk, FilledOk, BusyOk, DoneOk, SentOk, ShapeOk, WellFormed, Accepted;
    assert OriginOk(w.pageSize, w.kind, w.qp, w.origin[w.retired], w.posted[w.retired]);
  }

  /** The completions of the queue that steps, and of any other queue, stay in correspondence. */
  lemma CqStepProjects(i: nat, w: Wq, cq: Cq, c: WorkerChoice, other: Wq)
    requires DataOk(w) && CqEnabled(w, cq, c) && CritOk(w, cq)
    requires Project(cq.pushed, w.qp, OpcodeOf(w.kind)) == TakenByCq(w.done)
    requires other.qp != w.qp || other.kind != w.kind
    ensures var cq', w' := CqStepCq(i, w, cq, c), CqStepWq(w, cq, c);
            && Project(cq'.pushed, w.qp, OpcodeOf(w.kind)) == TakenByCq(w'.done)
            && Project(cq'.pushed, other.qp, OpcodeOf(other.kind)) == Project(cq.pushed, other.qp, OpcodeOf(other.kind))
            && |cq'.pushed| - |cq.pushed| <= |w'.done| - |w.done|
  {
    hide DataOk, Completion, CurrentCqe, CqFull, Next, Project, TakenByCq, Dropped;
    if w.worker.stage == CPublish {
      CompletionOwner(w, w.worker.status, w.got);
      var cqe := cq.ring.slots[cq.ring.head];
      ProjectMore(cq.pushed, cqe, w.qp, OpcodeOf(w.kind));
      ProjectMore(cq.pushed, cqe, other.qp, OpcodeOf(other.kind));
      AcceptedMore(w.done, Done(cqe, true, w.got));
    } else if w.worker.stage == CRead {
      AcceptedMore(w.done, Done(CurrentCqe(w), false, w.got));
    }
  }

  // ---------- every step ----------

  /** Replacing one queue by a state of itself that generated nothing and stays where it is with the lock. */
  lemma ReplaceQueue(s: System, i: nat, w': Wq)
    requires Inv(s) && i < |s.wqs| && QueueOk(w', s.cq)
    requires w'.qp == s.wqs[i].qp && w'.kind == s.wqs[i].kind && w'.done == s.wqs[i].done
    requires InCritical(w'.worker) == InCritical(s.wqs[i].worker)
    ensures Inv(s.(wqs := s.wqs[i := w']))
  {
    hide QueueOk, CqRingOk;
    SumDoneUpdate(s.wqs, i, w', |s.wqs|);
  }

  lemma LocalFrame(w: Wq, c: WorkerChoice)
    requires LocalEnabled(w, c)
    ensures var w' := LocalStep(w, c);
            && w'.qp == w.qp && w'.kind == w.kind && w'.done == w.done && w'.posted == w.posted && w'.origin == w.origin
            && w'.pageSize == w.pageSize && w'.control == w.control && w'.poster == w.poster
            && !InCritical(w.worker) && !InCritical(w'.worker)
  {
    hide CircCnt, Next, MsgOf, TransferStep;
    if w.worker.WXfer? { TransferPc(w, c); }
  }

  lemma PosterInv(s: System, i: nat, c: PosterChoice)
    requires Inv(s) && i < |s.wqs| && PosterEnabled(s.wqs[i], c)
    ensures Inv(s.(wqs := s.wqs[i := PosterStep(s.wqs[i], c)]))
  {
    var w := s.wqs[i];
    assert QueueOk(w, s.cq);
    PosterKeeps(w, c);
    PosterFrame(w, c);
    hide PosterStep, WqInv, Inv, Completion;
    ReplaceQueue(s, i, PosterStep(w, c));
  }

  lemma ControlInv(s: System, i: nat, c: ControlChoice)
    requires Inv(s) && i < |s.wqs| && ControlEnabled(s.wqs[i], c)
    ensures Inv(s.(wqs := s.wqs[i := ControlStep(s.wqs[i], c)]))
  {
    var w := s.wqs[i];
    assert QueueOk(w, s.cq);
    ControlThreads(w, c);
    ControlData(w, c);
    ControlFrame(w, c);
    hide ControlStep, DataOk, ThreadsOk, Inv, Completion;
    ReplaceQueue(s, i, ControlStep(w, c));
  }

  lemma LocalInv(s: System, i: nat, c: WorkerChoice)
    requires Inv(s) && i < |s.wqs| && LocalEnabled(s.wqs[i], c)
    ensures Inv(s.(wqs := s.wqs[i := LocalStep(s.wqs[i], c)]))
  {
    var w := s.wqs[i];
    assert QueueOk(w, s.cq);
    LocalKeeps(w, c);
    LocalFrame(w, c);
    CritIdle(LocalStep(w, c), s.cq);
    hide LocalStep, LocalEnabled, WqInv, Inv, CritOk, Project, TakenByCq, InCritical;
    ReplaceQueue(s, i, LocalStep(w, c));
  }

  lemma LockUpdate(wqs: seq<Wq>, lock: Lock, i: nat, w': Wq, lock': Lock)
    requires LockOk(wqs, lock) && i < |wqs|
    requires InCritical(w'.worker) <==> lock' == Held(i)
    requires lock' == lock || (lock == Free && lock' == Held(i)) || (lock == Held(i) && lock' == Free)
    ensures LockOk(wqs[i := w'], lock')
  {
  }

  lemma DistinctUpdate(wqs: seq<Wq>, i: nat, w': Wq)
    requires DistinctQueues(wqs) && i < |wqs| && w'.qp == wqs[i].qp && w'.kind == wqs[i].kind
    ensures DistinctQueues(wqs[i := w'])
  {
  }

  lemma CqStepSelf(s: System, i: nat, c: WorkerChoice)
    requires Inv(s) && i < |s.wqs| && CqEnabled(s.wqs[i], s.cq, c)
    ensures QueueOk(CqStepWq(s.wqs[i], s.cq, c), CqStepCq(i, s.wqs[i], s.cq, c))
    ensures var cq' := CqStepCq(i, s.wqs[i], s.cq, c);
            && CqRingOk(cq'.ring, cq'.pushed, cq'.polled, cq'.poller)
            && |cq'.pushed| - |s.cq.pushed| <= |CqStepWq(s.wqs[i], s.cq, c).done| - |s.wqs[i].done|
  {
    var w := s.wqs[i];
    assert QueueOk(w, s.cq);
    CqStepThreads(w, s.cq, c);
    CqStepData(w, s.cq, c);
    CqStepRing(i, w, s.cq, c);
    CqStepLock(i, w, s.cq, c);
    CqStepProjects(i, w, s.cq, c, w.(qp := w.qp + 1));
    hide CqStepWq, CqStepCq, CqRingOk, DataOk, ThreadsOk, CritOk, Project, TakenByCq, CqEnabled;
  }

  lemma CqInv(s: System, i: nat, c: WorkerChoice)
    requires Inv(s) && i < |s.wqs| && CqEnabled(s.wqs[i], s.cq, c)
    ensures Inv(System(s.wqs[i := CqStepWq(s.wqs[i], s.cq, c)], CqStepCq(i, s.wqs[i], s.cq, c)))
  {
    hide CqStepWq, CqStepCq, QueueOk, CqRingOk, CqEnabled, DistinctQueues, SumDone;
    var w := s.wqs[i];
    var w', cq' := CqStepWq(w, s.cq, c), CqStepCq(i, w, s.cq, c);
    CqStepSelf(s, i, c);
    CqStepLock(i, w, s.cq, c);
    LockUpdate(s.wqs, s.cq.lock, i, w', cq'.lock);
    DistinctUpdate(s.wqs, i, w');
    SumDoneUpdate(s.wqs, i, w', |s.wqs|);
    forall j {:trigger s.wqs[j]} | 0 <= j < |s.wqs| && j != i
      ensures QueueOk(s.wqs[j], cq')
    {
      CqStepOther(s, i, c, j);
    }
  }

  lemma CqStepLock(i: nat, w: Wq, cq: Cq, c: WorkerChoice)
    requires CqEnabled(w, cq, c) && (InCritical(w.worker) <==> cq.lock == Held(i))
    ensures var w', cq' := CqStepWq(w, cq, c), CqStepCq(i, w, cq, c);
            && (InCritical(w'.worker) <==> cq'.lock == Held(i))
            && w'.qp == w.qp && w'.kind == w.kind
            && (|| cq'.lock == cq.lock
                || (cq.lock == Free && cq'.lock == Held(i))
                || (cq.lock == Held(i) && cq'.lock == Free))
  {
    hide CqFull, CurrentCqe, Next;
  }

  lemma OthersStayOut(s: System, i: nat, c: WorkerChoice, j: nat)
    requires Inv(s) && i < |s.wqs| && j < |s.wqs| && i != j && CqEnabled(s.wqs[i], s.cq, c)
    ensures !InCritical(s.wqs[j].worker)
  {
    hide QueueOk, CqRingOk, SumDone, DistinctQueues;
    assert InCritical(s.wqs[i].worker) <==> s.cq.lock == Held(i);
    assert InCritical(s.wqs[j].worker) <==> s.cq.lock == Held(j);
  }

  /** A queue that is not in the critical section does not notice another one's step there. */
  lemma CqStepOther(s: System, i: nat, c: WorkerChoice, j: nat)
    requires Inv(s) && i < |s.wqs| && j < |s.wqs| && i != j && CqEnabled(s.wqs[i], s.cq, c)
    ensures QueueOk(s.wqs[j], CqStepCq(i, s.wqs[i], s.cq, c))
  {
    var w, other := s.wqs[i], s.wqs[j];
    OthersStayOut(s, i, c, j);
    CritIdle(other, CqStepCq(i, w, s.cq, c));
    assert QueueOk(w, s.cq) && QueueOk(other, s.cq);
    assert other.qp != w.qp || other.kind != w.kind;
    hide Inv, DataOk, ThreadsOk, CritOk, Project, TakenByCq, CqStepCq, CqStepWq, CqEnabled;
    CqStepProjects(i, w, s.cq, c, other);
  }

  lemma PollInv(s: System)
    requires Inv(s) && Shape(s.cq.ring)
    ensures Inv(s.(cq := PollStep(s.cq)))
  {
    var cq, cq' := s.cq, PollStep(s.cq);
    PollRing(cq);
    forall j | 0 <= j < |s.wqs|
      ensures QueueOk(s.wqs[j], cq')
    {
      assert QueueOk(s.wqs[j], cq);
      hide WqInv, Completion;
    }
    hide QueueOk, CqRingOk, PollStep;
  }

  lemma PollRing(cq: Cq)
    requires CqRingOk(cq.ring, cq.pushed, cq.polled, cq.poller) && Shape(cq.ring)
    ensures var cq' := PollStep(cq);
            && CqRingOk(cq'.ring, cq'.pushed, cq'.polled, cq'.poller)
            && cq' == cq.(ring := cq'.ring, poller := cq'.poller, polled := cq'.polled)
            && cq'.ring == cq.ring.(tail := cq'.ring.tail)
            && |cq.polled| <= |cq'.polled|
  {
    RingCounts(cq.ring, cq.pushed, |cq.polled|, |cq.polled|);
    if cq.poller.PollRetire? {
      RetireTail(cq.ring, cq.pushed, |cq.polled|, |cq.polled|);
    }
    hide IsSize, CircCnt, Next;
  }

  /** Every step of every thread keeps the invariant. */
  lemma StepKeepsInv(s: System, l: Label)
    requires Inv(s) && Enabled(s, l)
    ensures Inv(Apply(s, l))
  {
    hide Inv;
    match l
    case Post(i, c) => PosterInv(s, i, c);
    case Control(i, c) => ControlInv(s, i, c);
    case Work(i, c) =>
      if LocalEnabled(s.wqs[i], c) { LocalInv(s, i, c); } else { CqInv(s, i, c); }
    case Poll => PollInv(s);
  }

  lemma FreshQueue(w: Wq)
    requires FreshWq(w)
    ensures WqInv(w)
  {
  }

  lemma {:induction false} SumDoneFresh(wqs: seq<Wq>, n: nat)
    requires n <= |wqs| && forall i :: 0 <= i < |wqs| ==> FreshWq(wqs[i])
    ensures SumDone(wqs, n) == 0
    decreases n
  {
    if n > 0 { SumDoneFresh(wqs, n - 1); }
  }

  lemma InitInv(s: System)
    requires Init(s)
    ensures Inv(s)
  {
    forall i | 0 <= i < |s.wqs|
      ensures QueueOk(s.wqs[i], s.cq)
    {
      FreshQueue(s.wqs[i]);
    }
    SumDoneFresh(s.wqs, |s.wqs|);
    hide QueueOk;
  }

  /** Every state of every run satisfies the invariant. */
  lemma {:induction false} RunInv(states: seq<System>, labels: seq<Label>, k: nat)
    requires IsRun(states, labels) && k < |states|
    ensures Inv(states[k])
    decreases k
  {
    hide Inv, Init, Apply, Enabled;
    if k == 0 {
      InitInv(states[0]);
    } else {
      RunInv(states, labels, k - 1);
      StepKeepsInv(states[k - 1], labels[k - 1]);
    }
  }
}

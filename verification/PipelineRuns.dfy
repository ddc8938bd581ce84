/**
 Theorems about what happens along a run: completions after a timeout, completions that are never dropped,
 and the life cycle of a worker.
 */
module PipelineRuns {
  import opened Circ
  import opened WorkElement
  import opened Pipeline
  import opened PipelineInv
  import opened PipelineSystem
  import opened PipelineTheorems

  /** What one step does to queue `i`: nothing, or a step of one of its own threads. */
  lemma StepOn(s: System, l: Label, i: nat)
    requires Enabled(s, l) && i < |s.wqs|
    ensures |Apply(s, l).wqs| == |s.wqs|
    ensures var w, w' := s.wqs[i], Apply(s, l).wqs[i];
            match l
            case Post(j, c) => w' == if i == j then PosterStep(w, c) else w
            case Control(j, c) => w' == if i == j then ControlStep(w, c) else w
            case Work(j, c) =>
              w' == if i != j then w else if LocalEnabled(w, c) then LocalStep(w, c) else CqStepWq(w, s.cq, c)
            case Poll => w' == w
  {
    hide PosterStep, ControlStep, LocalStep, CqStepWq, CqStepCq, PollStep;
    hide PosterEnabled, ControlEnabled, LocalEnabled, CqEnabled;
  }

  lemma RunStep(states: seq<System>, labels: seq<Label>, k: nat)
    requires IsRun(states, labels) && k + 1 < |states|
    ensures k < |labels| && Enabled(states[k], labels[k]) && states[k + 1] == Apply(states[k], labels[k])
  {
    hide Init, Enabled, Apply;
  }

  lemma RunLength(states: seq<System>, labels: seq<Label>)
    requires IsRun(states, labels)
    ensures |states| == |labels| + 1
  {
    hide Init, Follows;
  }

  // ---------- the shape of the completions of a run ----------

  lemma ShapeAt(w: Wq)
    requires DataOk(w)
    ensures ShapeOk(w.done, w.stop, w.worker)
  {
    hide RingOk, PostedOk, PosterOk, FilledOk, SentOk, ShapeOk, DoneOk, BusyOk;
  }

  /** All completions of a queue but the last are successes; only a stop makes the last one a timeout. */
  lemma CompletionShape(s: System, i: nat, k: nat)
    requires Reachable(s) && i < |s.wqs| && k < |s.wqs[i].done|
    ensures var w := s.wqs[i];
            && (k + 1 < |w.done| ==> w.done[k].cqe.status == Success)
            && (w.done[k].cqe.status == RespTimeoutErr ==> w.stop && Ending(w.worker))
  {
    ReachableQueue(s, i);
    ShapeAt(s.wqs[i]);
    hide Reachable, DataOk, CqRingOk, CritOk, ThreadsOk, Project, TakenByCq;
  }

  lemma StepAfterTimeout(s: System, l: Label, i: nat)
    requires Inv(s) && Enabled(s, l) && i < |s.wqs| && LastTimedOut(s.wqs[i].done)
    ensures |Apply(s, l).wqs| == |s.wqs| && Apply(s, l).wqs[i].done == s.wqs[i].done
  {
    hide Inv, Apply, DataOk, PosterStep, ControlStep, LocalStep, LifeOk, Next, CqFull, CurrentCqe;
    hide PosterEnabled, ControlEnabled;
    var w := s.wqs[i];
    DataAt(s, i);
    LifeAt(s, i);
    ShapeAt(w);
    StepOn(s, l, i);
    match l
    case Post(j, c) => if i == j { PosterFrame(w, c); }
    case Control(j, c) => if i == j { ControlFrame(w, c); }
    case Work(j, c) =>
      if i == j && LocalEnabled(w, c) { LocalFrame(w, c); }
    case Poll =>
  }

  lemma RetiredAreDone(s: System, i: nat)
    requires Inv(s) && i < |s.wqs|
    ensures s.wqs[i].retired <= |s.wqs[i].done|
  {
    assert QueueOk(s.wqs[i], s.cq);
    DoneCount(s.wqs[i]);
    hide Inv, DataOk, ThreadsOk, CritOk, Project, TakenByCq;
  }

  /**
   After a timeout a worker completes nothing more, whatever happens: from then on the list of its
   completions stays as it is, and elements behind the one that timed out are never retired.
   */
  lemma {:induction false} TimeoutIsFinal(states: seq<System>, labels: seq<Label>, a: nat, b: nat, i: nat)
    requires IsRun(states, labels) && a <= b < |states|
    requires i < |states[a].wqs| && LastTimedOut(states[a].wqs[i].done)
    ensures i < |states[b].wqs| && states[b].wqs[i].done == states[a].wqs[i].done
    ensures states[b].wqs[i].retired <= |states[a].wqs[i].done|
    decreases b
  {
    hide IsRun, Inv, Apply, Enabled, LastTimedOut;
    RunInv(states, labels, b);
    if a < b {
      TimeoutIsFinal(states, labels, a, b - 1, i);
      RunInv(states, labels, b - 1);
      RunStep(states, labels, b - 1);
      StepAfterTimeout(states[b - 1], labels[b - 1], i);
    }
    RetiredAreDone(states[b], i);
  }

  // ---------- retries ----------

  predicate InTransfer(w: Wq) {
    w.worker.WTry? || w.worker.WXfer?
  }

  /** `w'` is where `w` was with its transfer, and nothing was received, sent, completed or retired in between. */
  ghost predicate SameTransfer(w: Wq, w': Wq)
    requires InTransfer(w)
  {
    && (w'.worker == WTry(w.worker.total, w.worker.left) || w'.worker == WXfer(w.worker.total, w.worker.left))
    && w'.retired == w.retired && w'.got == w.got && w'.sent == w.sent && w'.done == w.done
    && w.posted <= w'.posted
  }

  /** The worker of queue `i` sees no stop request in this step, and its call, if it makes one, fails. */
  predicate FailingStep(s: System, l: Label, i: nat)
    requires i < |s.wqs|
  {
    l.Work? && l.i == i ==> !s.wqs[i].stop && (l.w.Transfer? ==> !l.w.ok)
  }

  lemma RetryLocal(w: Wq, c: WorkerChoice)
    requires LocalEnabled(w, c) && InTransfer(w) && !w.stop && (c.Transfer? ==> !c.ok)
    ensures SameTransfer(w, LocalStep(w, c))
  {
    hide MsgOf;
  }

  lemma RetryStep(s: System, l: Label, i: nat)
    requires Inv(s) && Enabled(s, l) && i < |s.wqs| && InTransfer(s.wqs[i]) && FailingStep(s, l, i)
    ensures |Apply(s, l).wqs| == |s.wqs| && SameTransfer(s.wqs[i], Apply(s, l).wqs[i])
  {
    var w := s.wqs[i];
    LifeAt(s, i);
    hide Inv, Apply, PosterStep, PosterEnabled, ControlStep, ControlEnabled, LocalStep, LifeOk, LocalEnabled;
    StepOn(s, l, i);
    match l
    case Post(j, c) => if i == j { PosterFrame(w, c); }
    case Control(j, c) => if i == j { ControlFrame(w, c); }
    case Work(j, c) => if i == j { RetryLocal(w, c); }
    case Poll =>
  }

  lemma SlotOfTransfer(s: System, i: nat)
    requires Inv(s) && i < |s.wqs| && InTransfer(s.wqs[i])
    ensures var w := s.wqs[i];
            && Shape(w.ring) && w.retired < |w.posted|
            && w.ring.slots[w.ring.tail] == w.posted[w.retired].(byteLen := w.worker.left)
  {
    DataAt(s, i);
    hide Inv, DataOk;
    SlotAt(s.wqs[i]);
  }

  /**
   Retries change nothing: over any stretch of a run in which the calls of a queue's worker fail, however many and
   whatever the other threads do, the element in its slot stays as it was, byte count included, and nothing is
   received, sent, completed or retired.
   */
  lemma {:induction false} RetriesChangeNothing(states: seq<System>, labels: seq<Label>, a: nat, b: nat, i: nat)
    requires IsRun(states, labels) && a <= b < |states| && |states| == |labels| + 1
    requires i < |states[a].wqs| && InTransfer(states[a].wqs[i])
    requires forall k :: a <= k < b ==> i < |states[k].wqs| && FailingStep(states[k], labels[k], i)
    ensures i < |states[b].wqs| && SameTransfer(states[a].wqs[i], states[b].wqs[i])
    ensures Shape(states[a].wqs[i].ring) && Shape(states[b].wqs[i].ring)
    ensures var r, r' := states[a].wqs[i].ring, states[b].wqs[i].ring; r'.slots[r'.tail] == r.slots[r.tail]
    decreases b
  {
    hide IsRun, Inv, Apply, Enabled, FailingStep, Shape;
    RunInv(states, labels, a);
    RunInv(states, labels, b);
    if a < b {
      RetriesChangeNothing(states, labels, a, b - 1, i);
      RunInv(states, labels, b - 1);
      RunStep(states, labels, b - 1);
      RetryStep(states[b - 1], labels[b - 1], i);
    }
    SlotOfTransfer(states[a], i);
    SlotOfTransfer(states[b], i);
  }

  // ---------- no dropped completion ----------

  /** Outstanding requests, posted but not polled, summed over all queues, fit the completion queue. */
  ghost predicate Bounded(s: System) {
    SumPosted(s.wqs, |s.wqs|) - |s.cq.polled| <= s.cq.ring.size - 1
  }

  lemma AtCqRead(s: System, i: nat)
    requires Inv(s) && i < |s.wqs|
    ensures forall j :: 0 <= j < |s.wqs| ==> |s.wqs[j].done| <= |s.wqs[j].posted|
    ensures s.wqs[i].worker.WPost? && s.wqs[i].worker.stage == CRead ==> |s.wqs[i].done| < |s.wqs[i].posted|
  {
    forall j | 0 <= j < |s.wqs|
      ensures |s.wqs[j].done| <= |s.wqs[j].posted|
    {
      assert QueueOk(s.wqs[j], s.cq);
      DoneCount(s.wqs[j]);
    }
    assert QueueOk(s.wqs[i], s.cq);
    DoneCount(s.wqs[i]);
    hide Inv, ThreadsOk, CritOk, PostedOk, PosterOk, FilledOk, SentOk, ShapeOk, SlotOk, DoneOk, Project, TakenByCq;
  }

  /** A worker that looks for space in the completion queue finds it, if outstanding requests are bounded. */
  lemma FullBranchUnreachable(s: System, i: nat)
    requires Inv(s) && i < |s.wqs| && Bounded(s)
    requires s.wqs[i].worker.WPost? && s.wqs[i].worker.stage == CRead
    ensures Shape(s.cq.ring) && !CqFull(s.cq)
  {
    AtCqRead(s, i);
    SumsCompare(s.wqs, |s.wqs|, i);
    RingCounts(s.cq.ring, s.cq.pushed, |s.cq.polled|, |s.cq.polled|);
    hide QueueOk, LockOk, DistinctQueues, IsSize, CircSpace;
  }

  lemma CqStepDropsNothing(w: Wq, cq: Cq, c: WorkerChoice)
    requires CqEnabled(w, cq, c) && Dropped(w.done) == 0
    requires w.worker.stage == CRead ==> !CqFull(cq)
    ensures Dropped(CqStepWq(w, cq, c).done) == 0
  {
    hide CqFull, CurrentCqe, Dropped, Next;
    if w.worker.stage == CPublish {
      AcceptedMore(w.done, Done(cq.ring.slots[cq.ring.head], true, w.got));
    }
  }

  lemma StepDropsNothing(s: System, l: Label, i: nat)
    requires Inv(s) && Enabled(s, l) && i < |s.wqs| && Bounded(s) && Dropped(s.wqs[i].done) == 0
    ensures |Apply(s, l).wqs| == |s.wqs| && Dropped(Apply(s, l).wqs[i].done) == 0
  {
    var w := s.wqs[i];
    LifeAt(s, i);
    hide Inv, Apply, PosterStep, ControlStep, LocalStep, CqFull, Bounded, LifeOk, CqStepWq;
    hide PosterEnabled, ControlEnabled, LocalEnabled, Dropped;
    StepOn(s, l, i);
    match l
    case Post(j, c) => if i == j { PosterFrame(w, c); }
    case Control(j, c) => if i == j { ControlFrame(w, c); }
    case Work(j, c) =>
      if i == j {
        if LocalEnabled(w, c) {
          LocalFrame(w, c);
        } else {
          if w.worker.stage == CRead { FullBranchUnreachable(s, i); }
          CqStepDropsNothing(w, s.cq, c);
        }
      }
    case Poll =>
  }

  /**
   No completion is ever dropped in a run in which the outstanding requests of all queues together never
   exceed one less than the size of the completion ring, although the workers ignore a refusal.
   */
  lemma {:induction false} NothingDropped(states: seq<System>, labels: seq<Label>, k: nat, i: nat)
    requires IsRun(states, labels) && k < |states| && i < |states[0].wqs|
    requires forall j :: 0 <= j < k ==> Bounded(states[j])
    ensures i < |states[k].wqs| && Dropped(states[k].wqs[i].done) == 0
    decreases k
  {
    if k == 0 {
      assert FreshWq(states[0].wqs[i]);
    } else {
      NothingDropped(states, labels, k - 1, i);
      RunInv(states, labels, k - 1);
      RunStep(states, labels, k - 1);
      hide Inv, Apply, Enabled, Bounded, Dropped, IsRun;
      StepDropsNothing(states[k - 1], labels[k - 1], i);
    }
  }

  // ---------- life cycle ----------

  function Rank(state: WqState): nat {
    match state
    case Uninitialized => 0
    case Initialized => 1
    case Running => 2
    case Exited => 3
  }

  /** The state of a queue only moves forward, except that a failed thread creation resets it. */
  lemma StateMovesForward(s: System, l: Label, i: nat)
    requires Reachable(s) && Enabled(s, l) && i < |s.wqs|
    ensures var w, w' := s.wqs[i], Apply(s, l).wqs[i];
            Rank(w'.state) < Rank(w.state) ==>
              l == Control(i, Create(false)) && w.control == KCreate && w.worker == WNone && w'.state == Uninitialized
  {
    ReachableQueue(s, i);
    var w := s.wqs[i];
    StepOn(s, l, i);
    hide Reachable, Apply, DataOk, CritOk, Project, TakenByCq, CqRingOk, FlagOk, TeardownOk;
    StateStep(s, l, i);
  }

  lemma StateStep(s: System, l: Label, i: nat)
    requires Enabled(s, l) && i < |s.wqs|
    requires LifeOk(s.wqs[i].state, s.wqs[i].stop, s.wqs[i].worker, s.wqs[i].control)
    ensures var w, w' := s.wqs[i], Apply(s, l).wqs[i];
            Rank(w'.state) < Rank(w.state) ==>
              l == Control(i, Create(false)) && w.control == KCreate && w.worker == WNone && w'.state == Uninitialized
  {
    var w := s.wqs[i];
    StepOn(s, l, i);
    hide Apply, PosterStep, PosterEnabled, CircCnt, Next, CqFull, CurrentCqe, TransferStep, MsgOf;
    match l
    case Post(j, c) => if i == j { PosterFrame(w, c); }
    case Control(j, c) =>
    case Work(j, c) =>
      if i == j && LocalEnabled(w, c) && w.worker.WXfer? { TransferPc(w, c); }
    case Poll =>
  }

  /** Once the state says exited, teardown has happened exactly if the connection was ever established. */
  lemma TeardownBeforeExited(s: System, i: nat)
    requires Reachable(s) && i < |s.wqs|
    ensures var w := s.wqs[i];
            && w.established <= 1
            && (w.state == Exited ==> w.teardowns == w.established)
            && (w.state != Exited && w.worker != WSetExited ==> w.teardowns == 0)
            && w.teardowns <= w.established
  {
    hide Reachable, Inv, CqRingOk;
    ReachableInv(s);
    ThreadsAt(s, i);
  }

  lemma GoneWorker(s: System, i: nat)
    requires Inv(s) && i < |s.wqs| && s.wqs[i].control == KGone
    ensures s.wqs[i].worker == WNone || s.wqs[i].worker == WDone
  {
    var w := s.wqs[i];
    assert QueueOk(w, s.cq);
    assert LifeOk(w.state, w.stop, w.worker, w.control);
    hide Inv, DataOk, FlagOk, TeardownOk, CritOk, Project, TakenByCq;
  }

  lemma NoWork(w: Wq, cq: Cq, c: WorkerChoice)
    requires w.worker == WNone || w.worker == WDone
    ensures !LocalEnabled(w, c) && !CqEnabled(w, cq, c)
  {
  }

  lemma StepAfterExit(s: System, l: Label, i: nat)
    requires Inv(s) && Enabled(s, l) && i < |s.wqs| && s.wqs[i].control == KGone
    ensures |Apply(s, l).wqs| == |s.wqs|
    ensures Apply(s, l).wqs[i].control == KGone && Apply(s, l).wqs[i].worker == s.wqs[i].worker
    ensures !(l.Work? && l.i == i)
  {
    hide Inv, Apply, PosterStep, PosterEnabled, LocalStep, LocalEnabled, CqEnabled, ControlStep, CqStepWq;
    var w := s.wqs[i];
    GoneWorker(s, i);
    StepOn(s, l, i);
    match l
    case Post(j, c) => if i == j { PosterFrame(w, c); }
    case Work(j, c) => NoWork(w, s.cq, c);
    case _ =>
  }

  /**
   When dis_qp_exit has returned, the worker has returned or never existed, and it takes no step in the
   rest of the run: the buffers that dis_destroy_qp then frees are used by no worker.
   */
  lemma {:induction false} ExitIsFinal(states: seq<System>, labels: seq<Label>, a: nat, b: nat, i: nat)
    requires IsRun(states, labels) && a <= b < |states|
    requires i < |states[a].wqs| && states[a].wqs[i].control == KGone
    ensures i < |states[b].wqs| && states[b].wqs[i].control == KGone
    ensures states[b].wqs[i].worker == WNone || states[b].wqs[i].worker == WDone
    ensures |states| == |labels| + 1 && forall k :: a <= k < b ==> !(labels[k].Work? && labels[k].i == i)
    decreases b
  {
    hide IsRun, Inv, Apply, Enabled;
    if a < b {
      ExitIsFinal(states, labels, a, b - 1, i);
      RunInv(states, labels, b - 1);
      RunStep(states, labels, b - 1);
      StepAfterExit(states[b - 1], labels[b - 1], i);
    } else {
      RunInv(states, labels, b);
      GoneWorker(states[b], i);
      RunLength(states, labels);
    }
  }
}

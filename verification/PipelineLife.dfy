/**
 The end and the beginning of a worker's life: without a connection it does nothing, a fatal signal or a stop ends it
 for good after its teardown, dis_qp_exit stops exactly the workers that are alive, and the map of an element is freed
 before its slot is given back.
 */
module PipelineLife {
  import opened Circ
  import opened WorkElement
  import opened Pipeline
  import opened PipelineInv
  import opened PipelineSystem
  import opened PipelineTheorems
  import opened PipelineRuns
  import opened PipelineProgress

  // ---------- no connection, no work ----------

  /** The worker has not got to its ring, and nothing was done for the queue. */
  ghost predicate Unconnected(w: Wq) {
    && (BeforeEstablished(w.worker) || w.worker.WDone?)
    && w.established == 0 && w.teardowns == 0 && w.retired == 0 && w.done == [] && w.sent == [] && w.got == 0
  }

  /** Each attempt of queue `i` to establish its message queue fails in this step. */
  predicate RefusedStep(l: Label, i: nat) {
    l.Work? && l.i == i && l.w.Connect? ==> !l.w.ok
  }

  lemma UnconnectedLocal(w: Wq, c: WorkerChoice)
    requires LocalEnabled(w, c) && Unconnected(w) && (c.Connect? ==> !c.ok)
    ensures Unconnected(LocalStep(w, c))
  {
    hide CircCnt, Next, MsgOf, TransferStep;
  }

  lemma UnconnectedStep(s: System, l: Label, i: nat)
    requires Inv(s) && Enabled(s, l) && i < |s.wqs| && Unconnected(s.wqs[i]) && RefusedStep(l, i)
    ensures |Apply(s, l).wqs| == |s.wqs| && Unconnected(Apply(s, l).wqs[i])
  {
    var w := s.wqs[i];
    hide Inv, Apply, PosterStep, PosterEnabled, ControlStep, ControlEnabled, LocalStep, LifeOk, LocalEnabled, CqStepWq;
    LifeAt(s, i);
    StepOn(s, l, i);
    match l
    case Post(j, c) => if i == j { PosterFrame(w, c); }
    case Control(j, c) => if i == j { ControlFrame(w, c); }
    case Work(j, c) => if i == j { UnconnectedLocal(w, c); }
    case Poll =>
  }

  /**
   As long as every attempt to create or connect its message queue fails, a worker touches nothing: no request of its
   queue is sent, received, completed or retired, and there is nothing to tear down.
   */
  lemma {:induction false} NoConnectionNoWork(states: seq<System>, labels: seq<Label>, k: nat, i: nat)
    requires IsRun(states, labels) && k < |states| && |states| == |labels| + 1 && i < |states[0].wqs|
    requires forall j :: 0 <= j < k ==> RefusedStep(labels[j], i)
    ensures i < |states[k].wqs| && Unconnected(states[k].wqs[i])
    decreases k
  {
    if k == 0 {
      assert FreshWq(states[0].wqs[i]);
    } else {
      NoConnectionNoWork(states, labels, k - 1, i);
      RunInv(states, labels, k - 1);
      RunStep(states, labels, k - 1);
      hide Inv, Apply, Enabled, Unconnected, RefusedStep, IsRun;
      UnconnectedStep(states[k - 1], labels[k - 1], i);
    }
  }

  // ---------- leaving ----------

  /** Steps a worker still takes once it has left its loop. */
  function LeaveSteps(pc: WorkerPc): nat {
    match pc
    case WTeardown => 2
    case WSetExited => 1
    case _ => 0
  }

  predicate Leaving(pc: WorkerPc) {
    pc.WTeardown? || pc.WSetExited? || pc.WDone?
  }

  /** `w'` is where `w` was, but for its teardown: no request was touched in between. */
  ghost predicate OnlyLeaves(w: Wq, w': Wq) {
    && Leaving(w'.worker)
    && w'.done == w.done && w'.sent == w.sent && w'.got == w.got && w'.retired == w.retired
    && w'.established == w.established
  }

  lemma LeavingLocal(w: Wq, c: WorkerChoice)
    requires LocalEnabled(w, c) && Leaving(w.worker)
    ensures OnlyLeaves(w, LocalStep(w, c)) && LeaveSteps(LocalStep(w, c).worker) + 1 == LeaveSteps(w.worker)
  {
    hide CircCnt, Next, MsgOf, TransferStep;
  }

  lemma LeavingStep(s: System, l: Label, i: nat)
    requires Inv(s) && Enabled(s, l) && i < |s.wqs| && Leaving(s.wqs[i].worker)
    ensures |Apply(s, l).wqs| == |s.wqs|
    ensures var w' := Apply(s, l).wqs[i];
            && OnlyLeaves(s.wqs[i], w')
            && LeaveSteps(w'.worker) + (if l.Work? && l.i == i then 1 else 0) == LeaveSteps(s.wqs[i].worker)
  {
    var w := s.wqs[i];
    hide Inv, Apply, PosterStep, PosterEnabled, ControlStep, ControlEnabled, LocalStep, LifeOk, LocalEnabled, CqStepWq;
    LifeAt(s, i);
    StepOn(s, l, i);
    match l
    case Post(j, c) => if i == j { PosterFrame(w, c); }
    case Control(j, c) => if i == j { ControlFrame(w, c); }
    case Work(j, c) => if i == j { LeavingLocal(w, c); }
    case Poll =>
  }

  /** Once out of its loop, a worker touches no request any more and returns in its next steps. */
  lemma {:induction false} LeavingIsFinal(states: seq<System>, labels: seq<Label>, a: nat, b: nat, i: nat)
    requires IsRun(states, labels) && a <= b < |states| && |states| == |labels| + 1
    requires i < |states[a].wqs| && Leaving(states[a].wqs[i].worker)
    ensures i < |states[b].wqs| && OnlyLeaves(states[a].wqs[i], states[b].wqs[i])
    ensures WorkSteps(labels, a, b, i) + LeaveSteps(states[b].wqs[i].worker) == LeaveSteps(states[a].wqs[i].worker)
    decreases b
  {
    hide IsRun, Inv, Apply, Enabled, LeaveSteps;
    if a < b {
      LeavingIsFinal(states, labels, a, b - 1, i);
      RunInv(states, labels, b - 1);
      RunStep(states, labels, b - 1);
      LeavingStep(states[b - 1], labels[b - 1], i);
    }
  }

  /**
   A fatal signal at the wait ends the worker: it takes exactly two more steps, the teardown and the change of the
   state, and touches no request in the rest of the run, whatever was or is posted.
   */
  lemma KillEnds(states: seq<System>, labels: seq<Label>, a: nat, b: nat, i: nat)
    requires IsRun(states, labels) && a < b < |states| && |states| == |labels| + 1
    requires i < |states[a].wqs| && states[a].wqs[i].worker == WWait && labels[a] == Work(i, Kill)
    ensures i < |states[b].wqs| && OnlyLeaves(states[a].wqs[i], states[b].wqs[i])
    ensures WorkSteps(labels, a + 1, b, i) + LeaveSteps(states[b].wqs[i].worker) == 2
    ensures LeaveSteps(states[b].wqs[i].worker) == 0 <==> states[b].wqs[i].worker == WDone
    ensures states[b].wqs[i].worker == WDone ==> states[b].wqs[i].state == Exited && states[b].wqs[i].teardowns == 1
  {
    hide IsRun, Inv, Enabled;
    RunStep(states, labels, a);
    KillStep(states[a], i);
    hide Apply;
    LeavingIsFinal(states, labels, a + 1, b, i);
    RunInv(states, labels, a);
    ThreadsAt(states[a], i);
    RunInv(states, labels, b);
    ThreadsAt(states[b], i);
  }

  lemma KillStep(s: System, i: nat)
    requires Enabled(s, Work(i, Kill)) && s.wqs[i].worker == WWait
    ensures i < |Apply(s, Work(i, Kill)).wqs|
    ensures Apply(s, Work(i, Kill)).wqs[i] == s.wqs[i].(worker := WTeardown)
  {
  }

  // ---------- dis_qp_exit ----------

  /**
   dis_qp_exit asks a worker to stop exactly if there is one that has not returned, and returns at once otherwise;
   reading the state changes nothing else.
   */
  lemma ExitStopsTheLiving(s: System, i: nat)
    requires Reachable(s) && i < |s.wqs| && s.wqs[i].control == KExitCheck
    ensures Enabled(s, Control(i, Go))
    ensures var w := s.wqs[i];
            Apply(s, Control(i, Go)) == s.(wqs := s.wqs[i := w.(control :=
              if w.worker == WNone || w.worker == WDone then KGone else KStop)])
  {
    hide Reachable, Inv;
    ReachableInv(s);
    LifeAt(s, i);
  }

  /** The request to stop is made and stays. */
  lemma StopIsMade(s: System, i: nat)
    requires i < |s.wqs| && s.wqs[i].control == KStop
    ensures Enabled(s, Control(i, Go))
    ensures Apply(s, Control(i, Go)) == s.(wqs := s.wqs[i := s.wqs[i].(stop := true, control := KJoin)])
  {
  }

  /** dis_qp_exit is called, or has been. */
  predicate ToExit(control: ControlPc) {
    control.KFresh? || control.KLive? || control.KExitCheck? || Exiting(control) || control.KGone?
  }

  lemma DestroyStep(s: System, i: nat)
    requires i < |s.wqs| && (s.wqs[i].control == KFresh || s.wqs[i].control == KLive)
    ensures Enabled(s, Control(i, Destroy))
    ensures Apply(s, Control(i, Destroy)) == s.(wqs := s.wqs[i := s.wqs[i].(control := KExitCheck)])
  {
  }

  /**
   A queue can be destroyed in every reachable state, unless it is just being brought up: some schedule of at most 88
   steps brings dis_qp_exit to its end, whatever the state of the worker.
   */
  lemma CanDestroy(s: System, i: nat) returns (labels: seq<Label>, t: System)
    requires Reachable(s) && i < |s.wqs| && ToExit(s.wqs[i].control)
    ensures Reaches(s, labels, t) && i < |t.wqs| && t.wqs[i].control == KGone && |labels| <= 88
  {
    hide Reachable, Reaches, Enabled, Apply;
    if s.wqs[i].control == KFresh || s.wqs[i].control == KLive {
      DestroyStep(s, i);
      StepReachable(s, Control(i, Destroy));
      var rest;
      rest, t := CanFinishExit(Apply(s, Control(i, Destroy)), i);
      labels := [Control(i, Destroy)] + rest;
      ReachesOn(s, Control(i, Destroy), rest, t);
    } else {
      labels, t := CanFinishExit(s, i);
    }
  }

  lemma CanFinishExit(s: System, i: nat) returns (labels: seq<Label>, t: System)
    requires Reachable(s) && i < |s.wqs|
    requires var c := s.wqs[i].control; c.KExitCheck? || Exiting(c) || c.KGone?
    ensures Reaches(s, labels, t) && i < |t.wqs| && t.wqs[i].control == KGone && |labels| <= 87
  {
    if s.wqs[i].control == KGone {
      labels, t := [], s;
    } else if Exiting(s.wqs[i].control) {
      hide Reachable, Reaches;
      CanExit(s, i);
      labels, t :| Reaches(s, labels, t) && i < |t.wqs| && t.wqs[i].control == KGone && |labels| <= 86;
    } else {
      ExitStopsTheLiving(s, i);
      StepReachable(s, Control(i, Go));
      var s' := Apply(s, Control(i, Go));
      hide Reachable, Enabled, Apply;
      var rest: seq<Label>;
      if s'.wqs[i].control == KGone {
        rest, t := [], s';
      } else {
        CanExit(s', i);
        rest, t :| Reaches(s', rest, t) && i < |t.wqs| && t.wqs[i].control == KGone && |rest| <= 86;
      }
      labels := [Control(i, Go)] + rest;
      ReachesOn(s, Control(i, Go), rest, t);
    }
  }

  // ---------- the element in work ----------

  /**
   The map of an element is still there when its completion has been posted, and is gone when its slot is about to be
   given back.
   */
  lemma MapFreedBeforeRetiring(s: System, i: nat)
    requires Reachable(s) && i < |s.wqs|
    ensures var w := s.wqs[i];
            && Shape(w.ring)
            && (w.worker == WFree || (Busy(w.worker) && !Completed(w.worker)) ==>
                  w.retired < |w.posted| && w.ring.slots[w.ring.tail].dynamic == w.posted[w.retired].dynamic)
            && (w.worker == WRetire ==> !w.ring.slots[w.ring.tail].dynamic)
  {
    hide Reachable, Inv, DataOk;
    ReachableInv(s);
    DataAt(s, i);
    RingShape(s.wqs[i]);
    SlotInWork(s.wqs[i]);
  }

  lemma SlotInWork(w: Wq)
    requires DataOk(w)
    ensures BusyOk(w.kind, w.ring, w.posted, w.retired, w.worker, w.got, w.stop)
  {
    hide RingOk, PostedOk, PosterOk, FilledOk, BusyOk, DoneOk, SentOk, ShapeOk;
  }

  /** The k-th completion of a send queue is a success exactly if the k-th message was accepted by the transport. */
  lemma SuccessMeansSent(s: System, i: nat, k: nat)
    requires Reachable(s) && i < |s.wqs| && s.wqs[i].kind == SQ && k < |s.wqs[i].done|
    ensures s.wqs[i].done[k].cqe.status == Success <==> k < |s.wqs[i].sent|
  {
    hide Reachable, Inv, DataOk;
    ReachableInv(s);
    DataAt(s, i);
    ShapeAt(s.wqs[i]);
    SentAt(s.wqs[i]);
  }
}

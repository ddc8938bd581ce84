/**
 Progress: a worker whose transport succeeds drains its ring in a number of its own steps bounded by the
 ring's count, and a worker that has been told to stop returns in a constant number of steps, whatever the
 transport, the posters and the other workers do. In between it waits only for the lock, whose holder can
 always step.
 */
module PipelineProgress {
  import opened Circ
  import opened WorkElement
  import opened Pipeline
  import opened PipelineInv
  import opened PipelineSystem
  import opened PipelineTheorems
  import opened PipelineRuns

  function Backlog(w: Wq): int {
    |w.posted| - w.retired
  }

  /** Steps from one pass over the loop of dis_wq_consume_all to the next. */
  const PER_ELEMENT := 12

  /** The worker runs and neither gives up nor tears down. */
  predicate Serving(w: Wq) {
    && !w.stop
    && !w.worker.WNone? && !w.worker.WDone? && !w.worker.WTeardown? && !w.worker.WSetExited? && !w.worker.WAbandon?
  }

  /** A choice of the environment by which the worker succeeds: connected, all bytes moved, not killed. */
  predicate Succeeds(w: Wq, c: WorkerChoice) {
    match w.worker
    case WConnectTry => c.Connect? && c.ok
    case WXfer(_, left) => c.Transfer? && c.ok && (w.kind == RQ ==> c.bytes == left)
    case WWait => c.Step?
    case _ => true
  }

  function StageSteps(stage: Stage): nat {
    match stage
    case CLock => 2
    case CRead => 3
    case CTear => 4
    case CFill => 5
    case CPublish => 6
    case CUnlock => 7
  }

  /** How many more steps the worker takes at most until it waits with nothing announced. */
  function DrainSteps(w: Wq): int {
    var n := PER_ELEMENT * Backlog(w);
    var again := if w.flag == PostFlag then 5 else 0;
    match w.worker
    case WCreated => n + 7
    case WConnect => n + 6
    case WConnectTry => n + 5
    case WLoop => n + 4
    case WClear => n + 3
    case WDrain => n + 2 + again
    case WRead => n + 1 + again
    case WTry(_, _) => n + again
    case WXfer(_, _) => n - 1 + again
    case WPost(stage, _) => n - StageSteps(stage) + again
    case WFree => n - 8 + again
    case WRetire => n - 9 + again
    case WWait => if w.flag == PostFlag then n + 5 else 0
    case _ => 0
  }

  lemma LocalDrains(w: Wq, c: WorkerChoice)
    requires LocalEnabled(w, c) && Serving(w) && Succeeds(w, c)
    requires w.worker.WRead? ==> CircCnt(w.ring.head, w.ring.tail, w.ring.size) == Backlog(w) >= 0
    ensures Serving(LocalStep(w, c)) && DrainSteps(LocalStep(w, c)) + 1 <= DrainSteps(w)
  {
    hide CircCnt, Next, MsgOf;
  }

  lemma CqDrains(w: Wq, cq: Cq, c: WorkerChoice)
    requires CqEnabled(w, cq, c) && Serving(w)
    ensures Serving(CqStepWq(w, cq, c)) && DrainSteps(CqStepWq(w, cq, c)) + 1 <= DrainSteps(w)
  {
    hide CqFull, CurrentCqe, Next;
  }

  lemma BacklogRead(w: Wq)
    requires DataOk(w)
    ensures Shape(w.ring) && Backlog(w) >= 0 && (Busy(w.worker) ==> Backlog(w) >= 1)
    ensures w.worker.WRead? ==> CircCnt(w.ring.head, w.ring.tail, w.ring.size) == Backlog(w)
  {
    RingShape(w);
    hide DataOk, CircCnt;
    if w.worker.WRead? { OldestSlot(w); }
    hide IsSize;
  }

  lemma DrainRange(w: Wq)
    requires Backlog(w) >= 0 && (Busy(w.worker) ==> Backlog(w) >= 1)
    ensures 0 <= DrainSteps(w) <= PER_ELEMENT * Backlog(w) + 7
  {
    hide Backlog;
  }

  /** At the start the bound is twelve steps for each element in the ring, and seven. */
  lemma DrainStart(w: Wq)
    requires DataOk(w)
    ensures 0 <= DrainSteps(w) <= PER_ELEMENT * Backlog(w) + 7
  {
    hide DataOk, CircCnt, Shape, Backlog;
    BacklogRead(w);
    DrainRange(w);
  }

  /** Steps of the worker of queue `i` among the labels from `a` to `b`. */
  function WorkSteps(labels: seq<Label>, a: nat, b: nat, i: nat): nat
    requires a <= b <= |labels|
  {
    if a == b then 0
    else WorkSteps(labels, a, b - 1, i) + if labels[b - 1].Work? && labels[b - 1].i == i then 1 else 0
  }

  /** Nobody posts to queue `i`, nobody asks it to stop, and its worker's calls succeed. */
  ghost predicate QuietStep(s: System, l: Label, i: nat)
    requires i < |s.wqs|
  {
    match l
    case Post(j, _) => j != i
    case Control(j, _) => j != i
    case Work(j, c) => j == i ==> Succeeds(s.wqs[i], c)
    case Poll => true
  }

  lemma QuietDrains(s: System, l: Label, i: nat)
    requires Inv(s) && Enabled(s, l) && i < |s.wqs| && QuietStep(s, l, i) && Serving(s.wqs[i])
    ensures |Apply(s, l).wqs| == |s.wqs|
    ensures var w' := Apply(s, l).wqs[i];
            && Serving(w') && w'.poster == s.wqs[i].poster
            && DrainSteps(w') + (if l.Work? && l.i == i then 1 else 0) <= DrainSteps(s.wqs[i])
  {
    var w := s.wqs[i];
    DataAt(s, i);
    hide Inv, Apply, LocalStep, CqStepWq, LocalEnabled, CqEnabled, DataOk, Serving, Succeeds, DrainSteps;
    StepOn(s, l, i);
    BacklogRead(w);
    if l.Work? && l.i == i {
      if LocalEnabled(w, l.w) {
        LocalDrains(w, l.w);
        LocalFrame(w, l.w);
      } else {
        CqDrains(w, s.cq, l.w);
        CqPoster(w, s.cq, l.w);
      }
    }
  }

  lemma CqPoster(w: Wq, cq: Cq, c: WorkerChoice)
    requires CqEnabled(w, cq, c)
    ensures CqStepWq(w, cq, c).poster == w.poster && CqStepWq(w, cq, c).stop == w.stop
  {
    hide CqFull, CurrentCqe, Next;
  }

  /**
   In any stretch of a run in which nobody posts to the queue or stops it and its transport succeeds, however
   the other threads interleave, its worker takes at most 12 steps for each element that was in the ring, and
   7 more.
   */
  lemma {:induction false} DrainBound(states: seq<System>, labels: seq<Label>, a: nat, b: nat, i: nat)
    requires IsRun(states, labels) && a <= b < |states| && |states| == |labels| + 1
    requires i < |states[a].wqs| && Serving(states[a].wqs[i])
    requires forall k :: a <= k < b ==> i < |states[k].wqs| && QuietStep(states[k], labels[k], i)
    ensures i < |states[b].wqs| && Serving(states[b].wqs[i])
    ensures states[b].wqs[i].poster == states[a].wqs[i].poster
    ensures WorkSteps(labels, a, b, i) + DrainSteps(states[b].wqs[i]) <= DrainSteps(states[a].wqs[i])
    ensures WorkSteps(labels, a, b, i) <= PER_ELEMENT * Backlog(states[a].wqs[i]) + 7
    decreases b
  {
    hide IsRun, Inv, Apply, Enabled, Serving, DrainSteps, QuietStep;
    if a < b {
      DrainBound(states, labels, a, b - 1, i);
      RunInv(states, labels, b - 1);
      RunStep(states, labels, b - 1);
      QuietDrains(states[b - 1], labels[b - 1], i);
    }
    RunInv(states, labels, a);
    RunInv(states, labels, b);
    DrainAt(states[a], i);
    DrainAt(states[b], i);
  }

  lemma DrainAt(s: System, i: nat)
    requires Inv(s) && i < |s.wqs|
    ensures 0 <= DrainSteps(s.wqs[i]) <= PER_ELEMENT * Backlog(s.wqs[i]) + 7
  {
    DataAt(s, i);
    hide Inv, DrainSteps;
    DrainStart(s.wqs[i]);
  }

  // ---------- never stuck ----------

  /** A choice by which a worker can step, succeeding. */
  function GoodStep(w: Wq): WorkerChoice {
    match w.worker
    case WConnectTry => Connect(true)
    case WXfer(_, left) => Transfer(true, left)
    case WPost(stage, _) => if stage == CTear then Junk(Cqe(0, Send, 0, 0, Success)) else Step
    case _ => Step
  }

  lemma LocalCanStep(w: Wq)
    requires Shape(w.ring) && !w.worker.WNone? && !w.worker.WDone? && !w.worker.WPost?
    requires w.worker == WWait ==> w.flag == PostFlag || w.stop
    ensures LocalEnabled(w, GoodStep(w)) && Succeeds(w, GoodStep(w))
  {
  }

  lemma CqCanStep(w: Wq, cq: Cq)
    requires Shape(w.ring) && Shape(cq.ring) && w.worker.WPost? && (w.worker.stage == CLock ==> cq.lock == Free)
    ensures CqEnabled(w, cq, GoodStep(w)) && Succeeds(w, GoodStep(w))
  {
  }

  lemma CqShape(s: System)
    requires Inv(s)
    ensures Shape(s.cq.ring)
  {
    hide QueueOk, LockOk, DistinctQueues, SumDone, IsSize;
  }

  lemma HolderSteps(s: System, i: nat)
    requires Inv(s) && i < |s.wqs| && s.wqs[i].worker.WPost? && (InCritical(s.wqs[i].worker) || s.cq.lock == Free)
    ensures Enabled(s, Work(i, GoodStep(s.wqs[i]))) && Succeeds(s.wqs[i], GoodStep(s.wqs[i]))
  {
    hide Inv, DataOk, CqEnabled, LocalEnabled, GoodStep;
    var w := s.wqs[i];
    DataAt(s, i);
    RingShape(w);
    CqShape(s);
    CqCanStep(w, s.cq);
  }

  /** The worker can take a step and succeed, or it waits for the lock and the lock's holder can take a step. */
  ghost predicate CanMove(s: System, i: nat) {
    && i < |s.wqs|
    && var w := s.wqs[i];
       || (Enabled(s, Work(i, GoodStep(w))) && Succeeds(w, GoodStep(w)))
       || (w.worker.WPost? && w.worker.stage == CLock && s.cq.lock.Held? && s.cq.lock.holder < |s.wqs|
           && s.cq.lock.holder != i && Enabled(s, Work(s.cq.lock.holder, GoodStep(s.wqs[s.cq.lock.holder]))))
  }

  /**
   A worker that is neither finished nor waiting can take a step, or it waits for the lock and the worker
   that holds it can take a step.
   */
  lemma NeverStuck(s: System, i: nat)
    requires Reachable(s) && i < |s.wqs| && !s.wqs[i].worker.WNone? && !s.wqs[i].worker.WDone?
    requires s.wqs[i].worker == WWait ==> s.wqs[i].flag == PostFlag || s.wqs[i].stop
    ensures CanMove(s, i)
  {
    hide Reachable, Inv, DataOk, LocalEnabled, CqEnabled, Succeeds, GoodStep;
    ReachableInv(s);
    var w := s.wqs[i];
    if w.worker.WPost? {
      LockAt(s, i);
      if InCritical(w.worker) || s.cq.lock == Free {
        HolderSteps(s, i);
      } else {
        var j := HolderInside(s);
        HolderSteps(s, j);
      }
    } else {
      DataAt(s, i);
      RingShape(w);
      LocalCanStep(w);
    }
  }

  lemma HolderInside(s: System) returns (j: nat)
    requires Inv(s) && s.cq.lock.Held?
    ensures j == s.cq.lock.holder < |s.wqs| && InCritical(s.wqs[j].worker)
  {
    j := s.cq.lock.holder;
    hide QueueOk, CqRingOk, DistinctQueues, SumDone;
  }

  /** A serving worker that waits with no announcement and no poster under way has an empty ring. */
  lemma WaitingMeansDrained(s: System, i: nat)
    requires Reachable(s) && i < |s.wqs| && s.wqs[i].worker == WWait
    requires s.wqs[i].flag == EmptyFlag && s.wqs[i].poster == PIdle
    ensures Shape(s.wqs[i].ring) && CircCnt(s.wqs[i].ring.head, s.wqs[i].ring.tail, s.wqs[i].ring.size) == 0
  {
    NoLostWakeup(s, i);
    hide Reachable, CircCnt;
  }

  /** A serving worker with no steps left waits, and nothing is announced to it. */
  lemma NoStepsLeft(w: Wq)
    requires DataOk(w) && Serving(w) && DrainSteps(w) <= 0
    ensures w.worker == WWait && w.flag == EmptyFlag
  {
    hide DataOk, CircCnt, Shape, Backlog;
    BacklogRead(w);
  }

  lemma PrefixReachable(states: seq<System>, labels: seq<Label>, k: nat)
    requires IsRun(states, labels) && k < |states|
    ensures Reachable(states[k])
  {
    var front, steps := states[..k + 1], labels[..k];
    assert IsRun(front, steps) by {
      hide Init, Enabled, Apply;
    }
    assert front[|front| - 1] == states[k];
    hide IsRun;
  }

  /** The ring of queue `i` is empty, as its worker would find it. */
  ghost predicate RingEmpty(s: System, i: nat) {
    && i < |s.wqs| && Shape(s.wqs[i].ring)
    && CircCnt(s.wqs[i].ring.head, s.wqs[i].ring.tail, s.wqs[i].ring.size) == 0
  }

  /**
   The ring drains. In any stretch of a run in which nobody posts to the queue or stops it and its transport
   succeeds, however the other threads interleave: once its worker has taken 12 steps for each element that was
   in the ring, and 7 more, the ring is empty; and until the ring is empty, the worker can take a further step,
   or the holder of the lock it waits for can.
   */
  lemma RingDrains(states: seq<System>, labels: seq<Label>, a: nat, b: nat, i: nat)
    requires IsRun(states, labels) && a <= b < |states| && |states| == |labels| + 1
    requires i < |states[a].wqs| && Serving(states[a].wqs[i]) && states[a].wqs[i].poster == PIdle
    requires forall k :: a <= k < b ==> i < |states[k].wqs| && QuietStep(states[k], labels[k], i)
    ensures WorkSteps(labels, a, b, i) >= PER_ELEMENT * Backlog(states[a].wqs[i]) + 7 ==> RingEmpty(states[b], i)
    ensures RingEmpty(states[b], i) || CanMove(states[b], i)
  {
    hide IsRun, Inv, Apply, Enabled, DrainSteps, QuietStep, Reachable, DataOk, CircCnt, CanMove, Shape;
    DrainBound(states, labels, a, b, i);
    PrefixReachable(states, labels, b);
    RunInv(states, labels, a);
    RunInv(states, labels, b);
    DrainAt(states[a], i);
    var s, w := states[b], states[b].wqs[i];
    DataAt(s, i);
    if DrainSteps(w) <= 0 { NoStepsLeft(w); }
    if w.worker == WWait && w.flag == EmptyFlag {
      WaitingMeansDrained(s, i);
    } else {
      NeverStuck(s, i);
    }
  }

  // ---------- a schedule that drains ----------

  /** From `s` the steps `labels` lead to `t`, and no step disturbs queue `i`. */
  ghost predicate Leads(s: System, labels: seq<Label>, t: System, i: nat)
    decreases |labels|
  {
    if labels == [] then s == t
    else
      && i < |s.wqs| && Enabled(s, labels[0]) && QuietStep(s, labels[0], i)
      && Leads(Apply(s, labels[0]), labels[1..], t, i)
  }

  /** How many more steps the holder of the lock takes until it releases it. */
  function HoldSteps(s: System): nat {
    if s.cq.lock.Held? && s.cq.lock.holder < |s.wqs| && s.wqs[s.cq.lock.holder].worker.WPost?
    then 8 - StageSteps(s.wqs[s.cq.lock.holder].worker.stage) else 0
  }

  lemma StepReachable(s: System, l: Label)
    requires Reachable(s) && Enabled(s, l)
    ensures Reachable(Apply(s, l))
  {
    hide Init, Enabled, Apply;
    var states, labels :| IsRun(states, labels) && states[|states| - 1] == s;
    var states', labels' := states + [Apply(s, l)], labels + [l];
    assert IsRun(states', labels');
    assert states'[|states'| - 1] == Apply(s, l);
  }

  lemma StageAdvances(j: nat, w: Wq, cq: Cq, c: WorkerChoice)
    requires CqEnabled(w, cq, c) && InCritical(w.worker)
    ensures var w', cq' := CqStepWq(w, cq, c), CqStepCq(j, w, cq, c);
            || cq'.lock == Free
            || (cq'.lock == cq.lock && w'.worker.WPost?
                && StageSteps(w.worker.stage) < StageSteps(w'.worker.stage) <= 7)
    ensures StageSteps(w.worker.stage) <= 7
  {
    hide CqFull, CurrentCqe, Next;
  }

  lemma ApplyCq(s: System, j: nat, c: WorkerChoice)
    requires Enabled(s, Work(j, c)) && InCritical(s.wqs[j].worker)
    ensures CqEnabled(s.wqs[j], s.cq, c)
    ensures Apply(s, Work(j, c)) == System(s.wqs[j := CqStepWq(s.wqs[j], s.cq, c)], CqStepCq(j, s.wqs[j], s.cq, c))
  {
    hide CqEnabled, CqStepWq, CqStepCq, LocalStep;
  }

  /** The holder of the lock comes one step closer to releasing it. */
  lemma HolderAdvances(s: System, j: nat, c: WorkerChoice)
    requires Inv(s) && s.cq.lock == Held(j) && Enabled(s, Work(j, c))
    ensures HoldSteps(Apply(s, Work(j, c))) + 1 <= HoldSteps(s)
  {
    hide Inv, Apply, Enabled, CqEnabled, CqStepWq, CqStepCq, StageSteps, Shape;
    var h := HolderInside(s);
    ApplyCq(s, j, c);
    StageAdvances(j, s.wqs[j], s.cq, c);
  }

  lemma HoldStepsBound(s: System)
    requires Inv(s)
    ensures HoldSteps(s) <= 5
  {
    hide Inv;
    if s.cq.lock.Held? { var h := HolderInside(s); }
  }

  /** The next step of a schedule that brings a worker on: its own, or the lock holder's. */
  lemma NextStep(s: System, i: nat) returns (l: Label)
    requires Reachable(s) && i < |s.wqs| && !s.wqs[i].worker.WNone? && !s.wqs[i].worker.WDone?
    requires s.wqs[i].worker == WWait ==> s.wqs[i].flag == PostFlag || s.wqs[i].stop
    ensures l.Work? && Enabled(s, l) && QuietStep(s, l, i)
    ensures l.i == i || HoldSteps(Apply(s, l)) + 1 <= HoldSteps(s)
  {
    hide Reachable, Inv, Enabled, Apply, Succeeds, GoodStep, HoldSteps, Shape;
    var w := s.wqs[i];
    NeverStuck(s, i);
    ReachableInv(s);
    if Enabled(s, Work(i, GoodStep(w))) && Succeeds(w, GoodStep(w)) {
      l := Work(i, GoodStep(w));
    } else {
      var j := s.cq.lock.holder;
      l := Work(j, GoodStep(s.wqs[j]));
      HolderAdvances(s, j, GoodStep(s.wqs[j]));
    }
  }

  /** Steps left in all: the worker's own, before each of which the lock may have to be released by its holder. */
  function StepsLeft(s: System, i: nat): int
    requires i < |s.wqs|
  {
    6 * DrainSteps(s.wqs[i]) + HoldSteps(s)
  }

  lemma StepsLeftBound(s: System, i: nat)
    requires Reachable(s) && i < |s.wqs|
    ensures 0 <= StepsLeft(s, i) <= 6 * PER_ELEMENT * Backlog(s.wqs[i]) + 47
  {
    hide Reachable, Inv, DrainSteps, HoldSteps, Backlog;
    ReachableInv(s);
    DrainAt(s, i);
    HoldStepsBound(s);
  }

  lemma StepTaken(s: System, l: Label, i: nat)
    requires Reachable(s) && i < |s.wqs| && Serving(s.wqs[i]) && Enabled(s, l) && QuietStep(s, l, i)
    requires (l.Work? && l.i == i) || HoldSteps(Apply(s, l)) + 1 <= HoldSteps(s)
    ensures Reachable(Apply(s, l)) && i < |Apply(s, l).wqs| && Serving(Apply(s, l).wqs[i])
    ensures Apply(s, l).wqs[i].poster == s.wqs[i].poster
    ensures StepsLeft(Apply(s, l), i) + 1 <= StepsLeft(s, i)
  {
    hide Reachable, Inv, Enabled, Apply, Serving, QuietStep, DrainSteps, HoldSteps;
    ReachableInv(s);
    QuietDrains(s, l, i);
    StepReachable(s, l);
    ReachableInv(Apply(s, l));
    HoldStepsBound(Apply(s, l));
  }

  lemma LeadsNowhere(s: System, i: nat)
    requires Reachable(s) && i < |s.wqs| && s.wqs[i].worker == WWait
    requires s.wqs[i].flag == EmptyFlag && s.wqs[i].poster == PIdle
    ensures Leads(s, [], s, i) && RingEmpty(s, i)
  {
    hide Reachable, CircCnt;
    WaitingMeansDrained(s, i);
  }

  lemma LeadsOn(s: System, l: Label, rest: seq<Label>, t: System, i: nat)
    requires i < |s.wqs| && Enabled(s, l) && QuietStep(s, l, i) && Leads(Apply(s, l), rest, t, i)
    ensures Leads(s, [l] + rest, t, i)
  {
    hide Enabled, Apply, QuietStep;
    assert ([l] + rest)[1..] == rest;
  }

  lemma {:induction false} Schedule(s: System, i: nat) returns (labels: seq<Label>, t: System)
    requires Reachable(s) && i < |s.wqs| && Serving(s.wqs[i]) && s.wqs[i].poster == PIdle
    ensures Leads(s, labels, t, i) && RingEmpty(t, i)
    ensures |labels| <= StepsLeft(s, i)
    decreases StepsLeft(s, i)
  {
    assert !s.wqs[i].worker.WNone? && !s.wqs[i].worker.WDone?;
    hide Reachable, Enabled, Apply, Serving, QuietStep, Leads, RingEmpty, StepsLeft, HoldSteps;
    StepsLeftBound(s, i);
    if s.wqs[i].worker == WWait && s.wqs[i].flag == EmptyFlag {
      labels, t := [], s;
      LeadsNowhere(s, i);
    } else {
      var l := NextStep(s, i);
      StepTaken(s, l, i);
      var s' := Apply(s, l);
      StepsLeftBound(s', i);
      var rest;
      rest, t := Schedule(s', i);
      labels := [l] + rest;
      LeadsOn(s, l, rest, t, i);
    }
  }

  /**
   Nothing can keep the ring from draining: from every reachable state in which the worker serves and no poster
   is under way, some schedule of at most 72 steps for each element in the ring, and 47 more, empties it. The
   steps of other workers that hold the lock are included; none disturbs the queue.
   */
  lemma CanDrain(s: System, i: nat)
    requires Reachable(s) && i < |s.wqs| && Serving(s.wqs[i]) && s.wqs[i].poster == PIdle
    ensures exists labels, t ::
              && Leads(s, labels, t, i) && RingEmpty(t, i)
              && |labels| <= 6 * PER_ELEMENT * Backlog(s.wqs[i]) + 47
  {
    hide Reachable, Serving, Leads, RingEmpty, StepsLeft, Backlog;
    var labels, t := Schedule(s, i);
    StepsLeftBound(s, i);
  }

  // ---------- stopping ----------

  /** How many more steps a worker takes at most once it has been told to stop. */
  function StopSteps(pc: WorkerPc): nat {
    match pc
    case WNone => 0
    case WDone => 0
    case WSetExited => 1
    case WAbandon => 1
    case WTeardown => 2
    case WConnect => 2
    case WCreated => 3
    case WLoop => 3
    case WDrain => 3
    case WConnectTry => 4
    case WClear => 4
    case WWait => 4
    case WRetire => 4
    case WFree => 5
    case WPost(stage, _) => 13 - StageSteps(stage)
    case WTry(_, _) => 12
    case WXfer(_, _) => 13
    case WRead => 13
  }

  lemma LocalStops(w: Wq, c: WorkerChoice)
    requires LocalEnabled(w, c) && w.stop
    ensures LocalStep(w, c).stop && StopSteps(LocalStep(w, c).worker) + 1 <= StopSteps(w.worker)
  {
    hide CircCnt, Next, MsgOf, TransferStep;
    if w.worker.WXfer? { TransferPc(w, c); }
  }

  lemma CqStops(w: Wq, cq: Cq, c: WorkerChoice)
    requires CqEnabled(w, cq, c) && w.stop
    ensures CqStepWq(w, cq, c).stop && StopSteps(CqStepWq(w, cq, c).worker) + 1 <= StopSteps(w.worker)
  {
    hide CqFull, CurrentCqe, Next;
  }

  lemma ControlAfterStop(w: Wq, c: ControlChoice)
    requires ControlEnabled(w, c) && LifeOk(w.state, w.stop, w.worker, w.control) && w.stop
    ensures ControlStep(w, c).stop && ControlStep(w, c).worker == w.worker
  {
  }

  lemma StepStops(s: System, l: Label, i: nat)
    requires Inv(s) && Enabled(s, l) && i < |s.wqs| && s.wqs[i].stop
    ensures |Apply(s, l).wqs| == |s.wqs|
    ensures var w' := Apply(s, l).wqs[i];
            w'.stop && StopSteps(w'.worker) + (if l.Work? && l.i == i then 1 else 0) <= StopSteps(s.wqs[i].worker)
  {
    var w := s.wqs[i];
    LifeAt(s, i);
    hide Inv, Apply, LocalStep, CqStepWq, LocalEnabled, CqEnabled, PosterStep, PosterEnabled;
    hide ControlStep, ControlEnabled, StopSteps, LifeOk;
    StepOn(s, l, i);
    match l
    case Post(j, c) => if i == j { PosterFrame(w, c); }
    case Control(j, c) => if i == j { ControlAfterStop(w, c); }
    case Work(j, c) =>
      if i == j { if LocalEnabled(w, c) { LocalStops(w, c); } else { CqStops(w, s.cq, c); } }
    case Poll =>
  }

  /**
   Stopping is prompt: after kthread_stop has set the request, the worker takes at most 13 more steps in any
   continuation of the run. The transport may keep failing, posters may keep posting, other workers may do
   as they please.
   */
  lemma {:induction false} StopBound(states: seq<System>, labels: seq<Label>, a: nat, b: nat, i: nat)
    requires IsRun(states, labels) && a <= b < |states| && |states| == |labels| + 1
    requires i < |states[a].wqs| && states[a].wqs[i].stop
    ensures i < |states[b].wqs| && states[b].wqs[i].stop
    ensures WorkSteps(labels, a, b, i) + StopSteps(states[b].wqs[i].worker) <= StopSteps(states[a].wqs[i].worker) <= 13
    decreases b
  {
    hide IsRun, Inv, Apply, Enabled;
    if a < b {
      StopBound(states, labels, a, b - 1, i);
      RunInv(states, labels, b - 1);
      RunStep(states, labels, b - 1);
      hide StopSteps;
      StepStops(states[b - 1], labels[b - 1], i);
    }
  }

  /**
   A stopped worker returns: once it has taken 13 steps after the stop request, in any continuation of the run, it
   has returned or never existed; and until then it can take a further step, or the holder of the lock it waits for
   can.
   */
  lemma StoppedReturns(states: seq<System>, labels: seq<Label>, a: nat, b: nat, i: nat)
    requires IsRun(states, labels) && a <= b < |states| && |states| == |labels| + 1
    requires i < |states[a].wqs| && states[a].wqs[i].stop
    ensures i < |states[b].wqs|
    ensures WorkSteps(labels, a, b, i) >= 13 ==> states[b].wqs[i].worker.WDone? || states[b].wqs[i].worker.WNone?
    ensures states[b].wqs[i].worker.WDone? || states[b].wqs[i].worker.WNone? || CanMove(states[b], i)
  {
    hide IsRun, CanMove, Reachable;
    StopBound(states, labels, a, b, i);
    PrefixReachable(states, labels, b);
    if !states[b].wqs[i].worker.WDone? && !states[b].wqs[i].worker.WNone? { NeverStuck(states[b], i); }
  }

  // ---------- a schedule by which dis_qp_exit returns ----------

  /** From `s` the steps `labels` lead to `t`. */
  ghost predicate Reaches(s: System, labels: seq<Label>, t: System)
    decreases |labels|
  {
    if labels == [] then s == t
    else Enabled(s, labels[0]) && Reaches(Apply(s, labels[0]), labels[1..], t)
  }

  lemma ReachesOn(s: System, l: Label, rest: seq<Label>, t: System)
    requires Enabled(s, l) && Reaches(Apply(s, l), rest, t)
    ensures Reaches(s, [l] + rest, t)
  {
    hide Enabled, Apply;
    assert ([l] + rest)[1..] == rest;
  }

  /** dis_qp_exit has found the worker alive and has yet to return. */
  predicate Exiting(control: ControlPc) {
    control.KStop? || control.KJoin? || control.KPoll?
  }

  function ControlSteps(control: ControlPc): nat {
    match control
    case KStop => 3
    case KJoin => 2
    case KPoll => 1
    case _ => 0
  }

  function ExitSteps(s: System, i: nat): nat
    requires i < |s.wqs|
  {
    6 * StopSteps(s.wqs[i].worker) + HoldSteps(s) + ControlSteps(s.wqs[i].control)
  }

  lemma StopStepsBound(pc: WorkerPc)
    ensures StopSteps(pc) <= 13
    ensures StopSteps(pc) == 0 <==> pc.WNone? || pc.WDone?
  {
  }

  lemma ExitingLife(s: System, i: nat)
    requires Inv(s) && i < |s.wqs| && Exiting(s.wqs[i].control)
    ensures var w := s.wqs[i];
            && (!w.control.KStop? ==> w.stop)
            && !w.worker.WNone?
            && (w.control.KPoll? ==> w.worker.WDone?)
            && (w.worker.WDone? ==> w.state == Exited)
  {
    hide Inv;
    LifeAt(s, i);
  }

  /** The control thread goes on; no worker notices but by the request. */
  lemma ControlGoes(s: System, i: nat)
    requires i < |s.wqs| && Exiting(s.wqs[i].control)
    requires s.wqs[i].control.KJoin? ==> s.wqs[i].worker.WDone?
    requires s.wqs[i].control.KPoll? ==> s.wqs[i].state == Exited
    ensures Enabled(s, Control(i, Go))
    ensures var s' := Apply(s, Control(i, Go));
            && i < |s'.wqs|
            && (Exiting(s'.wqs[i].control) || s'.wqs[i].control == KGone)
            && ExitSteps(s', i) + 1 <= ExitSteps(s, i)
  {
    hide StopSteps, StageSteps;
  }

  lemma WorkKeepsControl(s: System, j: nat, c: WorkerChoice, i: nat)
    requires Enabled(s, Work(j, c)) && i < |s.wqs|
    ensures i < |Apply(s, Work(j, c)).wqs| && Apply(s, Work(j, c)).wqs[i].control == s.wqs[i].control
  {
    var w := s.wqs[j];
    hide Apply, LocalStep, LocalEnabled, CqEnabled, CqStepWq;
    StepOn(s, Work(j, c), i);
    if i == j {
      if LocalEnabled(w, c) { LocalFrame(w, c); } else { CqControl(w, s.cq, c); }
    }
  }

  lemma CqControl(w: Wq, cq: Cq, c: WorkerChoice)
    requires CqEnabled(w, cq, c)
    ensures CqStepWq(w, cq, c).control == w.control
  {
    hide CqFull, CurrentCqe, Next;
  }

  /** The next step of a schedule by which dis_qp_exit returns. */
  lemma ExitStep(s: System, i: nat) returns (l: Label)
    requires Reachable(s) && i < |s.wqs| && Exiting(s.wqs[i].control)
    ensures Enabled(s, l) && i < |Apply(s, l).wqs|
    ensures var c := Apply(s, l).wqs[i].control; Exiting(c) || c == KGone
    ensures ExitSteps(Apply(s, l), i) + 1 <= ExitSteps(s, i)
  {
    hide Reachable, Inv, Enabled, Apply, HoldSteps, StopSteps, QuietStep;
    ReachableInv(s);
    ExitingLife(s, i);
    var w := s.wqs[i];
    if w.control.KStop? || w.worker.WDone? {
      l := Control(i, Go);
      ControlGoes(s, i);
    } else {
      l := NextStep(s, i);
      StepStops(s, l, i);
      WorkKeepsControl(s, l.i, l.w, i);
      StepReachable(s, l);
      ReachableInv(Apply(s, l));
      HoldStepsBound(Apply(s, l));
    }
  }

  lemma {:induction false} ExitSchedule(s: System, i: nat) returns (labels: seq<Label>, t: System)
    requires Reachable(s) && i < |s.wqs| && (Exiting(s.wqs[i].control) || s.wqs[i].control == KGone)
    ensures Reaches(s, labels, t) && i < |t.wqs| && t.wqs[i].control == KGone
    ensures |labels| <= ExitSteps(s, i)
    decreases ExitSteps(s, i)
  {
    if s.wqs[i].control == KGone {
      labels, t := [], s;
    } else {
      hide Reachable, Enabled, Apply, ExitSteps;
      var l := ExitStep(s, i);
      StepReachable(s, l);
      var rest;
      rest, t := ExitSchedule(Apply(s, l), i);
      labels := [l] + rest;
      assert labels[1..] == rest;
    }
  }

  /**
   dis_qp_exit can always return: from every reachable state in which it is about to stop the worker, or waits for
   it, some schedule of at most 86 steps brings it to its end, whatever the worker was doing and whoever held the
   lock.
   */
  lemma CanExit(s: System, i: nat)
    requires Reachable(s) && i < |s.wqs| && Exiting(s.wqs[i].control)
    ensures exists labels, t ::
              Reaches(s, labels, t) && i < |t.wqs| && t.wqs[i].control == KGone && |labels| <= 86
  {
    hide Reachable, Inv, StopSteps, HoldSteps, Reaches;
    var labels, t := ExitSchedule(s, i);
    ReachableInv(s);
    HoldStepsBound(s);
    StopStepsBound(s.wqs[i].worker);
  }
}

/**
 What the machine can do for its users: from every reachable state a queue can be brought up, a request that fits can
 be posted, everything posted can be completed, and everything completed can be polled. Each theorem names the
 schedule and the state it ends in.
 */
module PipelineService {
  import opened Circ
  import opened Gather
  import opened WorkElement
  import opened Pipeline
  import opened PipelineInv
  import opened PipelineSystem
  import opened PipelineTheorems
  import opened PipelineRuns
  import opened PipelineProgress

  // ---------- schedules ----------

  lemma {:induction false} ReachesThen(s: System, a: seq<Label>, t: System, b: seq<Label>, u: System)
    requires Reaches(s, a, t) && Reaches(t, b, u)
    ensures Reaches(s, a + b, u)
    decreases |a|
  {
    hide Enabled, Apply;
    if a == [] {
      assert a + b == b;
    } else {
      ReachesThen(Apply(s, a[0]), a[1..], t, b, u);
      assert (a + b)[1..] == a[1..] + b;
    }
  }

  lemma {:induction false} ReachesReachable(s: System, labels: seq<Label>, t: System)
    requires Reachable(s) && Reaches(s, labels, t)
    ensures Reachable(t)
    decreases |labels|
  {
    hide Reachable, Enabled, Apply;
    if labels != [] {
      StepReachable(s, labels[0]);
      ReachesReachable(Apply(s, labels[0]), labels[1..], t);
    }
  }

  ghost function WithQueue(s: System, i: nat, w: Wq): System
    requires i < |s.wqs|
  {
    s.(wqs := s.wqs[i := w])
  }

  lemma WithQueueTwice(s: System, i: nat, w: Wq, w': Wq)
    requires i < |s.wqs|
    ensures i < |WithQueue(s, i, w).wqs| && WithQueue(s, i, w).wqs[i] == w
    ensures WithQueue(WithQueue(s, i, w), i, w') == WithQueue(s, i, w')
  {
    assert s.wqs[i := w][i := w'] == s.wqs[i := w'];
  }

  // ---------- bringing a queue up ----------

  /** A schedule of the control thread of queue `i`. */
  function ControlLabels(i: nat, cs: seq<ControlChoice>): seq<Label> {
    seq(|cs|, k requires 0 <= k < |cs| => Control(i, cs[k]))
  }

  lemma ControlReaches(s: System, i: nat, w: Wq, c: ControlChoice, w': Wq, rest: seq<ControlChoice>, t: System)
    requires i < |s.wqs| && ControlEnabled(w, c) && ControlStep(w, c) == w'
    requires Reaches(WithQueue(s, i, w'), ControlLabels(i, rest), t)
    ensures Reaches(WithQueue(s, i, w), ControlLabels(i, [c] + rest), t)
  {
    hide ControlEnabled, ControlStep;
    WithQueueTwice(s, i, w, w');
    assert ControlLabels(i, [c] + rest) == [Control(i, c)] + ControlLabels(i, rest);
    ReachesOn(WithQueue(s, i, w), Control(i, c), ControlLabels(i, rest), t);
  }

  /** A queue whose worker has been created. */
  function Started(w: Wq): Wq {
    w.(state := Initialized, flag := EmptyFlag, worker := WCreated, control := KLive)
  }

  /** The four steps of dis_qp_init on a queue that has not exited, with the outcome of the thread's creation. */
  lemma StartReaches(s: System, i: nat, ok: bool)
    requires i < |s.wqs| && s.wqs[i].control == KFresh && s.wqs[i].state != Exited
    ensures Reaches(s, ControlLabels(i, [Rtr, Go, Go, Create(ok)]), WithQueue(s, i,
              if ok then Started(s.wqs[i]) else s.wqs[i].(flag := EmptyFlag, state := Uninitialized)))
  {
    var w := s.wqs[i];
    var w1 := w.(control := KSetInit);
    var w2 := w1.(state := Initialized, control := KSetFlag);
    var w3 := w2.(flag := EmptyFlag, control := KCreate);
    var w4 := if ok then Started(w) else w.(flag := EmptyFlag, state := Uninitialized);
    assert ControlStep(w, Rtr) == w1 && ControlStep(w1, Go) == w2 && ControlStep(w2, Go) == w3;
    assert ControlStep(w3, Create(ok)) == w4;
    var t := WithQueue(s, i, w4);
    assert ControlLabels(i, []) == [];
    hide ControlEnabled, ControlStep, WithQueue, Reaches, ControlLabels;
    assert [Create(ok)] + [] == [Create(ok)] && [Go] + [Create(ok)] == [Go, Create(ok)];
    assert [Go] + [Go, Create(ok)] == [Go, Go, Create(ok)];
    assert [Rtr] + [Go, Go, Create(ok)] == [Rtr, Go, Go, Create(ok)];
    ControlReaches(s, i, w3, Create(ok), w4, [], t);
    ControlReaches(s, i, w2, Go, w3, [Create(ok)], t);
    ControlReaches(s, i, w1, Go, w2, [Go, Create(ok)], t);
    ControlReaches(s, i, w, Rtr, w1, [Go, Go, Create(ok)], t);
    SameQueue(s, i);
  }

  lemma SameQueue(s: System, i: nat)
    requires i < |s.wqs|
    ensures WithQueue(s, i, s.wqs[i]) == s
  {
    assert s.wqs[i := s.wqs[i]] == s.wqs;
  }

  /**
   A queue can be brought up: in every reachable state in which its queue pair has not been to RTR, four steps of the
   control thread initialize it and create its worker, which then serves, and nothing else changes. If the thread is
   not created, the queue is as it was, but for the flag, and can be taken to RTR again.
   */
  lemma CanStart(s: System, i: nat)
    requires Reachable(s) && i < |s.wqs| && s.wqs[i].control == KFresh
    ensures var t := WithQueue(s, i, Started(s.wqs[i]));
            Reaches(s, ControlLabels(i, [Rtr, Go, Go, Create(true)]), t) && Serving(t.wqs[i])
    ensures Reaches(s, ControlLabels(i, [Rtr, Go, Go, Create(false)]), WithQueue(s, i, s.wqs[i].(flag := EmptyFlag)))
  {
    hide Reachable, Inv, Reaches;
    ReachableInv(s);
    LifeAt(s, i);
    StartReaches(s, i, true);
    StartReaches(s, i, false);
    assert s.wqs[i].(flag := EmptyFlag, state := Uninitialized) == s.wqs[i].(flag := EmptyFlag);
  }

  // ---------- serving what was posted ----------

  /** Every request posted to queue `i` has its completion, and all succeeded; what was to be sent was sent. */
  ghost predicate AllServed(s: System, i: nat) {
    && i < |s.wqs|
    && var w := s.wqs[i];
       && w.retired == |w.done| == |w.posted|
       && (forall k :: 0 <= k < |w.done| ==> w.done[k].cqe.status == Success)
       && (w.kind == SQ ==> |w.sent| == |w.posted|)
  }

  /** Two states of one queue with the same requests posted. */
  ghost predicate SamePosted(w: Wq, w': Wq) {
    && w'.posted == w.posted && w'.origin == w.origin
    && w'.qp == w.qp && w'.kind == w.kind && w'.pageSize == w.pageSize
  }

  lemma QuietKeepsPosted(s: System, l: Label, i: nat)
    requires Inv(s) && Enabled(s, l) && i < |s.wqs| && QuietStep(s, l, i)
    ensures |Apply(s, l).wqs| == |s.wqs| && SamePosted(s.wqs[i], Apply(s, l).wqs[i])
  {
    var w := s.wqs[i];
    hide Inv, Apply, LocalStep, CqStepWq, LocalEnabled, CqEnabled, Succeeds;
    StepOn(s, l, i);
    if l.Work? && l.i == i {
      if LocalEnabled(w, l.w) { LocalFrame(w, l.w); } else { CqPosted(w, s.cq, l.w); }
    }
  }

  lemma CqPosted(w: Wq, cq: Cq, c: WorkerChoice)
    requires CqEnabled(w, cq, c)
    ensures SamePosted(w, CqStepWq(w, cq, c))
  {
    hide CqFull, CurrentCqe, Next;
  }

  /** A schedule that leaves the queue alone is a schedule; it posts nothing and does not stop the worker. */
  lemma {:induction false} LeadsReaches(s: System, labels: seq<Label>, t: System, i: nat)
    requires Reachable(s) && Leads(s, labels, t, i) && i < |s.wqs| && Serving(s.wqs[i])
    ensures Reaches(s, labels, t) && i < |t.wqs| && SamePosted(s.wqs[i], t.wqs[i]) && Serving(t.wqs[i])
    decreases |labels|
  {
    hide Reachable, Inv, Enabled, Apply, QuietStep, Serving;
    if labels != [] {
      ReachableInv(s);
      QuietKeepsPosted(s, labels[0], i);
      QuietDrains(s, labels[0], i);
      StepReachable(s, labels[0]);
      LeadsReaches(Apply(s, labels[0]), labels[1..], t, i);
    }
  }

  /** An empty ring means that everything posted is completed. */
  lemma EmptyMeansServed(s: System, i: nat)
    requires Reachable(s) && RingEmpty(s, i) && Serving(s.wqs[i])
    ensures AllServed(s, i)
  {
    hide Reachable, Inv, DataOk, CircCnt, Shape;
    ReachableInv(s);
    DataAt(s, i);
    var w := s.wqs[i];
    NothingLeft(w);
    forall k | 0 <= k < |w.done|
      ensures w.done[k].cqe.status == Success
    {
      CompletionShape(s, i, k);
    }
    SentWithDone(w);
  }

  lemma NothingLeft(w: Wq)
    requires DataOk(w) && Shape(w.ring) && CircCnt(w.ring.head, w.ring.tail, w.ring.size) == 0
    ensures w.retired == |w.done| == |w.posted| && !Busy(w.worker)
  {
    hide DataOk, CircCnt, IsSize;
    DoneCount(w);
    RingShape(w);
    RingCounts(w.ring, w.posted, w.retired, if Busy(w.worker) then w.retired + 1 else w.retired);
  }

  lemma SentWithDone(w: Wq)
    requires DataOk(w) && !Busy(w.worker) && forall k :: 0 <= k < |w.done| ==> w.done[k].cqe.status == Success
    ensures w.kind == SQ ==> |w.sent| == |w.done|
  {
    hide RingOk, PostedOk, PosterOk, FilledOk, BusyOk, DoneOk, ShapeOk, MsgOf;
  }

  /**
   From a serving worker: some schedule of at most 72 steps for each element in the ring, and 47 more, leads to a state
   in which everything posted is completed with success.
   */
  lemma CanServeAll(s: System, i: nat) returns (labels: seq<Label>, t: System)
    requires Reachable(s) && i < |s.wqs| && Serving(s.wqs[i]) && s.wqs[i].poster == PIdle
    ensures Reaches(s, labels, t) && AllServed(t, i) && SamePosted(s.wqs[i], t.wqs[i])
    ensures |labels| <= 6 * PER_ELEMENT * Backlog(s.wqs[i]) + 47
  {
    hide Reachable, Serving, Leads, RingEmpty, Reaches, AllServed, Backlog;
    CanDrain(s, i);
    labels, t :| Leads(s, labels, t, i) && RingEmpty(t, i) && |labels| <= 6 * PER_ELEMENT * Backlog(s.wqs[i]) + 47;
    LeadsReaches(s, labels, t, i);
    ReachesReachable(s, labels, t);
    EmptyMeansServed(t, i);
  }

  /**
   From a queue that was never brought up: some schedule takes it to RTR and completes everything that was posted to
   it before, whose notifications were all refused.
   */
  lemma StartServesAll(s: System, i: nat) returns (labels: seq<Label>, t: System)
    requires Reachable(s) && i < |s.wqs| && s.wqs[i].control == KFresh && s.wqs[i].poster == PIdle
    ensures Reaches(s, labels, t) && AllServed(t, i) && SamePosted(s.wqs[i], t.wqs[i])
    ensures |labels| <= 6 * PER_ELEMENT * Backlog(s.wqs[i]) + 51
  {
    hide Reachable, Reaches, AllServed, Serving;
    CanStart(s, i);
    var up := WithQueue(s, i, Started(s.wqs[i]));
    var first := ControlLabels(i, [Rtr, Go, Go, Create(true)]);
    ReachesReachable(s, first, up);
    var rest;
    rest, t := CanServeAll(up, i);
    labels := first + rest;
    ReachesThen(s, first, up, rest, t);
  }

  // ---------- posting ----------

  /** An element for an accepted request: the list that the code builds, and junk in the entries reserved behind it. */
  ghost function ElementFor(P: nat, mrs: seq<MrSlot>, req: Request, kind: Kind, qp: nat, junk: Iov): (w: Wqe)
    requires WellFormed(P, mrs, req) && Accepted(P, mrs, req)
    ensures Built(P, mrs, req, kind, qp, w)
  {
    hide WellFormed, Gather.Accepted, Entries, IovLen, Length;
    EntriesVisit(P, mrs, req);
    var entries, n := Entries(P, mrs, req), IovLen(P, mrs, req);
    Wqe(qp, OpcodeOf(kind), req.wrId % U32, Length(req) % U32, n, entries + seq(n - |entries|, _ => junk),
        n > SGE_PER_WQE)
  }

  function PostLabels(i: nat, cs: seq<PosterChoice>): seq<Label> {
    seq(|cs|, k requires 0 <= k < |cs| => Post(i, cs[k]))
  }

  lemma PosterReaches(s: System, i: nat, w: Wq, c: PosterChoice, w': Wq, rest: seq<PosterChoice>, t: System)
    requires i < |s.wqs| && PosterEnabled(w, c) && PosterStep(w, c) == w'
    requires Reaches(WithQueue(s, i, w'), PostLabels(i, rest), t)
    ensures Reaches(WithQueue(s, i, w), PostLabels(i, [c] + rest), t)
  {
    hide PosterEnabled, PosterStep;
    WithQueueTwice(s, i, w, w');
    assert PostLabels(i, [c] + rest) == [Post(i, c)] + PostLabels(i, rest);
    ReachesOn(WithQueue(s, i, w), Post(i, c), PostLabels(i, rest), t);
  }

  /** A queue to which `v` has been posted and, if it was initialized, announced. */
  ghost function Posted(w: Wq, req: Request, mrs: seq<MrSlot>, v: Wqe): Wq
    requires Shape(w.ring)
  {
    w.(ring := w.ring.(slots := w.ring.slots[w.ring.head := v], head := Next(w.ring.head, w.ring.size)),
       posted := w.posted + [v], origin := w.origin + [Origin(req, mrs)],
       flag := if w.state == Uninitialized then w.flag else PostFlag)
  }

  /** Reading the indices: the poster goes on exactly if fewer elements are outstanding than the ring may hold. */
  lemma PostFindsRoom(s: System, i: nat)
    requires Reachable(s) && i < |s.wqs| && s.wqs[i].poster.PRead?
    ensures var w := s.wqs[i];
            && Enabled(s, Post(i, Proceed))
            && Apply(s, Post(i, Proceed)) == WithQueue(s, i, w.(poster :=
                 if |w.posted| - w.retired < w.ring.size - 1 then PTear(w.poster.req, w.poster.mrs) else PIdle))
  {
    hide Reachable, Inv, DataOk, CircSpace, IsSize;
    ReachableInv(s);
    DataAt(s, i);
    SpaceOf(s.wqs[i]);
  }

  lemma SpaceOf(w: Wq)
    requires DataOk(w)
    ensures Shape(w.ring)
    ensures CircSpace(w.ring.head, w.ring.tail, w.ring.size) == w.ring.size - 1 - (|w.posted| - w.retired)
  {
    hide DataOk, CircSpace, IsSize;
    RingShape(w);
    RingCounts(w.ring, w.posted, w.retired, if Busy(w.worker) then w.retired + 1 else w.retired);
  }

  /** A poster gives up a slot exactly if the request cannot be accepted, or needs a map, which may not be allocated. */
  lemma PostRefuses(w: Wq)
    requires Shape(w.ring) && w.poster.PBuild?
    requires WellFormed(w.pageSize, w.poster.mrs, w.poster.req)
    ensures PosterEnabled(w, Refuse) <==>
            !Accepted(w.pageSize, w.poster.mrs, w.poster.req)
            || IovLen(w.pageSize, w.poster.mrs, w.poster.req) > SGE_PER_WQE
    ensures PosterEnabled(w, Refuse) ==> PosterStep(w, Refuse) == w.(poster := PIdle)
  {
    hide WellFormed, Gather.Accepted, IovLen;
  }

  lemma PostReaches(s: System, i: nat, req: Request, mrs: seq<MrSlot>, junk: Wqe, v: Wqe)
    returns (cs: seq<PosterChoice>)
    requires i < |s.wqs| && Shape(s.wqs[i].ring) && s.wqs[i].poster == PIdle
    requires WellFormed(s.wqs[i].pageSize, mrs, req)
    requires Built(s.wqs[i].pageSize, mrs, req, s.wqs[i].kind, s.wqs[i].qp, v)
    requires CircSpace(s.wqs[i].ring.head, s.wqs[i].ring.tail, s.wqs[i].ring.size) >= 1
    requires Next(s.wqs[i].ring.head, s.wqs[i].ring.size) < s.wqs[i].ring.size
    ensures Reaches(s, PostLabels(i, cs), WithQueue(s, i, Posted(s.wqs[i], req, mrs, v))) && |cs| <= 7
  {
    hide WellFormed, Built, CircSpace, Next;
    var w := s.wqs[i];
    var w1 := w.(poster := PRead(req, mrs));
    var w2 := w.(poster := PTear(req, mrs));
    var w3 := w.(poster := PBuild(req, mrs), ring := w.ring.(slots := w.ring.slots[w.ring.head := junk]));
    var w4 := w.(poster := PPublish(req, mrs), ring := w.ring.(slots := w.ring.slots[w.ring.head := v]));
    assert w3.ring.slots[w.ring.head := v] == w4.ring.slots;
    var w5 := Posted(w, req, mrs, v).(poster := PNotify, flag := w.flag);
    var w6 := w5.(poster := PSetFlag);
    var w7 := Posted(w, req, mrs, v);
    var t := WithQueue(s, i, w7);
    assert PostLabels(i, []) == [];
    PostSteps(w, req, mrs, junk, v);
    hide PosterEnabled, PosterStep, WithQueue, Reaches, PostLabels, Posted, Shape;
    var last := if w.state == Uninitialized then [Proceed] else [Proceed, Proceed];
    if w.state == Uninitialized {
      PosterReaches(s, i, w5, Proceed, w7, [], t);
      assert [Proceed] + [] == last;
    } else {
      PosterReaches(s, i, w6, Proceed, w7, [], t);
      assert [Proceed] + [] == [Proceed];
      PosterReaches(s, i, w5, Proceed, w6, [Proceed], t);
      assert [Proceed] + [Proceed] == last;
    }
    PosterReaches(s, i, w4, Proceed, w5, last, t);
    PosterReaches(s, i, w3, Finish(v), w4, [Proceed] + last, t);
    PosterReaches(s, i, w2, Scribble(junk), w3, [Finish(v)] + ([Proceed] + last), t);
    PosterReaches(s, i, w1, Proceed, w2, [Scribble(junk)] + ([Finish(v)] + ([Proceed] + last)), t);
    cs := [Proceed] + ([Scribble(junk)] + ([Finish(v)] + ([Proceed] + last)));
    PosterReaches(s, i, w, Begin(req, mrs), w1, cs, t);
    cs := [Begin(req, mrs)] + cs;
    SameQueue(s, i);
  }

  /** The steps of one post, one after another. */
  lemma PostSteps(w: Wq, req: Request, mrs: seq<MrSlot>, junk: Wqe, v: Wqe)
    requires Shape(w.ring) && w.poster == PIdle
    requires WellFormed(w.pageSize, mrs, req) && Built(w.pageSize, mrs, req, w.kind, w.qp, v)
    requires CircSpace(w.ring.head, w.ring.tail, w.ring.size) >= 1 && Next(w.ring.head, w.ring.size) < w.ring.size
    ensures PosterEnabled(w, Begin(req, mrs)) && PosterStep(w, Begin(req, mrs)) == w.(poster := PRead(req, mrs))
    ensures var w1, w2 := w.(poster := PRead(req, mrs)), w.(poster := PTear(req, mrs));
            PosterEnabled(w1, Proceed) && PosterStep(w1, Proceed) == w2
    ensures var w2 := w.(poster := PTear(req, mrs));
            var w3 := w.(poster := PBuild(req, mrs), ring := w.ring.(slots := w.ring.slots[w.ring.head := junk]));
            PosterEnabled(w2, Scribble(junk)) && PosterStep(w2, Scribble(junk)) == w3
    ensures var w3 := w.(poster := PBuild(req, mrs), ring := w.ring.(slots := w.ring.slots[w.ring.head := junk]));
            var w4 := w.(poster := PPublish(req, mrs), ring := w.ring.(slots := w.ring.slots[w.ring.head := v]));
            PosterEnabled(w3, Finish(v)) && PosterStep(w3, Finish(v)) == w4
    ensures var w4 := w.(poster := PPublish(req, mrs), ring := w.ring.(slots := w.ring.slots[w.ring.head := v]));
            var w5 := Posted(w, req, mrs, v).(poster := PNotify, flag := w.flag);
            PosterEnabled(w4, Proceed) && PosterStep(w4, Proceed) == w5
    ensures var w5 := Posted(w, req, mrs, v).(poster := PNotify, flag := w.flag);
            && PosterEnabled(w5, Proceed)
            && PosterStep(w5, Proceed) == (if w.state == Uninitialized then Posted(w, req, mrs, v)
                                           else w5.(poster := PSetFlag))
            && (w.state != Uninitialized ==>
                  && PosterEnabled(w5.(poster := PSetFlag), Proceed)
                  && PosterStep(w5.(poster := PSetFlag), Proceed) == Posted(w, req, mrs, v))
  {
    hide WellFormed, Built, CircSpace, Next;
    assert w.ring.slots[w.ring.head := junk][w.ring.head := v] == w.ring.slots[w.ring.head := v];
  }

  /**
   An accepted request can be posted whenever fewer elements are outstanding than the ring may hold: some schedule of
   at most seven steps appends its element, sets the flag unless the queue is uninitialized, and changes nothing else.
   */
  lemma CanPost(s: System, i: nat, req: Request, mrs: seq<MrSlot>, scribble: Wqe, junk: Iov)
    returns (cs: seq<PosterChoice>, v: Wqe)
    requires Reachable(s) && i < |s.wqs| && s.wqs[i].poster == PIdle
    requires WellFormed(s.wqs[i].pageSize, mrs, req) && Accepted(s.wqs[i].pageSize, mrs, req)
    requires |s.wqs[i].posted| - s.wqs[i].retired < s.wqs[i].ring.size - 1
    ensures Built(s.wqs[i].pageSize, mrs, req, s.wqs[i].kind, s.wqs[i].qp, v) && Shape(s.wqs[i].ring)
    ensures Reaches(s, PostLabels(i, cs), WithQueue(s, i, Posted(s.wqs[i], req, mrs, v))) && |cs| <= 7
  {
    hide Reachable, Inv, DataOk, WellFormed, Gather.Accepted, Built, ElementFor, CircSpace, Next, Reaches, Posted;
    ReachableInv(s);
    DataAt(s, i);
    var w := s.wqs[i];
    SpaceOf(w);
    NextOf(w);
    v := ElementFor(w.pageSize, mrs, req, w.kind, w.qp, junk);
    cs := PostReaches(s, i, req, mrs, scribble, v);
  }

  lemma NextOf(w: Wq)
    requires DataOk(w)
    ensures Next(w.ring.head, w.ring.size) < w.ring.size
  {
    hide DataOk, Next, IsSize;
    RingShape(w);
    RingCounts(w.ring, w.posted, w.retired, if Busy(w.worker) then w.retired + 1 else w.retired);
  }

  // ---------- polling ----------

  /** The completion queue after its oldest completion has been polled. */
  ghost function Polled(cq: Cq): Cq
    requires |cq.polled| < |cq.pushed|
  {
    cq.(ring := cq.ring.(tail := Next(cq.ring.tail, cq.ring.size)), poller := PollIdle,
        polled := cq.polled + [MakeWc(cq.pushed[|cq.polled|])])
  }

  lemma PollSteps(cq: Cq)
    requires CqRingOk(cq.ring, cq.pushed, cq.polled, cq.poller)
    ensures Shape(cq.ring) && |cq.polled| <= |cq.pushed| && (!cq.poller.PollIdle? ==> |cq.polled| < |cq.pushed|)
    ensures PollStep(cq) ==
            match cq.poller
            case PollIdle => if |cq.polled| == |cq.pushed| then cq else cq.(poller := PollCopy)
            case PollCopy => cq.(poller := PollRetire(MakeWc(cq.pushed[|cq.polled|])))
            case PollRetire(_) => Polled(cq)
  {
    hide IsSize, CircCnt, Next, MakeWc, Refines;
    RingCounts(cq.ring, cq.pushed, |cq.polled|, |cq.polled|);
    LiveSlots(cq.ring, cq.pushed, |cq.polled|, |cq.polled|);
    RingFits(cq.ring, cq.pushed, |cq.polled|, |cq.polled|);
  }

  /** Steps until everything in the completion queue is polled. */
  function PollLeft(cq: Cq): int {
    3 * (|cq.pushed| - |cq.polled|) - match cq.poller case PollIdle => 0 case PollCopy => 1 case PollRetire(_) => 2
  }

  /**
   A step of the poller, in every reachable state: it looks for a completion and finds one exactly if there is one, it
   copies the oldest, or it takes it out.
   */
  lemma PollAdvances(s: System)
    requires Reachable(s)
    ensures Enabled(s, Poll) && |s.cq.polled| <= |s.cq.pushed| && PollLeft(s.cq) >= 0
    ensures (PollLeft(s.cq) == 0 <==> |s.cq.polled| == |s.cq.pushed|)
    ensures PollLeft(s.cq) == 0 ==> s.cq.poller == PollIdle && Apply(s, Poll) == s
    ensures PollLeft(s.cq) > 0 ==>
              && PollLeft(Apply(s, Poll).cq) == PollLeft(s.cq) - 1
              && Apply(s, Poll) == s.(cq := Apply(s, Poll).cq)
              && Apply(s, Poll).cq.pushed == s.cq.pushed
              && Apply(s, Poll).cq.polled
                 == s.cq.polled + if s.cq.poller.PollRetire? then [MakeWc(s.cq.pushed[|s.cq.polled|])] else []
  {
    hide Reachable, Inv, PollStep, Next, MakeWc;
    ReachableInv(s);
    CqOk(s);
    PollSteps(s.cq);
  }

  lemma CqOk(s: System)
    requires Inv(s)
    ensures CqRingOk(s.cq.ring, s.cq.pushed, s.cq.polled, s.cq.poller)
    ensures |s.cq.polled| <= |s.cq.pushed|
  {
    hide QueueOk, LockOk, DistinctQueues, SumDone, IsSize;
  }

  /** Polling on takes all completions, oldest first, three steps each, and leaves everything else as it is. */
  lemma {:induction false} CanPollAll(s: System) returns (labels: seq<Label>, t: System)
    requires Reachable(s)
    ensures |s.cq.polled| <= |s.cq.pushed|
    ensures Reaches(s, labels, t) && |labels| == PollLeft(s.cq)
    ensures t.cq.polled == s.cq.polled + WcsOf(s.cq.pushed[|s.cq.polled|..])
    ensures t.wqs == s.wqs && t.cq.pushed == s.cq.pushed && t.cq.poller == PollIdle
    decreases PollLeft(s.cq)
  {
    hide Reachable, Reaches, Enabled, Apply, MakeWc, PollLeft;
    PollAdvances(s);
    if PollLeft(s.cq) == 0 {
      labels, t := [], s;
      Stays(s);
    } else {
      var s' := Apply(s, Poll);
      StepReachable(s, Poll);
      PollAdvances(s');
      var rest;
      rest, t := CanPollAll(s');
      labels := [Poll] + rest;
      ReachesOn(s, Poll, rest, t);
      var n := |s.cq.polled|;
      if s.cq.poller.PollRetire? { assert s.cq.pushed[n..] == [s.cq.pushed[n]] + s.cq.pushed[n + 1..]; }
    }
  }

  lemma Stays(s: System)
    ensures Reaches(s, [], s)
  {
  }

  // ---------- from a request to its completion ----------

  /** The user has got the success of every request posted to queue `i` that the completion queue did not drop. */
  ghost predicate AllReported(s: System, i: nat) {
    && i < |s.wqs|
    && var w := s.wqs[i];
       var got := ProjectWc(s.cq.polled, w.qp, OpcodeOf(w.kind));
       && |got| + Dropped(w.done) == |w.posted| == |w.origin|
       && (Dropped(w.done) == 0 ==> forall k :: 0 <= k < |got| ==> Reports(w, got, k))
  }

  ghost predicate Reports(w: Wq, got: seq<Wc>, k: nat)
    requires k < |got|
  {
    && k < |w.origin| && w.origin[k].req.numSge <= |w.origin[k].req.sgList|
    && got[k].status == Success && got[k].wrId == w.origin[k].req.wrId % U32
    && got[k].byteLen == Length(w.origin[k].req) % U16
  }

  lemma ServedAndPolled(s: System, i: nat)
    requires Reachable(s) && AllServed(s, i) && |s.cq.polled| == |s.cq.pushed|
    requires MAX_IOVLEN * s.wqs[i].pageSize <= U32
    ensures AllReported(s, i)
  {
    hide Reachable, Inv, DataOk, Queued, Uncompleted, ProjectWc, TakenByCq, Dropped, CqRingOk;
    ReachableInv(s);
    DataAt(s, i);
    CqOk(s);
    var w := s.wqs[i];
    FifoConservation(s, i);
    UncompletedIsHistory(w);
    NothingQueued(s);
    ProjectNone(w.qp, OpcodeOf(w.kind));
    OriginCount(w);
    var got := ProjectWc(s.cq.polled, w.qp, OpcodeOf(w.kind));
    if Dropped(w.done) == 0 {
      forall k | 0 <= k < |got|
        ensures Reports(w, got, k)
      {
        ReportsAt(s, i, k);
      }
    }
  }

  lemma ReportsAt(s: System, i: nat, k: nat)
    requires Reachable(s) && AllServed(s, i) && Dropped(s.wqs[i].done) == 0
    requires MAX_IOVLEN * s.wqs[i].pageSize <= U32
    requires k < |ProjectWc(s.cq.polled, s.wqs[i].qp, OpcodeOf(s.wqs[i].kind))|
    ensures Reports(s.wqs[i], ProjectWc(s.cq.polled, s.wqs[i].qp, OpcodeOf(s.wqs[i].kind)), k)
  {
    hide Reachable, ProjectWc, Dropped, DataOk, ThreadsOk, CritOk, CqRingOk, Queued, TakenByCq, Length;
    PolledCompletion(s, i, k);
    FifoConservation(s, i);
    var w := s.wqs[i];
    AcceptedAll(w.done);
    var polled, queued := ProjectWc(s.cq.polled, w.qp, OpcodeOf(w.kind)), ProjectWc(Queued(s), w.qp, OpcodeOf(w.kind));
    assert polled[k] == (polled + queued)[k] == MakeWc(w.done[k].cqe);
  }

  lemma NothingQueued(s: System)
    requires CqRingOk(s.cq.ring, s.cq.pushed, s.cq.polled, s.cq.poller) && |s.cq.polled| == |s.cq.pushed|
    ensures Shape(s.cq.ring) && Queued(s) == []
  {
    hide CqRingOk, Queued, WcsOf;
    PolledThenQueued(s);
    WcsLength(s.cq.pushed);
  }

  lemma ProjectNone(qp: nat, op: Opcode)
    ensures ProjectWc([], qp, op) == []
  {
  }

  /**
   From request to completion: in every reachable state of a queue that serves or was never brought up, with no poster
   under way, some schedule leads to a state in which the user has polled the completion of every request that was
   posted to it, all successes, except for those that the completion queue dropped.
   */
  lemma CanReportAll(s: System, i: nat) returns (labels: seq<Label>, t: System)
    requires Reachable(s) && i < |s.wqs| && s.wqs[i].poster == PIdle
    requires s.wqs[i].control == KFresh || Serving(s.wqs[i])
    requires MAX_IOVLEN * s.wqs[i].pageSize <= U32
    ensures Reaches(s, labels, t) && AllServed(t, i) && AllReported(t, i) && SamePosted(s.wqs[i], t.wqs[i])
  {
    hide Reachable, Reaches, AllReported, Serving, Backlog;
    var first, mid;
    if s.wqs[i].control == KFresh { first, mid := StartServesAll(s, i); } else { first, mid := CanServeAll(s, i); }
    ReachesReachable(s, first, mid);
    var rest;
    rest, t := CanPollAll(mid);
    ReachesReachable(mid, rest, t);
    ReachesThen(s, first, mid, rest, t);
    labels := first + rest;
    WcsLength(mid.cq.pushed[|mid.cq.polled|..]);
    ServedAndPolled(t, i);
  }

  // ---------- where it all starts ----------

  /** A work queue that is asked for. */
  datatype Spec = Spec(pageSize: nat, kind: Kind, qp: nat, maxWr: nat)

  ghost function NewWq(q: Spec, zero: Wqe): Wq {
    Wq(q.pageSize, q.kind, q.qp, Ring(StoredSize(q.maxWr), seq(StoredSize(q.maxWr), _ => zero), 0, 0),
       EmptyFlag, Uninitialized, false, PIdle, WNone, KFresh, [], [], 0, [], [], 0, 0, 0, 0)
  }

  ghost function NewSystem(qs: seq<Spec>, cqe: nat, zero: Wqe, none: Cqe): System {
    System(seq(|qs|, k requires 0 <= k < |qs| => NewWq(qs[k], zero)),
           Cq(Ring(StoredSize(cqe), seq(StoredSize(cqe), _ => none), 0, 0), Free, PollIdle, [], []))
  }

  lemma NewRing<T>(requested: nat, x: T)
    requires requested < Pow2(31)
    ensures Refines(Ring(StoredSize(requested), seq(StoredSize(requested), _ => x), 0, 0), [], 0, 0)
  {
    HalfWord();
    hide Pow2, StoredSize, CircSpace;
    RingSizing(requested, 0, 0);
  }

  /** Any queues that differ in queue pair or direction, with any sizes below 2^31, make a system that can run. */
  lemma NewSystemReachable(qs: seq<Spec>, cqe: nat, zero: Wqe, none: Cqe)
    requires cqe < Pow2(31) && forall k :: 0 <= k < |qs| ==> qs[k].maxWr < Pow2(31)
    requires forall j, k :: 0 <= j < k < |qs| ==> qs[j].qp != qs[k].qp || qs[j].kind != qs[k].kind
    ensures Reachable(NewSystem(qs, cqe, zero, none))
    ensures var s := NewSystem(qs, cqe, zero, none);
            forall k :: 0 <= k < |qs| ==> s.wqs[k].control == KFresh && s.wqs[k].poster == PIdle
  {
    hide StoredSize, Pow2, Refines;
    var s := NewSystem(qs, cqe, zero, none);
    NewRing(cqe, none);
    forall k | 0 <= k < |qs|
      ensures FreshWq(s.wqs[k])
    {
      NewRing(qs[k].maxWr, zero);
    }
    assert Init(s);
    hide Init, NewSystem;
    assert IsRun([s], []);
    assert [s][|[s]| - 1] == s;
  }
}

/**
 A worker of the concurrent machine that runs while every other thread stands still does what the methods of module
 Worker do: the same transfers, completions and retirements. The two descriptions of the worker are thereby one.
 */
module WorkerAlone {
  import opened Circ
  import opened WorkElement
  import opened Pipeline
  import W = Worker

  // ---------- one element: the calls of the transport ----------

  function ChoiceOf(x: W.Xfer): WorkerChoice {
    match x
    case Failed => Transfer(false, 0)
    case Moved(bytes) => Transfer(true, bytes)
  }

  /**
   The steps of the worker from the loop head of dis_wq_consume_one_sqe or _rqe, one call for each outcome listed;
   the stop request is made when the list is used up.
   */
  ghost function Attempt(w: Wq, script: seq<W.Xfer>): Wq
    requires Shape(w.ring) && w.worker.WTry? && !w.stop
    requires w.kind == RQ ==> W.Honest(script, w.worker.left)
    decreases |script|
  {
    if script == [] then LocalStep(w.(stop := true), Step)
    else
      var w' := LocalStep(LocalStep(w, Step), ChoiceOf(script[0]));
      if w'.worker.WPost? then w' else Attempt(w', script[1..])
  }

  ghost function Slot(w: Wq): Wqe
    requires Shape(w.ring)
  {
    w.ring.slots[w.ring.tail]
  }

  lemma {:induction false} AttemptSends(w: Wq, script: seq<W.Xfer>)
    requires Shape(w.ring) && w.worker.WTry? && !w.stop && w.kind == SQ
    ensures var ok := W.Sends(script);
            Attempt(w, script) == w.(
              stop := !ok, worker := WPost(CLock, if ok then Success else RespTimeoutErr),
              sent := if ok then w.sent + [MsgOf(Slot(w))] else w.sent)
    decreases |script|
  {
    hide MsgOf;
    if script != [] {
      if script[0].Failed? {
        AttemptSends(w, script[1..]);
        if W.Sends(script) {
          var k :| 0 <= k < |script| && script[k].Moved?;
          assert script[1..][k - 1].Moved?;
        }
        if W.Sends(script[1..]) {
          var k :| 0 <= k < |script| - 1 && script[1..][k].Moved?;
          assert script[k + 1].Moved?;
        }
      }
    }
  }

  lemma {:induction false} AttemptReceives(w: Wq, script: seq<W.Xfer>)
    requires Shape(w.ring) && w.worker.WTry? && !w.stop && w.kind == RQ && W.Honest(script, w.worker.left)
    requires Slot(w).byteLen == w.worker.left
    ensures var (status, left) := W.Receive(script, w.worker.left);
            var len := if status == Success then w.worker.total else left;
            Attempt(w, script) == WithTail(w, Slot(w).(byteLen := len)).(
              stop := status != Success, worker := WPost(CLock, status),
              got := w.got + W.Delivered(script, w.worker.left))
    decreases |script|
  {
    hide LocalStep, LocalEnabled;
    if script == [] {
      AttemptStops(w);
    } else {
      CallReceives(w, script[0]);
      var w' := LocalStep(LocalStep(w, Step), ChoiceOf(script[0]));
      if !w'.worker.WPost? {
        AttemptReceives(w', script[1..]);
        hide Attempt, W.Honest;
        forall x {:trigger WithTail(w', x)}
          ensures WithTail(w', x).ring == WithTail(w, x).ring
        {
          assert w'.ring.slots[w.ring.tail := x] == w.ring.slots[w.ring.tail := x];
        }
      }
    }
  }

  lemma AttemptStops(w: Wq)
    requires Shape(w.ring) && w.worker.WTry? && !w.stop
    requires w.kind == RQ ==> W.Honest([], w.worker.left)
    ensures Attempt(w, []) == WithTail(w, Slot(w)).(stop := true, worker := WPost(CLock, RespTimeoutErr))
  {
    assert w.ring.slots[w.ring.tail := Slot(w)] == w.ring.slots;
  }

  /** One call: complete, partial or failed. */
  lemma CallReceives(w: Wq, x: W.Xfer)
    requires Shape(w.ring) && w.worker.WTry? && !w.stop && w.kind == RQ && Slot(w).byteLen == w.worker.left
    requires x.Moved? ==> x.bytes <= w.worker.left
    ensures LocalEnabled(w, Step) && LocalEnabled(LocalStep(w, Step), ChoiceOf(x))
    ensures var WTry(total, left) := w.worker;
            LocalStep(LocalStep(w, Step), ChoiceOf(x)) ==
            match x
            case Failed => w
            case Moved(n) =>
              if n == left then
                WithTail(w, Slot(w).(byteLen := total)).(got := w.got + n, worker := WPost(CLock, Success))
              else
                WithTail(w, Slot(w).(byteLen := left - n)).(got := w.got + n, worker := WTry(total, left - n))
  {
    assert w.ring.slots[w.ring.tail := Slot(w)] == w.ring.slots;
  }

  /** How the transfer of the element at the tail ends, in the terms of module Worker. */
  lemma AttemptCompletes(w: Wq, script: seq<W.Xfer>)
    requires Shape(w.ring) && w.worker == WTry(Slot(w).byteLen, Slot(w).byteLen) && !w.stop
    requires w.kind == RQ ==> W.Honest(script, Slot(w).byteLen)
    ensures var w', c := Attempt(w, script), W.Complete(w.kind, Slot(w), script);
            && Shape(w'.ring) && w'.worker == WPost(CLock, c.status) && w'.stop == (c.status != Success)
            && w' == WithTail(w, Slot(w')).(worker := w'.worker, stop := w'.stop, sent := w'.sent, got := w'.got)
            && CurrentCqe(w') == c
  {
    hide LocalStep, LocalEnabled;
    if w.kind == SQ {
      AttemptSends(w, script);
      assert w.ring.slots[w.ring.tail := Slot(w)] == w.ring.slots;
    } else {
      AttemptReceives(w, script);
    }
    hide Attempt;
  }

  // ---------- one element: its completion ----------

  ghost function CqBoth(w: Wq, cq: Cq, c: WorkerChoice): (Wq, Cq)
    requires CqEnabled(w, cq, c)
  {
    (CqStepWq(w, cq, c), CqStepCq(0, w, cq, c))
  }

  lemma NextInside(index: nat, size: nat)
    requires IsSize(size) && index < size
    ensures Next(index, size) < size
  {
    NextExact(size, index);
    SmallMod(index, size);
  }

  /** Writing and publishing the completion, once there is space; the slot holds `junk` while it is written. */
  ghost function PutAlone(w: Wq, cq: Cq, junk: Cqe): (r: (Wq, Cq))
    requires Shape(w.ring) && Shape(cq.ring) && IsSize(cq.ring.size) && w.worker.WPost? && w.worker.stage == CTear
    ensures r.0 == w.(worker := WPost(CUnlock, w.worker.status), done := w.done + [Done(CurrentCqe(w), true, w.got)])
    ensures r.1 == cq.(ring := r.1.ring, pushed := cq.pushed + [CurrentCqe(w)]) && Shape(r.1.ring)
    ensures r.1.ring == cq.ring.(slots := cq.ring.slots[cq.ring.head := CurrentCqe(w)],
                                 head := Next(cq.ring.head, cq.ring.size))
  {
    NextInside(cq.ring.head, cq.ring.size);
    hide IsSize, Next, MakeCqe;
    var (w1, cq1) := CqBoth(w, cq, Junk(junk));
    var (w2, cq2) := CqBoth(w1, cq1, Step);
    assert cq2.ring.slots == cq.ring.slots[cq.ring.head := CurrentCqe(w)];
    CqBoth(w2, cq2, Step)
  }

  /** Posting the completion: dis_wq_post_sqe_cqe or _rqe_cqe from the lock to the unlock. */
  ghost function PostAlone(w: Wq, cq: Cq, junk: Cqe): (r: (Wq, Cq))
    requires Shape(w.ring) && Shape(cq.ring) && IsSize(cq.ring.size)
    requires w.worker.WPost? && w.worker.stage == CLock && cq.lock == Free
    ensures r.0 == w.(worker := WFree, done := w.done + [Done(CurrentCqe(w), !CqFull(cq), w.got)])
    ensures CqFull(cq) ==> r.1 == cq
    ensures !CqFull(cq) ==>
              r.1 == cq.(pushed := cq.pushed + [CurrentCqe(w)],
                         ring := cq.ring.(slots := cq.ring.slots[cq.ring.head := CurrentCqe(w)],
                                          head := Next(cq.ring.head, cq.ring.size)))
  {
    hide IsSize, Next, MakeCqe, PutAlone, CircSpace;
    var (w1, cq1) := CqBoth(w, cq, Step);
    var (w2, cq2) := CqBoth(w1, cq1, Step);
    var (w3, cq3) := if CqFull(cq) then (w2, cq2) else PutAlone(w2, cq2, junk);
    CqBoth(w3, cq3, Step)
  }

  // ---------- one element, and the whole ring ----------

  /** Taking the element at the tail and transferring it. */
  ghost function TransferAlone(w: Wq, script: seq<W.Xfer>): (r: Wq)
    requires Shape(w.ring) && w.worker.WRead? && !w.stop && CircCnt(w.ring.head, w.ring.tail, w.ring.size) >= 1
    requires w.kind == RQ ==> W.Honest(script, Slot(w).byteLen)
    ensures var c := W.Complete(w.kind, Slot(w), script);
            && Shape(r.ring)
            && r == w.(worker := WPost(CLock, c.status), stop := c.status != Success, ring := r.ring,
                       got := r.got, sent := r.sent)
            && r.ring == w.ring.(slots := w.ring.slots[w.ring.tail := Slot(r)])
            && CurrentCqe(r) == c
  {
    hide MakeCqe, Attempt, CircCnt, W.Complete, W.Honest, CurrentCqe;
    var w' := LocalStep(w, Step);
    hide LocalStep, LocalEnabled;
    AttemptCompletes(w', script);
    Attempt(w', script)
  }

  ghost function RetireAlone(w: Wq): (r: Wq)
    requires Shape(w.ring) && w.worker.WFree?
    ensures r == w.(worker := WDrain, retired := w.retired + 1, ring := r.ring)
    ensures r.ring == w.ring.(slots := w.ring.slots[w.ring.tail := Slot(w).(dynamic := false)],
                              tail := Next(w.ring.tail, w.ring.size))
  {
    hide Next;
    LocalStep(LocalStep(w, Step), Step)
  }

  /** One turn of the loop of dis_wq_consume_all, from the load of the head to the store of the tail. */
  ghost function TurnAlone(w: Wq, cq: Cq, script: seq<W.Xfer>, junk: Cqe): (r: (Wq, Cq))
    requires Shape(w.ring) && w.worker.WRead? && !w.stop && CircCnt(w.ring.head, w.ring.tail, w.ring.size) >= 1
    requires Shape(cq.ring) && IsSize(cq.ring.size) && cq.lock == Free
    requires w.kind == RQ ==> W.Honest(script, Slot(w).byteLen)
    ensures var c := W.Complete(w.kind, Slot(w), script);
            && r.0 == w.(worker := WDrain, stop := c.status != Success, retired := w.retired + 1, ring := r.0.ring,
                         done := w.done + [Done(c, !CqFull(cq), r.0.got)], got := r.0.got, sent := r.0.sent)
            && w.ring.tail < |r.0.ring.slots|
            && r.0.ring == w.ring.(slots := w.ring.slots[w.ring.tail := r.0.ring.slots[w.ring.tail]],
                                   tail := Next(w.ring.tail, w.ring.size))
            && r.1 == if CqFull(cq) then cq
                      else cq.(pushed := cq.pushed + [c],
                               ring := cq.ring.(slots := cq.ring.slots[cq.ring.head := c],
                                                head := Next(cq.ring.head, cq.ring.size)))
  {
    hide IsSize, Next, CurrentCqe, TransferAlone, PostAlone, RetireAlone, CqFull, CircCnt, W.Complete, W.Honest;
    var (w', cq') := PostAlone(TransferAlone(w, script), cq, junk);
    (RetireAlone(w'), cq')
  }

  /** Nothing is under way but in the worker. */
  ghost predicate Quiescent(w: Wq, cq: Cq) {
    && Refines(w.ring, w.posted, w.retired, w.retired)
    && Refines(cq.ring, cq.pushed, |cq.polled|, |cq.polled|)
    && cq.lock == Free
  }

  /** The elements in the ring, oldest first. */
  ghost function Queue(w: Wq): seq<Wqe>
    requires w.retired <= |w.posted|
  {
    w.posted[w.retired..]
  }

  ghost function Pending(cq: Cq): seq<Cqe>
    requires |cq.polled| <= |cq.pushed|
  {
    cq.pushed[|cq.polled|..]
  }

  lemma Quiet(w: Wq, cq: Cq)
    requires Quiescent(w, cq)
    ensures Shape(w.ring) && Shape(cq.ring) && IsSize(cq.ring.size) && cq.lock == Free
    ensures w.retired <= |w.posted| && |cq.polled| <= |cq.pushed| && |Pending(cq)| <= cq.ring.size - 1
    ensures CircCnt(w.ring.head, w.ring.tail, w.ring.size) == |Queue(w)|
    ensures CqFull(cq) <==> |Pending(cq)| == cq.ring.size - 1
    ensures Queue(w) != [] ==> Slot(w) == Queue(w)[0]
  {
    hide IsSize, CircCnt, CircSpace;
    RingCounts(w.ring, w.posted, w.retired, w.retired);
    RingCounts(cq.ring, cq.pushed, |cq.polled|, |cq.polled|);
  }

  lemma RetiredRing(r: Ring<Wqe>, r': Ring<Wqe>, posted: seq<Wqe>, retired: nat)
    requires Refines(r, posted, retired, retired) && retired < |posted|
    requires r.tail < |r.slots| == |r'.slots| && r.tail < |r'.slots|
    requires r' == r.(slots := r.slots[r.tail := r'.slots[r.tail]], tail := Next(r.tail, r.size))
    ensures Refines(r', posted, retired + 1, retired + 1)
  {
    WriteTailSlot(r, posted, retired, r'.slots[r.tail]);
    RetireTail(r.(slots := r.slots[r.tail := r'.slots[r.tail]]), posted, retired, retired + 1);
  }

  lemma FilledRing(r: Ring<Cqe>, pushed: seq<Cqe>, polled: nat, c: Cqe)
    requires Refines(r, pushed, polled, polled) && |pushed| - polled <= r.size - 2
    ensures r.head < |r.slots|
    ensures Refines(r.(slots := r.slots[r.head := c], head := Next(r.head, r.size)), pushed + [c], polled, polled)
  {
    WriteHeadSlot(r, pushed, polled, polled, c);
    PublishHead(r.(slots := r.slots[r.head := c]), pushed, polled, polled);
  }

  /** A turn takes the oldest element out and hands its completion to the ring, if there is space. */
  lemma TurnKeeps(w: Wq, cq: Cq, script: seq<W.Xfer>, junk: Cqe)
    requires Quiescent(w, cq) && w.retired < |w.posted| && w.worker.WRead? && !w.stop
    requires w.kind == RQ ==> W.Honest(script, Queue(w)[0].byteLen)
    ensures Shape(w.ring) && Shape(cq.ring) && IsSize(cq.ring.size) && Slot(w) == Queue(w)[0]
    ensures CircCnt(w.ring.head, w.ring.tail, w.ring.size) >= 1 && |cq.polled| <= |cq.pushed|
    ensures var (w', cq') := TurnAlone(w, cq, script, junk);
            var c := W.Complete(w.kind, Queue(w)[0], script);
            && Quiescent(w', cq') && cq'.ring.size == cq.ring.size && cq'.polled == cq.polled
            && w'.posted == w.posted && w'.kind == w.kind && w'.retired == w.retired + 1
            && w'.worker == WDrain && w'.stop == (c.status != Success)
            && w'.done == w.done + [Done(c, |Pending(cq)| < cq.ring.size - 1, w'.got)]
            && Pending(cq') == Pending(cq) + if |Pending(cq)| < cq.ring.size - 1 then [c] else []
  {
    hide IsSize, CircCnt, CqFull, Next, TurnAlone, W.Complete, W.Honest, Refines;
    Quiet(w, cq);
    var (w', cq') := TurnAlone(w, cq, script, junk);
    var c := W.Complete(w.kind, Queue(w)[0], script);
    RetiredRing(w.ring, w'.ring, w.posted, w.retired);
    if !CqFull(cq) { FilledRing(cq.ring, cq.pushed, |cq.polled|, c); }
  }

  /**
   The steps of the worker from the loop head of dis_wq_consume_all until it waits or has seen the stop request,
   one script for each element; the stop request is made when they are used up.
   */
  ghost function DrainAlone(w: Wq, cq: Cq, scripts: seq<seq<W.Xfer>>, junk: Cqe): (Wq, Cq)
    requires Quiescent(w, cq) && w.worker.WDrain?
    requires Shape(w.ring) && w.retired <= |w.posted| && W.Transferable(w.kind, Queue(w), scripts)
    decreases |scripts|
  {
    if w.stop || scripts == [] then (w.(stop := true), cq)
    else
      Quiet(w, cq);
      var w1 := LocalStep(w, Step);
      if Queue(w) == [] then (LocalStep(w1, Step), cq)
      else
        TurnKeeps(w1, cq, scripts[0], junk);
        TransferableRest(w.kind, Queue(w), scripts);
        hide TurnAlone, Refines, W.Complete, W.Transferable, IsSize;
        var (w2, cq2) := TurnAlone(w1, cq, scripts[0], junk);
        Quiet(w2, cq2);
        DrainAlone(w2, cq2, scripts[1..], junk)
  }

  lemma TransferableRest(kind: Kind, queue: seq<Wqe>, scripts: seq<seq<W.Xfer>>)
    requires queue != [] && scripts != [] && W.Transferable(kind, queue, scripts)
    ensures W.Transferable(kind, queue[1..], scripts[1..])
    ensures kind == RQ ==> W.Honest(scripts[0], queue[0].byteLen)
  {
    hide W.Honest;
  }

  /** What a worker alone makes of its ring and of the completion ring, in the terms of module Worker. */
  ghost predicate Drains(w: Wq, cq: Cq, cs: seq<Cqe>, w': Wq, cq': Cq) {
    && w.retired + |cs| == w'.retired <= |w'.posted| == |w.posted| && w'.posted == w.posted
    && |w'.done| == |w.done| + |cs| && w.done <= w'.done
    && (forall k :: 0 <= k < |cs| ==> w'.done[|w.done| + k].cqe == cs[k])
    && |cq.polled| <= |cq.pushed| && |cq'.polled| <= |cq'.pushed| && |Pending(cq)| <= cq.ring.size - 1
    && Pending(cq') == W.Taken(Pending(cq), cs, |cs|, cq.ring.size - 1)
    && Quiescent(w', cq') && cq'.ring.size == cq.ring.size
    && (w'.worker == WWait ==> Queue(w') == [])
    && (w'.worker == WWait || (w'.worker == WDrain && w'.stop))
  }

  lemma DrainsNothing(w: Wq, cq: Cq, w': Wq)
    requires Quiescent(w, cq)
    requires w' == w.(stop := w'.stop, worker := w'.worker)
    requires w'.worker == WWait ==> Queue(w) == []
    requires w'.worker == WWait || (w'.worker == WDrain && w'.stop)
    ensures Drains(w, cq, [], w', cq)
  {
    Quiet(w, cq);
    hide IsSize, Refines;
    assert Queue(w') == Queue(w);
  }

  lemma TakenCons(pending: seq<Cqe>, c: Cqe, cs: seq<Cqe>, capacity: nat)
    requires |pending| <= capacity
    ensures var p := pending + if |pending| < capacity then [c] else [];
            W.Taken(p, cs, |cs|, capacity) == W.Taken(pending, [c] + cs, |cs| + 1, capacity)
  {
  }

  /** A turn and what follows it. */
  lemma DrainsMore(w: Wq, cq: Cq, c: Cqe, w1: Wq, cq1: Cq, cs: seq<Cqe>, w': Wq, cq': Cq)
    requires |cq.polled| <= |cq.pushed| && |Pending(cq)| <= cq.ring.size - 1 && cq1.ring.size == cq.ring.size
    requires w1.posted == w.posted && w1.retired == w.retired + 1 && |w1.done| == |w.done| + 1
    requires w.done <= w1.done && w1.done[|w.done|].cqe == c && |cq1.polled| <= |cq1.pushed|
    requires Pending(cq1) == Pending(cq) + if |Pending(cq)| < cq.ring.size - 1 then [c] else []
    requires Drains(w1, cq1, cs, w', cq')
    ensures Drains(w, cq, [c] + cs, w', cq')
  {
    hide Quiescent, W.Taken, Pending, Queue;
    TakenCons(Pending(cq), c, cs, cq.ring.size - 1);
    forall k | 0 <= k < |cs| + 1
      ensures w'.done[|w.done| + k].cqe == ([c] + cs)[k]
    {
      if k == 0 {
        assert w'.done[|w.done|] == w1.done[|w.done|];
      } else {
        assert w'.done[|w1.done| + (k - 1)].cqe == cs[k - 1];
      }
    }
  }

  /** The test for the stop request, and the load of the head. */
  lemma Begins(w: Wq, cq: Cq)
    requires Quiescent(w, cq) && w.worker.WDrain? && !w.stop && Shape(w.ring)
    ensures LocalEnabled(w, Step) && LocalStep(w, Step) == w.(worker := WRead)
    ensures LocalEnabled(w.(worker := WRead), Step) && w.retired <= |w.posted|
    ensures Queue(w) == [] ==> LocalStep(w.(worker := WRead), Step) == w.(worker := WWait)
    ensures Quiescent(w.(worker := WRead), cq)
  {
    Quiet(w, cq);
    hide IsSize, Refines, CircCnt;
  }

  /** What the drain does with the oldest element, and what is left for it. */
  lemma DrainsFirst(w: Wq, cq: Cq, scripts: seq<seq<W.Xfer>>, junk: Cqe) returns (w': Wq, cq': Cq)
    requires Quiescent(w, cq) && w.worker.WDrain? && !w.stop && scripts != []
    requires Shape(w.ring) && w.retired < |w.posted| && W.Transferable(w.kind, Queue(w), scripts)
    ensures var c := W.Complete(w.kind, Queue(w)[0], scripts[0]);
            && Quiescent(w', cq') && w'.worker == WDrain && w'.stop == (c.status != Success) && Shape(w'.ring)
            && w'.kind == w.kind && w'.posted == w.posted && w'.retired == w.retired + 1
            && |w'.done| == |w.done| + 1 && w.done <= w'.done && w'.done[|w.done|].cqe == c
            && cq'.ring.size == cq.ring.size && |cq.polled| <= |cq.pushed| && |cq'.polled| <= |cq'.pushed|
            && Pending(cq') == Pending(cq) + (if |Pending(cq)| < cq.ring.size - 1 then [c] else [])
            && Queue(w') == Queue(w)[1..] && W.Transferable(w.kind, Queue(w'), scripts[1..])
            && DrainAlone(w, cq, scripts, junk) == DrainAlone(w', cq', scripts[1..], junk)
  {
    hide Quiescent, W.Transferable, W.Complete, TurnAlone, W.Honest, LocalStep, LocalEnabled, CircCnt, IsSize;
    Begins(w, cq);
    Quiet(w, cq);
    TransferableRest(w.kind, Queue(w), scripts);
    var w1 := w.(worker := WRead);
    TurnKeeps(w1, cq, scripts[0], junk);
    w', cq' := TurnAlone(w1, cq, scripts[0], junk).0, TurnAlone(w1, cq, scripts[0], junk).1;
    Quiet(w', cq');
    assert Queue(w') == Queue(w)[1..];
  }

  lemma DrainsAfterStop(w: Wq, cq: Cq, scripts: seq<seq<W.Xfer>>, junk: Cqe)
    requires Quiescent(w, cq) && w.worker.WDrain? && (w.stop || scripts == [])
    requires Shape(w.ring) && w.retired <= |w.posted| && W.Transferable(w.kind, Queue(w), scripts)
    ensures DrainAlone(w, cq, scripts, junk) == (w.(stop := true), cq)
    ensures Drains(w, cq, [], w.(stop := true), cq)
  {
    hide Drains, Quiescent, W.Transferable;
    DrainsNothing(w, cq, w.(stop := true));
  }

  /**
   A worker of the machine that runs alone generates exactly the completions of `Worker.Completions`, in order,
   retires their elements, and the completion ring takes what `Worker.ConsumeAll` says it takes.
   */
  lemma {:induction false} AloneIsConsumeAll(w: Wq, cq: Cq, scripts: seq<seq<W.Xfer>>, junk: Cqe)
    requires Quiescent(w, cq) && w.worker.WDrain? && !w.stop
    requires Shape(w.ring) && w.retired <= |w.posted| && W.Transferable(w.kind, Queue(w), scripts)
    ensures var (w', cq') := DrainAlone(w, cq, scripts, junk);
            var cs := W.Completions(w.kind, Queue(w), scripts);
            && Drains(w, cq, cs, w', cq')
            && (w'.stop <==> |cs| == |scripts| || (|cs| > 0 && cs[|cs| - 1].status != Success))
    decreases |scripts|
  {
    hide Quiescent, Drains, W.Transferable, W.Complete, W.Honest, DrainAlone, Shape;
    if scripts == [] {
      DrainsAfterStop(w, cq, scripts, junk);
    } else if Queue(w) == [] {
      DrainsEmpty(w, cq, scripts, junk);
    } else {
      var w1, cq1 := DrainsFirst(w, cq, scripts, junk);
      var c := W.Complete(w.kind, Queue(w)[0], scripts[0]);
      var (w', cq') := DrainAlone(w1, cq1, scripts[1..], junk);
      Quiet(w, cq);
      if c.status == Success {
        AloneIsConsumeAll(w1, cq1, scripts[1..], junk);
        DrainsMore(w, cq, c, w1, cq1, W.Completions(w.kind, Queue(w1), scripts[1..]), w', cq');
      } else {
        DrainsAfterStop(w1, cq1, scripts[1..], junk);
        DrainsMore(w, cq, c, w1, cq1, [], w', cq');
      }
    }
  }

  lemma DrainsEmpty(w: Wq, cq: Cq, scripts: seq<seq<W.Xfer>>, junk: Cqe)
    requires Quiescent(w, cq) && w.worker.WDrain? && !w.stop && scripts != []
    requires Shape(w.ring) && w.retired == |w.posted| && W.Transferable(w.kind, Queue(w), scripts)
    ensures DrainAlone(w, cq, scripts, junk) == (w.(worker := WWait), cq)
    ensures Drains(w, cq, [], w.(worker := WWait), cq)
  {
    hide Drains, Quiescent, W.Transferable, LocalStep, LocalEnabled;
    Begins(w, cq);
    DrainsNothing(w, cq, w.(worker := WWait));
  }
}

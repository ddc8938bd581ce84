/**
 What the invariant means for the users of the driver: theorems about every state of every run.
 */
module PipelineTheorems {
  import opened Circ
  import opened Gather
  import opened WorkElement
  import opened Pipeline
  import opened PipelineInv
  import opened PipelineSystem

  ghost predicate Reachable(s: System) {
    exists states, labels :: IsRun(states, labels) && states[|states| - 1] == s
  }

  lemma ReachableInv(s: System)
    requires Reachable(s)
    ensures Inv(s)
  {
    var states, labels :| IsRun(states, labels) && states[|states| - 1] == s;
    RunInv(states, labels, |states| - 1);
  }

  /** What the invariant says of queue `i`, and of the completion queue. */
  lemma ReachableQueue(s: System, i: nat)
    requires Reachable(s) && i < |s.wqs|
    ensures QueueOk(s.wqs[i], s.cq)
    ensures CqRingOk(s.cq.ring, s.cq.pushed, s.cq.polled, s.cq.poller)
  {
    ReachableInv(s);
  }

  lemma DataAt(s: System, i: nat)
    requires Inv(s) && i < |s.wqs|
    ensures DataOk(s.wqs[i])
  {
    assert QueueOk(s.wqs[i], s.cq);
    hide Inv, DataOk, ThreadsOk, CritOk, Project, TakenByCq;
  }

  lemma ThreadsAt(s: System, i: nat)
    requires Inv(s) && i < |s.wqs|
    ensures ThreadsOk(s.wqs[i])
  {
    assert QueueOk(s.wqs[i], s.cq);
    hide Inv, DataOk, ThreadsOk, CritOk, Project, TakenByCq;
  }

  lemma LifeAt(s: System, i: nat)
    requires Inv(s) && i < |s.wqs|
    ensures LifeOk(s.wqs[i].state, s.wqs[i].stop, s.wqs[i].worker, s.wqs[i].control)
  {
    assert QueueOk(s.wqs[i], s.cq);
    hide Inv, DataOk, FlagOk, TeardownOk, CritOk, Project, TakenByCq, LifeOk;
  }

  // ---------- first in, first out, and nothing lost ----------

  function WcsOf(cs: seq<Cqe>): seq<Wc> {
    seq(|cs|, k requires 0 <= k < |cs| => MakeWc(cs[k]))
  }

  /** The completions a user has polled, or would poll, that belong to one queue. */
  function ProjectWc(ws: seq<Wc>, qp: nat, op: Opcode): seq<Wc> {
    if ws == [] then []
    else
      var last := ws[|ws| - 1];
      ProjectWc(ws[..|ws| - 1], qp, op) + if last.qp == qp && last.opcode == op then [last] else []
  }

  lemma {:induction false} ProjectCommutes(cs: seq<Cqe>, qp: nat, op: Opcode)
    ensures ProjectWc(WcsOf(cs), qp, op) == WcsOf(Project(cs, qp, op))
  {
    if cs != [] {
      var init := cs[..|cs| - 1];
      ProjectCommutes(init, qp, op);
      assert WcsOf(cs)[..|cs| - 1] == WcsOf(init);
    }
  }

  lemma {:induction false} ProjectConcat(a: seq<Wc>, b: seq<Wc>, qp: nat, op: Opcode)
    ensures ProjectWc(a + b, qp, op) == ProjectWc(a, qp, op) + ProjectWc(b, qp, op)
    decreases |b|
  {
    if b == [] {
      assert a + b == a;
    } else {
      var init := b[..|b| - 1];
      ProjectConcat(a, init, qp, op);
      assert (a + b)[..|a + b| - 1] == a + init;
      assert (a + b)[|a + b| - 1] == b[|b| - 1];
    }
  }

  lemma {:induction false} AcceptedCount(done: seq<Done>)
    ensures |TakenByCq(done)| + Dropped(done) == |done|
  {
    if done != [] { AcceptedCount(done[..|done| - 1]); }
  }

  lemma {:induction false} AcceptedAll(done: seq<Done>)
    requires Dropped(done) == 0
    ensures |TakenByCq(done)| == |done| && forall k :: 0 <= k < |done| ==> TakenByCq(done)[k] == done[k].cqe
  {
    if done != [] { AcceptedAll(done[..|done| - 1]); }
  }

  /** Completions in the CQ, read from its live slots. */
  ghost function Queued(s: System): seq<Wc>
    requires Shape(s.cq.ring)
  {
    WcsOf(Live(s.cq.ring))
  }

  /** Elements in the ring whose completion is not generated yet, read from the live slots. */
  ghost function Uncompleted(w: Wq): seq<Wqe>
    requires Shape(w.ring)
  {
    if Completed(w.worker) && |Live(w.ring)| > 0 then Live(w.ring)[1..] else Live(w.ring)
  }

  /** Polled and queued completions together are all that were ever published, in order. */
  lemma PolledThenQueued(s: System)
    requires CqRingOk(s.cq.ring, s.cq.pushed, s.cq.polled, s.cq.poller)
    ensures Shape(s.cq.ring) && s.cq.polled + Queued(s) == WcsOf(s.cq.pushed)
  {
    LiveIsHistory(s.cq.ring, s.cq.pushed, |s.cq.polled|, |s.cq.polled|);
    hide CircCnt, IsSize, Live;
  }

  /** The element in work keeps its identifier, though its byte count changes. */
  lemma BusySlotId(w: Wq)
    requires DataOk(w) && Busy(w.worker) && !Completed(w.worker)
    ensures w.ring.tail < |w.ring.slots| && w.retired < |w.posted|
    ensures w.ring.slots[w.ring.tail].wrId == w.posted[w.retired].wrId
  {
    hide RingOk, PostedOk, PosterOk, FilledOk, SentOk, ShapeOk, DoneOk, FinalLen;
  }

  lemma DoneCount(w: Wq)
    requires DataOk(w)
    ensures |w.done| == w.retired + (if Completed(w.worker) then 1 else 0) <= |w.posted|
    ensures Refines(w.ring, w.posted, w.retired, if Busy(w.worker) then w.retired + 1 else w.retired)
  {
    hide PostedOk, PosterOk, FilledOk, SentOk, ShapeOk, BusyOk, DoneMatches, IsSize;
  }

  lemma SkipCompleted(live: seq<Wqe>, posted: seq<Wqe>, retired: nat, completed: bool, rest: seq<Wqe>)
    requires |live| == |posted| - retired && (completed ==> |live| > 0)
    requires forall k :: 1 <= k < |live| ==> live[k] == posted[retired + k]
    requires !completed && |live| > 0 ==> live[0].wrId == posted[retired].wrId
    requires rest == if completed then live[1..] else live
    ensures var done := retired + if completed then 1 else 0;
            && |rest| == |posted| - done
            && forall k :: 0 <= k < |rest| ==> rest[k].wrId == posted[done + k].wrId
  {
  }

  lemma UncompletedIsHistory(w: Wq)
    requires DataOk(w)
    ensures Shape(w.ring) && |w.done| <= |w.posted| && |Uncompleted(w)| == |w.posted| - |w.done|
    ensures forall k :: 0 <= k < |Uncompleted(w)| ==> Uncompleted(w)[k].wrId == w.posted[|w.done| + k].wrId
  {
    hide DataOk, Live, CircCnt, IsSize;
    DoneCount(w);
    var from := if Busy(w.worker) then w.retired + 1 else w.retired;
    LiveIsHistory(w.ring, w.posted, w.retired, from);
    if Busy(w.worker) && !Completed(w.worker) { BusySlotId(w); }
    SkipCompleted(Live(w.ring), w.posted, w.retired, Completed(w.worker), Uncompleted(w));
  }

  /**
   Conservation. In every reachable state, what has been polled and what waits in the completion queue for
   work queue `i`, in this order, are exactly the completions its worker generated and the CQ took; and
   every posted request is polled, queued, dropped, or still in the ring.
   */
  lemma FifoConservation(s: System, i: nat)
    requires Reachable(s) && i < |s.wqs|
    ensures Shape(s.wqs[i].ring) && Shape(s.cq.ring)
    ensures var w := s.wqs[i];
            var polled := ProjectWc(s.cq.polled, w.qp, OpcodeOf(w.kind));
            var queued := ProjectWc(Queued(s), w.qp, OpcodeOf(w.kind));
            && polled + queued == WcsOf(TakenByCq(w.done))
            && |w.posted| == |polled| + |queued| + Dropped(w.done) + |Uncompleted(w)|
  {
    ReachableQueue(s, i);
    var w := s.wqs[i];
    PolledThenQueued(s);
    UncompletedIsHistory(w);
    hide DataOk, ThreadsOk, CritOk, CqRingOk, Queued, Uncompleted, WcsOf;
    ProjectConcat(s.cq.polled, Queued(s), w.qp, OpcodeOf(w.kind));
    ProjectCommutes(s.cq.pushed, w.qp, OpcodeOf(w.kind));
    AcceptedCount(w.done);
    WcsLength(TakenByCq(w.done));
  }

  lemma WcsLength(cs: seq<Cqe>)
    ensures |WcsOf(cs)| == |cs|
  {
  }

  function Ids(ws: seq<Wc>): seq<nat> {
    seq(|ws|, k requires 0 <= k < |ws| => ws[k].wrId)
  }

  function WqeIds(ws: seq<Wqe>): seq<nat> {
    seq(|ws|, k requires 0 <= k < |ws| => ws[k].wrId)
  }

  /** The identifiers of the requests posted to a queue, in the 32 bits that an element keeps. */
  function RequestIds(origin: seq<Origin>): seq<nat> {
    seq(|origin|, k requires 0 <= k < |origin| => origin[k].req.wrId % U32)
  }

  lemma PostedIds(w: Wq, k: nat)
    requires DataOk(w) && k < |w.posted|
    ensures |w.origin| == |w.posted| && w.posted[k].wrId == w.origin[k].req.wrId % U32
  {
    hide RingOk, PosterOk, FilledOk, BusyOk, DoneOk, SentOk, ShapeOk, WellFormed, Gather.Accepted;
    assert OriginOk(w.pageSize, w.kind, w.qp, w.origin[k], w.posted[k]);
  }

  lemma DoneIds(w: Wq, k: nat)
    requires DataOk(w) && k < |w.done|
    ensures k < |w.posted| && w.done[k].cqe.wrId == w.posted[k].wrId
  {
    hide RingOk, PostedOk, PosterOk, FilledOk, BusyOk, SentOk, ShapeOk, FinalLen;
  }

  /**
   First in, first out: as long as the CQ has dropped nothing of queue `i`, the identifiers of its polled
   completions, of its queued completions and of the elements not yet completed, one after another, are
   those of the posted requests, each once and in the order of posting.
   */
  lemma FifoOrder(s: System, i: nat)
    requires Reachable(s) && i < |s.wqs| && Dropped(s.wqs[i].done) == 0
    ensures Shape(s.wqs[i].ring) && Shape(s.cq.ring)
    ensures var w := s.wqs[i];
            && Ids(ProjectWc(s.cq.polled, w.qp, OpcodeOf(w.kind)))
             + Ids(ProjectWc(Queued(s), w.qp, OpcodeOf(w.kind)))
             + WqeIds(Uncompleted(w))
            == RequestIds(w.origin)
  {
    hide Reachable, DataOk, ThreadsOk, CritOk, CqRingOk, Queued, Uncompleted, ProjectWc, Project, TakenByCq, Dropped;
    hide Ids, WqeIds, RequestIds, WcsOf;
    FifoConservation(s, i);
    ReachableQueue(s, i);
    var w := s.wqs[i];
    DoneThenUncompleted(w);
    IdsSplit(ProjectWc(s.cq.polled, w.qp, OpcodeOf(w.kind)), ProjectWc(Queued(s), w.qp, OpcodeOf(w.kind)),
             TakenByCq(w.done), w, Uncompleted(w));
  }

  lemma DoneThenUncompleted(w: Wq)
    requires DataOk(w) && Dropped(w.done) == 0
    ensures Shape(w.ring)
    ensures var taken, rest := TakenByCq(w.done), Uncompleted(w);
            && |taken| + |rest| == |w.origin|
            && (forall k :: 0 <= k < |taken| ==> taken[k].wrId == w.origin[k].req.wrId % U32)
            && (forall k :: 0 <= k < |rest| ==> rest[k].wrId == w.origin[|taken| + k].req.wrId % U32)
  {
    hide DataOk, Uncompleted, TakenByCq, Dropped;
    AcceptedAll(w.done);
    UncompletedIsHistory(w);
    OriginCount(w);
    forall k {:trigger w.posted[k]} | 0 <= k < |w.posted|
      ensures w.posted[k].wrId == w.origin[k].req.wrId % U32
    {
      PostedIds(w, k);
    }
    forall k {:trigger w.done[k]} | 0 <= k < |w.done|
      ensures w.done[k].cqe.wrId == w.posted[k].wrId
    {
      DoneIds(w, k);
    }
  }

  lemma OriginCount(w: Wq)
    requires DataOk(w)
    ensures |w.origin| == |w.posted|
  {
    hide RingOk, PosterOk, FilledOk, BusyOk, DoneOk, SentOk, ShapeOk, OriginOk;
  }

  lemma IdsSplit(polled: seq<Wc>, queued: seq<Wc>, taken: seq<Cqe>, w: Wq, rest: seq<Wqe>)
    requires polled + queued == WcsOf(taken)
    requires |taken| + |rest| == |w.origin|
    requires forall k :: 0 <= k < |taken| ==> taken[k].wrId == w.origin[k].req.wrId % U32
    requires forall k :: 0 <= k < |rest| ==> rest[k].wrId == w.origin[|taken| + k].req.wrId % U32
    ensures Ids(polled) + Ids(queued) + WqeIds(rest) == RequestIds(w.origin)
  {
    var all := Ids(polled) + Ids(queued) + WqeIds(rest);
    assert |polled| + |queued| == |taken|;
    forall k | 0 <= k < |w.origin|
      ensures all[k] == RequestIds(w.origin)[k]
    {
      if k < |taken| {
        assert (polled + queued)[k] == WcsOf(taken)[k];
      }
    }
  }

  // ---------- what a user sees of one request ----------

  lemma BuiltAt(w: Wq, k: nat)
    requires DataOk(w) && k < |w.posted|
    ensures |w.origin| == |w.posted|
    ensures Built(w.pageSize, w.origin[k].mrs, w.origin[k].req, w.kind, w.qp, w.posted[k])
  {
    hide RingOk, PosterOk, FilledOk, BusyOk, DoneOk, SentOk, ShapeOk, WellFormed, Gather.Accepted;
    assert OriginOk(w.pageSize, w.kind, w.qp, w.origin[k], w.posted[k]);
  }

  lemma DoneAt(w: Wq, k: nat)
    requires DataOk(w) && k < |w.done|
    ensures k < |w.posted| && DoneMatches(w.kind, w.posted[k], w.done[k])
  {
    hide RingOk, PostedOk, PosterOk, FilledOk, BusyOk, SentOk, ShapeOk, DoneMatches;
  }

  /**
   End to end: the k-th completion polled from a queue that lost none is the completion of its k-th request.
   Queue pair and direction are the request's own and the identifier survives modulo 2^32. The byte count,
   modulo 2^16, is the request's whole length on success, and after a stop what was still missing; a
   successful receive got every byte.
   */
  lemma PolledCompletion(s: System, i: nat, k: nat)
    requires Reachable(s) && i < |s.wqs| && Dropped(s.wqs[i].done) == 0
    requires MAX_IOVLEN * s.wqs[i].pageSize <= U32
    requires k < |ProjectWc(s.cq.polled, s.wqs[i].qp, OpcodeOf(s.wqs[i].kind))|
    ensures var w := s.wqs[i];
            var wc := ProjectWc(s.cq.polled, w.qp, OpcodeOf(w.kind))[k];
            && k < |w.done| && k < |w.origin| && w.origin[k].req.numSge <= |w.origin[k].req.sgList|
            && wc.qp == w.qp && wc.opcode == OpcodeOf(w.kind)
            && wc.wrId == w.origin[k].req.wrId % U32
            && (wc.status == Success ==> wc.byteLen == Length(w.origin[k].req) % U16)
            && (wc.status == Success && w.kind == RQ ==> w.done[k].got == Length(w.origin[k].req))
            && w.done[k].got <= Length(w.origin[k].req)
            && (wc.status != Success ==> wc.byteLen == (Length(w.origin[k].req) - w.done[k].got) % U16)
  {
    hide Reachable, DataOk, ThreadsOk, CritOk, CqRingOk, Queued, Uncompleted, ProjectWc, Project, TakenByCq, Dropped;
    hide WellFormed, Gather.Accepted, Entries, IovLen;
    FifoConservation(s, i);
    ReachableQueue(s, i);
    var w := s.wqs[i];
    AcceptedAll(w.done);
    var polled, queued := ProjectWc(s.cq.polled, w.qp, OpcodeOf(w.kind)), ProjectWc(Queued(s), w.qp, OpcodeOf(w.kind));
    assert polled[k] == (polled + queued)[k] == MakeWc(w.done[k].cqe);
    DoneAt(w, k);
    BuiltAt(w, k);
    BuiltLength(w.pageSize, w.origin[k], w.kind, w.qp, w.posted[k]);
  }

  lemma BuiltLength(P: nat, o: Origin, kind: Kind, qp: nat, w: Wqe)
    requires Built(P, o.mrs, o.req, kind, qp, w) && MAX_IOVLEN * P <= U32
    ensures o.req.numSge <= |o.req.sgList| && w.byteLen == Length(o.req)
  {
    ByteLenExact(P, o.mrs, o.req);
  }

  // ---------- exactly-once sending ----------

  lemma SentAt(w: Wq)
    requires DataOk(w) && w.kind == SQ
    ensures |w.sent| <= |w.posted|
    ensures forall k :: 0 <= k < |w.sent| ==> w.sent[k] == MsgOf(w.posted[k])
    ensures |w.sent| == SentCount(w.done, SendPending(w.worker))
  {
    hide RingOk, PostedOk, PosterOk, FilledOk, BusyOk, DoneOk, ShapeOk, MsgOf;
  }

  /**
   Exactly once, in order: in every reachable state the messages that the transport has accepted from a
   send queue are those of a prefix of its posted requests, one message each. Reading a message's size in
   bytes through its I/O vector visits the translated address of every byte of its request.
   */
  lemma SendsExactlyOnce(s: System, i: nat, k: nat)
    requires Reachable(s) && i < |s.wqs| && s.wqs[i].kind == SQ && k < |s.wqs[i].sent|
    requires MAX_IOVLEN * s.wqs[i].pageSize <= U32
    ensures var w := s.wqs[i];
            && |w.sent| <= |w.posted| == |w.origin|
            && w.sent[k] == MsgOf(w.posted[k])
            && WellFormed(w.pageSize, w.origin[k].mrs, w.origin[k].req)
            && AllResolved(w.pageSize, w.origin[k].mrs, w.origin[k].req)
            && w.sent[k].size == Length(w.origin[k].req) <= |Bytes(w.sent[k].iov)|
            && Bytes(w.sent[k].iov)[..w.sent[k].size] == RequestAddresses(w.pageSize, w.origin[k].mrs, w.origin[k].req)
  {
    ReachableQueue(s, i);
    var w := s.wqs[i];
    SentAt(w);
    BuiltAt(w, k);
    MessageReadsRequest(w.pageSize, w.origin[k].mrs, w.origin[k].req, w.kind, w.qp, w.posted[k]);
    hide Reachable, DataOk, ThreadsOk, CritOk, CqRingOk, RequestAddresses, Bytes, MsgOf;
    hide WellFormed, AllResolved, Length, Built, Segments;
  }

  lemma SlotAt(w: Wq)
    requires DataOk(w) && (w.worker.WTry? || w.worker.WXfer?)
    ensures Shape(w.ring) && w.retired < |w.posted|
    ensures w.ring.slots[w.ring.tail] == w.posted[w.retired].(byteLen := w.worker.left)
    ensures w.worker.total == w.posted[w.retired].byteLen && w.got + w.worker.left == w.worker.total
    ensures w.kind == SQ ==> w.got == 0
  {
    RingShape(w);
    hide RingOk, PostedOk, PosterOk, FilledOk, SentOk, ShapeOk, DoneOk, IsSize;
  }

  /**
   Partial receives: at the loop head, the bytes received so far and the bytes still asked for, which the
   slot holds, add up to the length of the request.
   */
  lemma ReceiveAccountingInRun(s: System, i: nat)
    requires Reachable(s) && i < |s.wqs| && s.wqs[i].worker.WTry?
    requires MAX_IOVLEN * s.wqs[i].pageSize <= U32
    ensures var w := s.wqs[i];
            && Shape(w.ring) && w.retired < |w.origin|
            && w.origin[w.retired].req.numSge <= |w.origin[w.retired].req.sgList|
            && w.got + w.ring.slots[w.ring.tail].byteLen == Length(w.origin[w.retired].req)
  {
    ReachableQueue(s, i);
    var w := s.wqs[i];
    SlotAt(w);
    BuiltAt(w, w.retired);
    hide Reachable, DataOk, ThreadsOk, CritOk, CqRingOk, Project, TakenByCq, Built;
    BuiltLength(w.pageSize, w.origin[w.retired], w.kind, w.qp, w.posted[w.retired]);
  }

  // ---------- slots under interleaving ----------

  /**
   Slot safety of a work queue. While a poster writes the slot at the head there is room to publish it, so the
   slot is neither live nor the one the worker is processing. The worker only processes a published slot, which
   still holds what was posted, but for the byte count of a receive in progress; and no other live slot has
   changed since it was published.
   */
  lemma WqeSlotSafety(s: System, i: nat)
    requires Reachable(s) && i < |s.wqs|
    ensures var w := s.wqs[i]; var r := w.ring;
            && Shape(r)
            && (forall k :: w.retired <= k < |w.posted| ==> k % r.size != r.head)
            && (w.poster.PTear? || w.poster.PBuild? || w.poster.PPublish? ==> |w.posted| - w.retired <= r.size - 2)
            && (Busy(w.worker) ==> w.retired < |w.posted| && r.tail == w.retired % r.size && r.tail != r.head)
            && (Busy(w.worker) && !Completed(w.worker) ==>
                  r.slots[r.tail] == w.posted[w.retired].(byteLen := r.slots[r.tail].byteLen))
            && (forall k :: w.retired <= k < |w.posted| && !(Busy(w.worker) && k == w.retired) ==>
                  r.slots[k % r.size] == w.posted[k])
  {
    ReachableQueue(s, i);
    var w := s.wqs[i];
    hide Reachable, DataOk, ThreadsOk, CritOk, CqRingOk, Refines, Project, TakenByCq;
    DoneCount(w);
    RingShape(w);
    LiveSlots(w.ring, w.posted, w.retired, if Busy(w.worker) then w.retired + 1 else w.retired);
    if Busy(w.worker) && !Completed(w.worker) { BusySlot(w); }
    PosterRoom(w);
  }

  lemma BusySlot(w: Wq)
    requires DataOk(w) && Busy(w.worker) && !Completed(w.worker)
    ensures w.ring.tail < |w.ring.slots| && w.retired < |w.posted|
    ensures w.ring.slots[w.ring.tail] == w.posted[w.retired].(byteLen := w.ring.slots[w.ring.tail].byteLen)
  {
    hide RingOk, PostedOk, PosterOk, FilledOk, SentOk, ShapeOk, DoneOk, FinalLen;
  }

  lemma PosterRoom(w: Wq)
    requires DataOk(w)
    ensures PosterOk(w.ring, w.posted, w.retired, w.poster)
  {
    hide RingOk, PostedOk, PosterOk, FilledOk, SentOk, ShapeOk, DoneOk, BusyOk;
  }

  lemma LockAt(s: System, i: nat)
    requires Inv(s) && i < |s.wqs|
    ensures InCritical(s.wqs[i].worker) <==> s.cq.lock == Held(i)
  {
    hide QueueOk, CqRingOk, DistinctQueues, SumDone;
  }

  /**
   Slot safety of the completion queue with many producers and one poller. At most one worker is in the
   critical section; a worker that writes the slot at the head has room to publish it and writes no live slot,
   so never the one the poller is copying; the poller copies and retires only a published completion, unaltered;
   and no live slot has changed since it was published.
   */
  lemma CqeSlotSafety(s: System, i: nat, j: nat)
    requires Reachable(s) && i < |s.wqs| && j < |s.wqs|
    ensures InCritical(s.wqs[i].worker) && InCritical(s.wqs[j].worker) ==> i == j
    ensures var cq := s.cq; var r := cq.ring;
            && Shape(r)
            && (forall k :: |cq.polled| <= k < |cq.pushed| ==>
                  k % r.size != r.head && r.slots[k % r.size] == cq.pushed[k])
            && (s.wqs[i].worker.WPost? && s.wqs[i].worker.stage in {CTear, CFill, CPublish} ==>
                  |cq.pushed| - |cq.polled| <= r.size - 2)
            && (!cq.poller.PollIdle? ==>
                  && |cq.polled| < |cq.pushed| && r.tail != r.head
                  && r.slots[r.tail] == cq.pushed[|cq.polled|])
            && (cq.poller.PollRetire? ==> cq.poller.wc == MakeWc(cq.pushed[|cq.polled|]))
  {
    ReachableInv(s);
    LockAt(s, i);
    LockAt(s, j);
    ReachableQueue(s, i);
    hide Reachable, Inv, WqInv, Refines, Project, TakenByCq, Completion, InCritical;
    LiveSlots(s.cq.ring, s.cq.pushed, |s.cq.polled|, |s.cq.polled|);
  }

  // ---------- no lost wake-up ----------

  /**
   No lost wake-up: when the worker is at its wait and the ring is not empty, the flag says so or a poster
   is on its way to set it and will not be refused, because the state is no longer uninitialized.
   */
  lemma NoLostWakeup(s: System, i: nat)
    requires Reachable(s) && i < |s.wqs| && s.wqs[i].worker == WWait
    ensures var w := s.wqs[i];
            && Shape(w.ring)
            && (CircCnt(w.ring.head, w.ring.tail, w.ring.size) > 0 ==>
                  w.flag == PostFlag || w.poster == PSetFlag || (w.poster == PNotify && w.state != Uninitialized))
  {
    ReachableQueue(s, i);
    var w := s.wqs[i];
    RingShape(w);
    OldestSlot(w);
    hide Reachable, DataOk, CritOk, CqRingOk, CircCnt, Project, TakenByCq;
  }

  lemma RingShape(w: Wq)
    requires DataOk(w)
    ensures Shape(w.ring) && w.retired <= |w.posted|
    ensures RingOk(w.ring, w.posted, w.retired, Busy(w.worker))
  {
    hide PostedOk, PosterOk, FilledOk, SentOk, ShapeOk, DoneOk, BusyOk, IsSize;
  }
}

/**
 A worker's processing of its queue: retrying one transfer until it succeeds or the thread is told
 to stop, accounting for partial receives, and draining the ring. The transport is an oracle: a
 script lists the outcomes of its calls, and the stop request is seen when the script is used up.
 */
module Worker {
  import opened Circ
  import opened WorkElement
  import opened WorkQueue
  import opened CompletionQueue

  /** A transfer call fails, or moves some bytes; the count is looked at only when receiving. */
  datatype Xfer = Failed | Moved(bytes: nat)

  /** A successful receive reports at most the number of bytes it was asked for. */
  ghost predicate Honest(script: seq<Xfer>, left: nat) {
    if script == [] then true
    else match script[0]
      case Failed => Honest(script[1..], left)
      case Moved(n) => n <= left && (n < left ==> Honest(script[1..], left - n))
  }

  /** How a receive of `left` bytes ends, and how many bytes are then missing. */
  function Receive(script: seq<Xfer>, left: nat): (Status, nat) {
    if script == [] then (RespTimeoutErr, left)
    else match script[0]
      case Failed => Receive(script[1..], left)
      case Moved(n) => if n >= left then (Success, 0) else Receive(script[1..], left - n)
  }

  /** Bytes delivered by the calls that are made. */
  function Delivered(script: seq<Xfer>, left: nat): nat {
    if script == [] then 0
    else match script[0]
      case Failed => Delivered(script[1..], left)
      case Moved(n) => n + if n >= left then 0 else Delivered(script[1..], left - n)
  }

  /** Nothing is lost or counted twice: success means all bytes came, and a stop leaves the exact remainder. */
  lemma {:induction false} ReceiveAccounting(script: seq<Xfer>, left: nat)
    requires Honest(script, left)
    ensures Delivered(script, left) + Receive(script, left).1 == left
    ensures Receive(script, left).0 == Success ==> Delivered(script, left) == left
    ensures Receive(script, left).0 == RespTimeoutErr && left > 0 ==> Delivered(script, left) < left
  {
    if script != [] {
      match script[0]
      case Failed => ReceiveAccounting(script[1..], left);
      case Moved(n) =>
        if n < left { ReceiveAccounting(script[1..], left - n); }
    }
  }

  /** Bytes moved by the first `n` outcomes. */
  function MovedBytes(script: seq<Xfer>, n: nat): nat
    requires n <= |script|
  {
    if n == 0 then 0
    else MovedBytes(script, n - 1) + match script[n - 1] case Failed => 0 case Moved(bytes) => bytes
  }

  lemma {:induction false} MovedBytesRest(script: seq<Xfer>, n: nat)
    requires 0 < n <= |script|
    ensures MovedBytes(script, n)
            == (match script[0] case Failed => 0 case Moved(bytes) => bytes) + MovedBytes(script[1..], n - 1)
    decreases n
  {
    if n > 1 { MovedBytesRest(script, n - 1); }
  }

  /** A receive succeeds exactly if after some successful call all bytes have come. */
  lemma {:induction false} ReceiveSucceeds(script: seq<Xfer>, left: nat)
    requires Honest(script, left)
    ensures Receive(script, left).0 == Success <==>
            exists n :: 0 < n <= |script| && script[n - 1].Moved? && MovedBytes(script, n) >= left
    decreases |script|
  {
    if script != [] {
      var rest := script[1..];
      var m := match script[0] case Failed => 0 case Moved(bytes) => bytes;
      assert MovedBytes(script, 0) == 0 && MovedBytes(script, 1) == m;
      if script[0].Moved? && m >= left {
        assert script[1 - 1].Moved? && MovedBytes(script, 1) >= left;
      } else {
        ReceiveSucceeds(rest, left - m);
        if n :| 0 < n <= |rest| && rest[n - 1].Moved? && MovedBytes(rest, n) >= left - m {
          MovedBytesRest(script, n + 1);
          assert script[n + 1 - 1].Moved? && MovedBytes(script, n + 1) >= left;
        }
        if n :| 0 < n <= |script| && script[n - 1].Moved? && MovedBytes(script, n) >= left {
          MovedBytesRest(script, n);
          assert n > 1 && rest[n - 1 - 1].Moved? && MovedBytes(rest, n - 1) >= left - m;
        }
      }
    }
  }

  /** Conversion of a 32-bit word to a signed 32-bit integer and back. */
  function ToInt(u: nat): int
    requires u < U32
  {
    if u < U32 / 2 then u else u - U32
  }

  function ToWord(i: int): (u: nat)
    ensures u < U32
  {
    i % U32
  }

  /** The signed counter follows the unsigned field exactly, whatever the length. */
  lemma SignedCounter(a: nat, b: nat)
    requires b <= a < U32
    ensures ToWord(ToInt(a)) == a
    ensures ToInt(ToWord(ToInt(a) - b)) == ToInt(a - b)
    ensures ToInt(a - b) == 0 <==> a == b
  {
  }

  /**
   dis_wq_consume_one_rqe, on the element it is given: the two counters are signed integers, while
   the field they are copied from and to is unsigned. The accounting is right for every length.
   */
  method ConsumeOneRqe(wqe: Wqe, script: seq<Xfer>) returns (status: Status, wqe': Wqe)
    requires wqe.byteLen < U32 && Honest(script, wqe.byteLen)
    ensures status == Receive(script, wqe.byteLen).0
    ensures status == Success ==> wqe' == wqe
    ensures status == RespTimeoutErr ==>
              wqe' == wqe.(byteLen := wqe'.byteLen) && wqe'.byteLen + Delivered(script, wqe.byteLen) == wqe.byteLen
  {
    hide ToInt, ToWord;
    ReceiveAccounting(script, wqe.byteLen);
    SignedCounter(wqe.byteLen, 0);
    ghost var left: nat := wqe.byteLen;
    var bytesTotal := ToInt(wqe.byteLen);
    var bytesLeft := ToInt(wqe.byteLen);
    wqe' := wqe;
    var calls := 0;
    while calls < |script|
      invariant calls <= |script|
      invariant left < U32 && bytesLeft == ToInt(left) && wqe' == wqe.(byteLen := left)
      invariant Honest(script[calls..], left)
      invariant Receive(script, wqe.byteLen) == Receive(script[calls..], left)
      invariant Delivered(script, wqe.byteLen) == Delivered(script[calls..], left) + (wqe.byteLen - left)
    {
      ghost var rest := script[calls..];
      assert rest[1..] == script[calls + 1..] && rest[0] == script[calls];
      var ret := script[calls];
      if ret.Moved? {
        SignedCounter(left, ret.bytes);
        wqe' := wqe'.(byteLen := ret.bytes);
        bytesLeft := ToInt(ToWord(bytesLeft - wqe'.byteLen));
        left := left - ret.bytes;
        if bytesLeft == 0 {
          wqe' := wqe'.(byteLen := ToWord(bytesTotal));
          return Success, wqe';
        }
      }
      SignedCounter(left, 0);
      wqe' := wqe'.(byteLen := ToWord(bytesLeft));
      calls := calls + 1;
    }
    status := RespTimeoutErr;
  }

  predicate Sends(script: seq<Xfer>) {
    exists i :: 0 <= i < |script| && script[i].Moved?
  }

  /** The messages that the transport accepts in these calls, each handed `msg`. */
  function AcceptedOf(script: seq<Xfer>, msg: Msg): seq<Msg> {
    if script == [] then []
    else AcceptedOf(script[..|script| - 1], msg) + if script[|script| - 1].Moved? then [msg] else []
  }

  /**
   dis_wq_consume_one_sqe. Of the outcomes in the script, those of the first `calls` calls were drawn; `sent` lists
   the messages that these calls got accepted: the element's, once, and none if the thread is stopped before.
   */
  method ConsumeOneSqe(wqe: Wqe, script: seq<Xfer>) returns (status: Status, calls: nat, sent: seq<Msg>)
    ensures calls <= |script| && sent == AcceptedOf(script[..calls], MsgOf(wqe))
    ensures status == Success <==> Sends(script)
    ensures sent == if Sends(script) then [MsgOf(wqe)] else []
    ensures status != Success ==> calls == |script|
  {
    hide MsgOf;
    status, calls, sent := RespTimeoutErr, 0, [];
    while calls < |script|
      invariant calls <= |script| && status == RespTimeoutErr
      invariant sent == AcceptedOf(script[..calls], MsgOf(wqe)) == []
      invariant forall i :: 0 <= i < calls ==> script[i].Failed?
    {
      var ret := script[calls];
      assert script[..calls + 1][..calls] == script[..calls];
      calls := calls + 1;
      if ret.Moved? {
        sent := sent + [MsgOf(wqe)];
        status := Success;
        return;
      }
    }
  }

  // ---------- draining the ring ----------

  /** The completion of one element. */
  function Complete(kind: Kind, w: Wqe, script: seq<Xfer>): Cqe {
    match kind
    case SQ => MakeCqe(w, if Sends(script) then Success else RespTimeoutErr)
    case RQ =>
      var (status, left) := Receive(script, w.byteLen);
      MakeCqe(if status == Success then w else w.(byteLen := left), status)
  }

  /** The completions of a run over `queue`: one script per element, until one times out. */
  function Completions(kind: Kind, queue: seq<Wqe>, scripts: seq<seq<Xfer>>): seq<Cqe> {
    if queue == [] || scripts == [] then []
    else
      var c := Complete(kind, queue[0], scripts[0]);
      [c] + if c.status == Success then Completions(kind, queue[1..], scripts[1..]) else []
  }

  /** Every completion of a run but the last is a success, and they follow the order of the queue. */
  lemma {:induction false} RunShape(kind: Kind, queue: seq<Wqe>, scripts: seq<seq<Xfer>>, k: nat)
    requires k < |Completions(kind, queue, scripts)|
    ensures k < |queue| && k < |scripts|
    ensures Completions(kind, queue, scripts)[k] == Complete(kind, queue[k], scripts[k])
    ensures k + 1 < |Completions(kind, queue, scripts)| ==> Completions(kind, queue, scripts)[k].status == Success
    decreases k
  {
    if k > 0 {
      RunShape(kind, queue[1..], scripts[1..], k - 1);
    }
  }

  /** A run ends early only by a timeout: otherwise it covers the queue or uses up the scripts. */
  lemma {:induction false} RunCovers(kind: Kind, queue: seq<Wqe>, scripts: seq<seq<Xfer>>)
    ensures var cs := Completions(kind, queue, scripts);
            && |cs| <= |queue| && |cs| <= |scripts|
            && (|cs| < |queue| && |cs| < |scripts| ==> |cs| > 0 && cs[|cs| - 1].status == RespTimeoutErr)
  {
    if queue != [] && scripts != [] {
      RunCovers(kind, queue[1..], scripts[1..]);
    }
  }

  /** dis_wq_consume_one_rqe or _sqe on the oldest slot, which a receive updates in place. */
  method ConsumeOne(wq: Wq, cq: Cq, script: seq<Xfer>) returns (status: Status)
    requires wq.Valid() && cq.Valid() && |wq.Queue()| > 0
    requires wq.Queue()[0].byteLen < U32 && (wq.kind == RQ ==> Honest(script, wq.Queue()[0].byteLen))
    modifies wq.buf, cq, cq.buf
    ensures Refines(Ring(wq.size, wq.buf[..], wq.head, wq.tail), wq.history, wq.retired, wq.retired + 1)
    ensures cq.Valid()
    ensures var c := Complete(wq.kind, old(wq.Queue())[0], script);
            && status == c.status
            && cq.Pending() == old(cq.Pending()) + (if old(|cq.Pending()|) < cq.size - 1 then [c] else [])
    ensures wq.tail < wq.buf.Length
    ensures forall j :: 0 <= j < wq.buf.Length && j != wq.tail ==> wq.buf[j] == old(wq.buf[j])
  {
    ghost var r := Ring(wq.size, wq.buf[..], wq.head, wq.tail);
    var wqe := wq.buf[wq.tail];
    assert wqe == wq.Queue()[0];
    if wq.kind == RQ {
      ReceiveAccounting(script, wqe.byteLen);
      var wqe';
      status, wqe' := ConsumeOneRqe(wqe, script);
      WriteTailSlot(r, wq.history, wq.retired, wqe');
      wq.buf[wq.tail] := wqe';
    } else {
      var calls, sent;
      status, calls, sent := ConsumeOneSqe(wqe, script);
    }
    var taken := cq.PostCqe(wq.buf[wq.tail], status);
  }

  ghost predicate Transferable(kind: Kind, queue: seq<Wqe>, scripts: seq<seq<Xfer>>) {
    forall i :: 0 <= i < |queue| ==>
      queue[i].byteLen < U32 && (kind == RQ && i < |scripts| ==> Honest(scripts[i], queue[i].byteLen))
  }

  /** One turn of the loop of dis_wq_consume_all: complete the oldest element, free its map, retire it. */
  method ConsumeAndRetire(wq: Wq, cq: Cq, script: seq<Xfer>) returns (status: Status)
    requires wq.Valid() && cq.Valid() && |wq.Queue()| > 0 && wq.buf as object != cq.buf as object
    requires wq.Queue()[0].byteLen < U32 && (wq.kind == RQ ==> Honest(script, wq.Queue()[0].byteLen))
    modifies wq`tail, wq`retired, wq.buf, cq, cq.buf
    ensures wq.Valid() && cq.Valid() && wq.history == old(wq.history)
    ensures wq.Queue() == old(wq.Queue())[1..]
    ensures var c := Complete(wq.kind, old(wq.Queue())[0], script);
            && status == c.status
            && cq.Pending() == old(cq.Pending()) + (if old(|cq.Pending()|) < cq.size - 1 then [c] else [])
    ensures old(wq.tail) < wq.buf.Length && !wq.buf[old(wq.tail)].dynamic
    ensures forall j :: 0 <= j < wq.buf.Length && j != old(wq.tail) ==> wq.buf[j] == old(wq.buf[j])
    ensures wq.retired == old(wq.retired) + 1
  {
    status := ConsumeOne(wq, cq, script);
    ghost var r := Ring(wq.size, wq.buf[..], wq.head, wq.tail);
    WriteTailSlot(r, wq.history, wq.retired, wq.buf[wq.tail].(dynamic := false));
    wq.buf[wq.tail] := wq.buf[wq.tail].(dynamic := false);
    r := Ring(wq.size, wq.buf[..], wq.head, wq.tail);
    RetireTail(r, wq.history, wq.retired, wq.retired + 1);
    wq.tail := Next(wq.tail, wq.size);
    wq.retired := wq.retired + 1;
  }

  /** While every completion so far is a success, the next element is completed next. */
  lemma RunContinues(kind: Kind, queue: seq<Wqe>, scripts: seq<seq<Xfer>>, k: nat)
    requires k < |queue| && k < |scripts| && k <= |Completions(kind, queue, scripts)|
    requires k > 0 ==> Completions(kind, queue, scripts)[k - 1].status == Success
    ensures var cs := Completions(kind, queue, scripts);
            && k < |cs| && cs[k] == Complete(kind, queue[k], scripts[k])
            && (cs[k].status != Success ==> k + 1 == |cs|)
  {
    RunCovers(kind, queue, scripts);
    RunShape(kind, queue, scripts, k);
  }

  /** What a full ring has taken of a list after `k` attempts. */
  ghost function Taken(pending: seq<Cqe>, cs: seq<Cqe>, k: nat, capacity: nat): seq<Cqe>
    requires k <= |cs| && |pending| <= capacity
  {
    pending + cs[..Min(k, capacity - |pending|)]
  }

  lemma TakenNone(pending: seq<Cqe>, cs: seq<Cqe>, capacity: nat)
    requires |pending| <= capacity
    ensures Taken(pending, cs, 0, capacity) == pending
  {
  }

  lemma TakenStep(pending: seq<Cqe>, cs: seq<Cqe>, k: nat, capacity: nat)
    requires k < |cs| && |pending| <= capacity
    ensures var p := Taken(pending, cs, k, capacity);
            Taken(pending, cs, k + 1, capacity) == p + (if |p| < capacity then [cs[k]] else [])
  {
  }

  lemma AtLoopHead(wq: Wq)
    requires wq.Valid()
    ensures wq.size >= 1 && wq.buf.Length == wq.size && wq.tail < wq.size && wq.tail == wq.retired % wq.size
    ensures wq.retired <= |wq.history| && CircCnt(wq.head, wq.tail, wq.size) == |wq.Queue()|
  {
    hide CircCnt, IsSize;
    var r := Ring(wq.size, wq.buf[..], wq.head, wq.tail);
    LiveSlots(r, wq.history, wq.retired, wq.retired);
    RingCounts(r, wq.history, wq.retired, wq.retired);
  }

  /** The slots of the elements from number `a` up to `b`, which have left the ring, hold no map any more. */
  ghost predicate Freed(slots: seq<Wqe>, a: nat, b: nat) {
    |slots| >= 1 && forall n :: a <= n < b ==> !slots[n % |slots|].dynamic
  }

  lemma FreedNone(slots: seq<Wqe>, a: nat)
    requires |slots| >= 1
    ensures Freed(slots, a, a)
  {
  }

  lemma FreedMore(slots: seq<Wqe>, slots': seq<Wqe>, a: nat, b: nat)
    requires Freed(slots, a, b) && |slots'| == |slots| && !slots'[b % |slots|].dynamic
    requires forall j :: 0 <= j < |slots| && j != b % |slots| ==> slots'[j] == slots[j]
    ensures Freed(slots', a, b + 1)
  {
    forall n | a <= n < b + 1
      ensures !slots'[n % |slots|].dynamic
    {
      if n < b { assert !slots[n % |slots|].dynamic; }
    }
  }

  /**
   dis_wq_consume_all: completes the elements in order until the ring is empty or the thread is
   told to stop, retiring each one. The completion ring takes them while it has space.
   */
  method ConsumeAll(wq: Wq, cq: Cq, scripts: seq<seq<Xfer>>) returns (stopped: bool)
    requires wq.Valid() && cq.Valid() && wq.buf as object != cq.buf as object
    requires Transferable(wq.kind, wq.Queue(), scripts)
    modifies wq`tail, wq`retired, wq.buf, cq, cq.buf
    ensures wq.Valid() && cq.Valid() && wq.history == old(wq.history)
    ensures var cs := Completions(wq.kind, old(wq.Queue()), scripts);
            && |cs| <= old(|wq.Queue()|)
            && wq.Queue() == old(wq.Queue())[|cs|..]
            && old(|cq.Pending()|) <= cq.size - 1
            && cq.Pending() == Taken(old(cq.Pending()), cs, |cs|, cq.size - 1)
            && (!stopped ==> wq.Queue() == [])
            && (stopped <==> |cs| == |scripts| || (|cs| > 0 && cs[|cs| - 1].status != Success))
    ensures wq.size >= 1 && wq.buf.Length == wq.size && old(wq.retired) <= wq.retired
    ensures Freed(wq.buf[..], old(wq.retired), wq.retired)
  {
    hide Completions, Complete, Honest, CircCnt, Refines, Taken, Freed;
    ghost var queue, pending := wq.Queue(), cq.Pending();
    RingFits(Ring(cq.size, cq.buf[..], cq.head, cq.tail), cq.history, cq.retired, cq.retired);
    ghost var cs := Completions(wq.kind, queue, scripts);
    RunCovers(wq.kind, queue, scripts);
    TakenNone(pending, cs, cq.size - 1);
    AtLoopHead(wq);
    FreedNone(wq.buf[..], wq.retired);
    var k := 0;
    var status := Success;
    while k < |scripts| && status == Success
      invariant k <= |scripts| && k <= |cs|
      invariant wq.Valid() && cq.Valid() && wq.history == old(wq.history)
      invariant wq.Queue() == queue[k..]
      invariant if k == 0 then status == Success else cs[k - 1].status == status
      invariant status != Success ==> k == |cs|
      invariant cq.Pending() == Taken(pending, cs, k, cq.size - 1)
      invariant wq.size >= 1 && wq.buf.Length == wq.size && wq.retired == old(wq.retired) + k
      invariant Freed(wq.buf[..], old(wq.retired), wq.retired)
      decreases |scripts| - k
    {
      AtLoopHead(wq);
      if CircCnt(wq.head, wq.tail, wq.size) < 1 {
        return false;
      }
      RunContinues(wq.kind, queue, scripts, k);
      TakenStep(pending, cs, k, cq.size - 1);
      assert queue[k..][0] == queue[k] && queue[k..][1..] == queue[k + 1..];
      ghost var slots := wq.buf[..];
      status := ConsumeAndRetire(wq, cq, scripts[k]);
      FreedMore(slots, wq.buf[..], old(wq.retired), wq.retired - 1);
      k := k + 1;
    }
    stopped := true;
  }
}

/**
 Message-queue identifiers. Each work queue is bound to a message queue named by a local and a remote id.
 Receive queues of the initiator are even and of the responder odd; send queues the other way round, so that
 a send queue names the peer's receive queue of the same number. A queue takes over its queue pair's number
 only when the transition to RTR comes with a destination number; otherwise its number stays 0.
 */
module QueuePairing {
  import opened WorkElement
  import PD = ProtectionDomain

  /** The ids under which a work queue is created or connected. */
  datatype MsqIds = MsqIds(local: int, remote: int)

  /** dis_sci_if_create_msq, up to the call of the library: the ids of a receive queue. */
  method CreateMsqIds(lQpn: nat, rQpn: nat, isInitiator: bool, useLQpn: bool) returns (ids: MsqIds)
    ensures ids == IdsOf(RQ, lQpn, rQpn, isInitiator, useLQpn)
  {
    var lMsqId := lQpn;
    var rMsqId := if useLQpn then lQpn else rQpn;
    lMsqId := if isInitiator then lMsqId * 2 else lMsqId * 2 + 1;
    rMsqId := if isInitiator then rMsqId * 2 else rMsqId * 2 + 1;
    ids := MsqIds(lMsqId, rMsqId);
  }

  /** dis_sci_if_connect_msq, up to the call of the library: the ids of a send queue. */
  method ConnectMsqIds(lQpn: nat, rQpn: nat, isInitiator: bool, useLQpn: bool) returns (ids: MsqIds)
    ensures ids == IdsOf(SQ, lQpn, rQpn, isInitiator, useLQpn)
  {
    var lMsqId := lQpn;
    var rMsqId := if useLQpn then lQpn else rQpn;
    lMsqId := if isInitiator then lMsqId * 2 + 1 else lMsqId * 2;
    rMsqId := if isInitiator then rMsqId * 2 + 1 else rMsqId * 2;
    ids := MsqIds(lMsqId, rMsqId);
  }

  /** The parity of a queue's ids: whether its direction and its node's role are unlike. */
  function Parity(kind: Kind, isInitiator: bool): int {
    if (kind == SQ) == isInitiator then 1 else 0
  }

  function IdsOf(kind: Kind, lQpn: nat, rQpn: nat, isInitiator: bool, useLQpn: bool): MsqIds {
    var p := Parity(kind, isInitiator);
    MsqIds(2 * lQpn + p, 2 * (if useLQpn then lQpn else rQpn) + p)
  }

  /** Two message queues are ends of one connection: each names the other. */
  predicate Matches(a: MsqIds, b: MsqIds) {
    a.local == b.remote && a.remote == b.local
  }

  lemma LocalIdsInjective(k1: Kind, q1: nat, r1: nat, k2: Kind, q2: nat, r2: nat, isInitiator: bool, useLQpn: bool)
    ensures IdsOf(k1, q1, r1, isInitiator, useLQpn).local == IdsOf(k2, q2, r2, isInitiator, useLQpn).local
            <==> k1 == k2 && q1 == q2
  {
    var a, b := 2 * q1 + Parity(k1, isInitiator), 2 * q2 + Parity(k2, isInitiator);
    assert a % 2 == Parity(k1, isInitiator) && b % 2 == Parity(k2, isInitiator);
  }

  // ---------- from the queue pair to its queues ----------

  /** A queue pair, the attribute mask of whose transition to RTR has IB_QP_DEST_QPN set or not. */
  datatype Rtr = Rtr(qpn: nat, destQpn: bool)

  /** The number, local and remote, under which the queues of the queue pair go. */
  function QueueNumber(q: Rtr): nat {
    if q.destQpn then q.qpn else 0
  }

  function RtrIds(kind: Kind, q: Rtr, isInitiator: bool, useLQpn: bool): MsqIds {
    IdsOf(kind, QueueNumber(q), QueueNumber(q), isInitiator, useLQpn)
  }

  /** The numbers that a work queue keeps. */
  datatype Numbers = Numbers(local: nat, remote: nat)

  /** The fields of a queue pair that its message queues are named by. */
  class Qp {
    const lQpn: nat
    var rQpn: nat
    var rq: Numbers
    var sq: Numbers

    /** dis_create_qp, on zeroed memory. */
    constructor (qpn: nat)
      ensures lQpn == qpn && rq == sq == Numbers(0, 0)
    {
      lQpn, rQpn := qpn, 0;
      rq, sq := Numbers(0, 0), Numbers(0, 0);
    }

    /** dis_modify_qp to RTR, for the first time, and the two workers up to their calls of the library. */
    method ToRtr(destQpn: bool, isInitiator: bool, useLQpn: bool) returns (rqIds: MsqIds, sqIds: MsqIds)
      requires rq == sq == Numbers(0, 0)
      modifies this
      ensures rqIds == RtrIds(RQ, Rtr(lQpn, destQpn), isInitiator, useLQpn)
      ensures sqIds == RtrIds(SQ, Rtr(lQpn, destQpn), isInitiator, useLQpn)
    {
      if destQpn {
        rQpn := lQpn;
        rq := Numbers(lQpn, rQpn);
        sq := Numbers(lQpn, rQpn);
      }
      rqIds := CreateMsqIds(rq.local, rq.remote, isInitiator, useLQpn);
      sqIds := ConnectMsqIds(sq.local, sq.remote, isInitiator, useLQpn);
    }
  }

  /** Different numbers, none of them the 0 of a queue without one. */
  ghost predicate Issued(qps: seq<Rtr>) {
    && (forall a :: 0 <= a < |qps| ==> qps[a].qpn >= PD.QP_INI)
    && (forall a, b :: 0 <= a < b < |qps| ==> qps[a].qpn != qps[b].qpn)
  }

  /** The queue pairs created by the calls `made` of a domain's run, each taken to RTR once. */
  ghost predicate Created(P: nat, states: seq<PD.State>, calls: seq<PD.Call>, made: seq<nat>, qps: seq<Rtr>) {
    && PD.IsRun(P, states, calls)
    && |made| == |qps|
    && (forall a :: 0 <= a < |made| ==> CreatedBy(states, calls, made[a], qps[a]))
    && (forall a, b :: 0 <= a < b < |made| ==> made[a] != made[b])
  }

  ghost predicate CreatedBy(states: seq<PD.State>, calls: seq<PD.Call>, k: nat, q: Rtr) {
    && k < |calls| && k < |states|
    && calls[k].CreateQp? && PD.Succeeds(states[k], calls[k])
    && q.qpn == states[k].qpC
  }

  lemma NumbersAreIssued(P: nat, states: seq<PD.State>, calls: seq<PD.Call>, made: seq<nat>, qps: seq<Rtr>)
    requires Created(P, states, calls, made, qps)
    ensures Issued(qps)
  {
    hide PD.IsRun, PD.Succeeds, PD.HeapExact;
    forall a | 0 <= a < |qps|
      ensures qps[a].qpn >= PD.QP_INI
    {
      assert CreatedBy(states, calls, made[a], qps[a]);
      PD.RunConserves(P, states, calls, made[a]);
    }
    forall a, b | 0 <= a < b < |qps|
      ensures qps[a].qpn != qps[b].qpn
    {
      assert CreatedBy(states, calls, made[a], qps[a]) && CreatedBy(states, calls, made[b], qps[b]);
      if made[a] < made[b] {
        PD.NeverReissued(P, states, calls, made[a], made[b]);
      } else {
        PD.NeverReissued(P, states, calls, made[b], made[a]);
      }
    }
  }

  // ---------- the local ids of a node ----------

  ghost predicate SameLocal(qps: seq<Rtr>, a: nat, ka: Kind, b: nat, kb: Kind, isInitiator: bool, useLQpn: bool)
    requires a < |qps| && b < |qps|
  {
    RtrIds(ka, qps[a], isInitiator, useLQpn).local == RtrIds(kb, qps[b], isInitiator, useLQpn).local
  }

  /** No two queues have the same local id. */
  ghost predicate LocalsDiffer(qps: seq<Rtr>, isInitiator: bool, useLQpn: bool) {
    forall a, ka, b, kb :: 0 <= a < |qps| && 0 <= b < |qps| && SameLocal(qps, a, ka, b, kb, isInitiator, useLQpn) ==>
      a == b && ka == kb
  }

  ghost predicate AtMostOneWithout(qps: seq<Rtr>) {
    forall a, b :: 0 <= a < b < |qps| ==> qps[a].destQpn || qps[b].destQpn
  }

  /**
   The local ids of all queues of all queue pairs of one domain that were ever taken to RTR differ exactly if
   at most one of these queue pairs went there without a destination number.
   */
  lemma LocalIdsDistinct(P: nat, states: seq<PD.State>, calls: seq<PD.Call>, made: seq<nat>, qps: seq<Rtr>,
                         isInitiator: bool, useLQpn: bool)
    requires Created(P, states, calls, made, qps)
    ensures LocalsDiffer(qps, isInitiator, useLQpn) <==> AtMostOneWithout(qps)
  {
    NumbersAreIssued(P, states, calls, made, qps);
    hide Created, IdsOf;
    forall a, ka, b, kb | 0 <= a < |qps| && 0 <= b < |qps|
      ensures SameLocal(qps, a, ka, b, kb, isInitiator, useLQpn)
              <==> ka == kb && QueueNumber(qps[a]) == QueueNumber(qps[b])
    {
      var m, n := QueueNumber(qps[a]), QueueNumber(qps[b]);
      LocalIdsInjective(ka, m, m, kb, n, n, isInitiator, useLQpn);
    }
    if !AtMostOneWithout(qps) {
      var a, b :| 0 <= a < b < |qps| && !qps[a].destQpn && !qps[b].destQpn;
      assert SameLocal(qps, a, RQ, b, RQ, isInitiator, useLQpn);
    }
  }

  /** Any two queue pairs taken to RTR without a destination number have the same ids in each direction. */
  lemma WithoutNumberCollide(p: Rtr, q: Rtr, isInitiator: bool, useLQpn: bool)
    requires !p.destQpn && !q.destQpn
    ensures RtrIds(RQ, p, isInitiator, useLQpn) == RtrIds(RQ, q, isInitiator, useLQpn)
    ensures RtrIds(SQ, p, isInitiator, useLQpn) == RtrIds(SQ, q, isInitiator, useLQpn)
    ensures RtrIds(RQ, p, isInitiator, useLQpn).local == Parity(RQ, isInitiator)
    ensures RtrIds(SQ, p, isInitiator, useLQpn).local == Parity(SQ, isInitiator)
  {
    hide Parity;
    assert QueueNumber(p) == 0 && QueueNumber(q) == 0;
  }

  /** The first two queue pairs of a domain, taken to RTR by a mask of IB_QP_STATE alone. */
  lemma CollisionExample(isInitiator: bool, useLQpn: bool)
    ensures var p, q := Rtr(PD.QP_INI, false), Rtr(PD.QP_INI + 1, false);
            && RtrIds(RQ, p, isInitiator, useLQpn) == RtrIds(RQ, q, isInitiator, useLQpn)
            && RtrIds(SQ, p, isInitiator, useLQpn) == RtrIds(SQ, q, isInitiator, useLQpn)
            && RtrIds(RQ, p, isInitiator, useLQpn).local == (if isInitiator then 0 else 1)
  {
    hide RtrIds;
    WithoutNumberCollide(Rtr(PD.QP_INI, false), Rtr(PD.QP_INI + 1, false), isInitiator, useLQpn);
  }

  // ---------- connections between two nodes ----------

  /**
   A queue of one node and a queue of the other are ends of one connection exactly when their queue pair
   numbers name each other and, for a send and a receive queue, the nodes play different roles; two queues
   of the same direction would meet only between nodes of the same role.
   */
  lemma PairingExact(k1: Kind, l1: nat, r1: nat, init1: bool, k2: Kind, l2: nat, r2: nat, init2: bool, useLQpn: bool)
    ensures Matches(IdsOf(k1, l1, r1, init1, useLQpn), IdsOf(k2, l2, r2, init2, useLQpn)) <==>
            && (k1 != k2 <==> init1 != init2)
            && (if useLQpn then l1 == l2 else l1 == r2 && r1 == l2)
  {
    var a, b := IdsOf(k1, l1, r1, init1, useLQpn), IdsOf(k2, l2, r2, init2, useLQpn);
    assert a.local % 2 == Parity(k1, init1) && b.remote % 2 == Parity(k2, init2);
    assert a.remote % 2 == Parity(k1, init1) && b.local % 2 == Parity(k2, init2);
  }

  /** A send queue of one node and a queue of the other, of the opposite role, are ends of one connection. */
  predicate SendMeets(send: Rtr, kind: Kind, q: Rtr, isInitiator: bool, useLQpn: bool) {
    Matches(RtrIds(SQ, send, isInitiator, useLQpn), RtrIds(kind, q, !isInitiator, useLQpn))
  }

  /** Whatever the masks were, a send queue meets the receive queues that go under its number, and no send queue. */
  lemma MeetsSameNumber(send: Rtr, kind: Kind, q: Rtr, isInitiator: bool, useLQpn: bool)
    ensures SendMeets(send, kind, q, isInitiator, useLQpn) <==> kind == RQ && QueueNumber(send) == QueueNumber(q)
  {
    var m, n := QueueNumber(send), QueueNumber(q);
    PairingExact(SQ, m, m, isInitiator, kind, n, n, !isInitiator, useLQpn);
  }

  /** Send queue `i` of one node is the end of one connection: with the other node's receive queue `i`. */
  ghost predicate MeetsOwn(ours: seq<Rtr>, peers: seq<Rtr>, i: nat, isInitiator: bool, useLQpn: bool)
    requires i < |ours|
  {
    forall j, kind :: 0 <= j < |peers| ==>
      (SendMeets(ours[i], kind, peers[j], isInitiator, useLQpn) <==> j == i && kind == RQ)
  }

  ghost predicate SameQpns(ours: seq<Rtr>, peers: seq<Rtr>) {
    |ours| == |peers| && forall j :: 0 <= j < |ours| ==> ours[j].qpn == peers[j].qpn
  }

  /**
   Between an initiator and a responder with the same queue pair numbers, a send queue is the end of exactly
   one connection, with the receive queue of its own queue pair's number, exactly if both ends of that queue
   pair went to RTR with a destination number, or both without one and the peer has no other such.
   */
  lemma EachSendQueueHasOnePeer(ours: seq<Rtr>, peers: seq<Rtr>, i: nat, isInitiator: bool, useLQpn: bool)
    requires Issued(ours) && SameQpns(ours, peers) && i < |ours|
    ensures MeetsOwn(ours, peers, i, isInitiator, useLQpn) <==>
            && ours[i].destQpn == peers[i].destQpn
            && (ours[i].destQpn || forall j :: 0 <= j < |peers| && j != i ==> peers[j].destQpn)
  {
    hide RtrIds, Matches, SendMeets;
    forall j, kind | 0 <= j < |peers|
      ensures SendMeets(ours[i], kind, peers[j], isInitiator, useLQpn)
              <==> kind == RQ && QueueNumber(ours[i]) == QueueNumber(peers[j])
    {
      MeetsSameNumber(ours[i], kind, peers[j], isInitiator, useLQpn);
    }
    if MeetsOwn(ours, peers, i, isInitiator, useLQpn) {
      assert SendMeets(ours[i], RQ, peers[i], isInitiator, useLQpn);
      forall j | 0 <= j < |peers| && j != i
        ensures ours[i].destQpn || peers[j].destQpn
      {
        assert !SendMeets(ours[i], RQ, peers[j], isInitiator, useLQpn);
      }
    }
  }

  /** All send queues of a node are paired so exactly if both nodes used the same masks, at most one without number. */
  lemma AllPaired(ours: seq<Rtr>, peers: seq<Rtr>, isInitiator: bool, useLQpn: bool)
    requires Issued(ours) && SameQpns(ours, peers)
    ensures (forall i :: 0 <= i < |ours| ==> MeetsOwn(ours, peers, i, isInitiator, useLQpn)) <==>
            ours == peers && AtMostOneWithout(ours)
  {
    hide MeetsOwn, Issued;
    forall i | 0 <= i < |ours|
      ensures MeetsOwn(ours, peers, i, isInitiator, useLQpn) <==>
              && ours[i].destQpn == peers[i].destQpn
              && (ours[i].destQpn || forall j :: 0 <= j < |peers| && j != i ==> peers[j].destQpn)
    {
      EachSendQueueHasOnePeer(ours, peers, i, isInitiator, useLQpn);
    }
    if forall i :: 0 <= i < |ours| ==> MeetsOwn(ours, peers, i, isInitiator, useLQpn) {
      assert forall i :: 0 <= i < |ours| ==> ours[i] == peers[i];
    }
  }
}

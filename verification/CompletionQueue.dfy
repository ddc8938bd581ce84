/**
 The completion queue as seen by one caller at a time: a worker that posts a completion while it
 holds the lock, and a user who polls. Their interleaving is the subject of module Pipeline.
 */
module CompletionQueue {
  import opened Circ
  import opened WorkElement

  /** `history` lists every completion ever published; the first `retired` have been polled. */
  class Cq {
    const size: nat
    const buf: array<Cqe>
    var head: nat
    var tail: nat
    ghost var history: seq<Cqe>
    ghost var retired: nat

    ghost predicate Valid()
      reads this, buf
    {
      Refines(Ring(size, buf[..], head, tail), history, retired, retired)
    }

    /** The completions waiting to be polled, oldest first. */
    ghost function Pending(): seq<Cqe>
      reads this, buf
      requires Valid()
    {
      history[retired..]
    }

    /** A ring for `cqe` completions, as dis_create_cq sizes it: none at all from 2^31 completions on. */
    constructor (cqe: nat, zero: Cqe)
      requires cqe + 1 < U32
      ensures fresh(buf) && buf.Length == size == StoredSize(cqe)
      ensures Valid() <==> cqe < Pow2(31)
      ensures head == tail == 0 && history == [] && retired == 0
      ensures Valid() ==> size == RoundupPow2(cqe + 1) && Pending() == []
    {
      hide Fls, RoundupPow2, StoredSize, CircSpace, Pow2;
      RingSizing(cqe, 0, 0);
      size := StoredSize(cqe);
      buf := new Cqe[StoredSize(cqe)](i => zero);
      head, tail := 0, 0;
      history, retired := [], 0;
    }

    /** dis_wq_post_sqe_cqe and dis_wq_post_rqe_cqe: a completion is dropped exactly when the ring is full. */
    method PostCqe(wqe: Wqe, status: Status) returns (ok: bool)
      requires Valid()
      modifies this`head, this`history, buf
      ensures Valid()
      ensures ok <==> old(|Pending()|) < size - 1
      ensures ok ==> Pending() == old(Pending()) + [MakeCqe(wqe, status)]
      ensures !ok ==> Pending() == old(Pending())
    {
      ghost var r := Ring(size, buf[..], head, tail);
      RingCounts(r, history, retired, retired);
      if CircSpace(head, tail, size) < 1 {
        return false;
      }
      var cqe := MakeCqe(wqe, status);
      WriteHeadSlot(r, history, retired, retired, cqe);
      buf[head] := cqe;
      r := Ring(size, buf[..], head, tail);
      PublishHead(r, history, retired, retired);
      history := history + [cqe];
      head := Next(head, size);
      ok := true;
    }

    /**
     dis_poll_cq: takes exactly the oldest min(num_wc, pending) completions, in order, and none
     for a count that is not positive.
     */
    method PollCq(numWc: int, ibwc: array<Wc>) returns (wcCount: nat)
      requires Valid() && numWc <= ibwc.Length && ibwc as object != buf as object
      modifies this`tail, this`retired, ibwc
      ensures Valid() && history == old(history)
      ensures wcCount == if numWc <= 0 then 0 else Min(numWc, old(|Pending()|))
      ensures forall i :: 0 <= i < wcCount ==> ibwc[i] == MakeWc(old(Pending())[i])
      ensures forall i :: wcCount <= i < ibwc.Length ==> ibwc[i] == old(ibwc[i])
      ensures Pending() == old(Pending())[wcCount..]
    {
      hide CircCnt, Next, Refines;
      RingFits(Ring(size, buf[..], head, tail), history, retired, retired);
      wcCount := 0;
      while wcCount < numWc
        invariant Valid() && history == old(history)
        invariant numWc > 0 ==> wcCount <= numWc
        invariant wcCount > 0 ==> numWc > 0
        invariant retired == old(retired) + wcCount <= |history|
        invariant forall i :: 0 <= i < wcCount ==> ibwc[i] == MakeWc(history[old(retired) + i])
        invariant forall i :: wcCount <= i < ibwc.Length ==> ibwc[i] == old(ibwc[i])
      {
        ghost var r := Ring(size, buf[..], head, tail);
        RingFits(r, history, retired, retired);
        RingCounts(r, history, retired, retired);
        if CircCnt(head, tail, size) < 1 {
          break;
        }
        RetireTail(r, history, retired, retired);
        ibwc[wcCount] := MakeWc(buf[tail]);
        tail := Next(tail, size);
        retired := retired + 1;
        wcCount := wcCount + 1;
      }
    }
  }
}

/**
 The dynamically allocated page maps of a ring, as the driver handles them literally: a worker frees the map that
 the slot's field page_map_dynamic refers to, but leaves the field as it is, and a later request that needs no map
 of its own does not reset it either. The other modules clear the field with the free.
 */
module PageMaps {
  import opened Circ
  import opened Gather

  /** A slot's field page_map_dynamic. The map allocated for the request at posting position k is block k. */
  datatype MapField = Null | To(block: nat)

  /** A call of dis_qp_post_one_sqe or _rqe, with the outcome of its allocation, or one turn of the worker's loop. */
  datatype Event = Post(req: Request, mrs: seq<MrSlot>, allocOk: bool) | Serve

  /**
   A posted request. `cleared` tells that, since the last use of its slot, a request was refused there because
   the allocation of its map failed, which leaves null in the field.
   */
  datatype Posting = Posting(req: Request, mrs: seq<MrSlot>, cleared: bool)

  /** `fields` are those of the slots and `freed` are the blocks freed, in order. */
  datatype Maps = Maps(
    fields: seq<MapField>, freed: seq<nat>,
    // history
    log: seq<Posting>, served: nat, clearing: bool)

  ghost predicate WellFormedEvent(P: nat, e: Event) {
    e.Post? ==> WellFormed(P, e.mrs, e.req)
  }

  ghost predicate Shape(size: nat, s: Maps) {
    IsSize(size) && |s.fields| == size && s.served <= |s.log| < s.served + size
  }

  lemma SlotExists(size: nat, k: nat)
    requires IsSize(size)
    ensures size >= 1 && k % size < size
  {
  }

  // ---------- the machine ----------

  ghost function PostOne(P: nat, size: nat, s: Maps, e: Event): Maps
    requires Shape(size, s) && e.Post? && WellFormed(P, e.mrs, e.req)
  {
    SlotExists(size, |s.log|);
    var slot := |s.log| % size;
    if CircSpace(|s.log| % size, s.served % size, size) < 1 || !Accepted(P, e.mrs, e.req) then s
    else if IovLen(P, e.mrs, e.req) <= SGE_PER_WQE then
      s.(log := s.log + [Posting(e.req, e.mrs, s.clearing)], clearing := false)
    else if !e.allocOk then s.(fields := s.fields[slot := Null], clearing := true)
    else
      s.(fields := s.fields[slot := To(|s.log|)],
         log := s.log + [Posting(e.req, e.mrs, s.clearing)], clearing := false)
  }

  ghost function ServeOne(size: nat, s: Maps): Maps
    requires Shape(size, s)
  {
    SlotExists(size, s.served);
    if CircCnt(|s.log| % size, s.served % size, size) < 1 then s
    else
      match s.fields[s.served % size]
      case Null => s.(served := s.served + 1)
      case To(block) => s.(served := s.served + 1, freed := s.freed + [block])
  }

  lemma StepShape(P: nat, size: nat, s: Maps, e: Event)
    requires Shape(size, s) && WellFormedEvent(P, e)
    ensures e.Post? ==> Shape(size, PostOne(P, size, s, e))
    ensures e.Serve? ==> Shape(size, ServeOne(size, s))
  {
    CountersExact(size, |s.log|, s.served);
    hide IsSize, CircCnt, CircSpace, WellFormed, Gather.Accepted;
  }

  /** The machine after the events, from an empty ring in zeroed memory. */
  ghost function Run(P: nat, size: nat, events: seq<Event>): (s: Maps)
    requires IsSize(size) && forall e <- events :: WellFormedEvent(P, e)
    ensures Shape(size, s)
  {
    if events == [] then Maps(seq(size, _ => Null), [], [], 0, false)
    else
      var s, e := Run(P, size, events[..|events| - 1]), events[|events| - 1];
      StepShape(P, size, s, e);
      if e.Post? then PostOne(P, size, s, e) else ServeOne(size, s)
  }

  // ---------- what the fields hold ----------

  /** The request needed a map of its own. */
  ghost predicate Long(P: nat, p: Posting) {
    p.req.numSge <= |p.req.sgList| && AllResolved(P, p.mrs, p.req) && IovLen(P, p.mrs, p.req) > SGE_PER_WQE
  }

  /** The field of the slot of position `k` once that position is posted, told from the log alone. */
  ghost function FieldOf(P: nat, size: nat, log: seq<Posting>, k: nat): MapField
    requires size >= 1 && k < |log|
    decreases k
  {
    if Long(P, log[k]) then To(k)
    else if log[k].cleared || k < size then Null
    else FieldOf(P, size, log, k - size)
  }

  /** The blocks freed once the first `n` positions are served. */
  ghost function Frees(P: nat, size: nat, log: seq<Posting>, n: nat): seq<nat>
    requires size >= 1 && n <= |log|
  {
    if n == 0 then []
    else
      var f := FieldOf(P, size, log, n - 1);
      Frees(P, size, log, n - 1) + if f.To? then [f.block] else []
  }

  lemma {:induction false} FieldOfPrefix(P: nat, size: nat, log: seq<Posting>, p: Posting, k: nat)
    requires size >= 1 && k < |log|
    ensures FieldOf(P, size, log + [p], k) == FieldOf(P, size, log, k)
    decreases k
  {
    hide Long;
    if k >= size { FieldOfPrefix(P, size, log, p, k - size); }
  }

  lemma {:induction false} FreesPrefix(P: nat, size: nat, log: seq<Posting>, p: Posting, n: nat)
    requires size >= 1 && n <= |log|
    ensures Frees(P, size, log + [p], n) == Frees(P, size, log, n)
    decreases n
  {
    hide FieldOf;
    if n > 0 {
      FreesPrefix(P, size, log, p, n - 1);
      FieldOfPrefix(P, size, log, p, n - 1);
    }
  }

  /** What the slot for position `k` holds while that position is not yet posted. */
  ghost function FieldBefore(P: nat, size: nat, s: Maps, k: nat): MapField
    requires size >= 1 && |s.log| <= k < |s.log| + size
  {
    if (k == |s.log| && s.clearing) || k < size then Null else FieldOf(P, size, s.log, k - size)
  }

  /** The log explains the fields of all slots and the blocks freed. */
  ghost predicate Explained(P: nat, size: nat, s: Maps) {
    && Shape(size, s) && size >= 1
    && (forall k :: s.served <= k < s.served + size ==>
          s.fields[k % size]
          == if k < |s.log| then FieldOf(P, size, s.log, k) else FieldBefore(P, size, s, k))
    && s.freed == Frees(P, size, s.log, s.served)
  }

  lemma {:induction false} SlotAgain(size: nat, k: nat)
    requires size >= 1
    ensures (k + size) % size == k % size
  {
    DivModBasics(k, 1, size);
  }

  /** Filling in the field of the slot at the head and publishing the request, or not publishing it. */
  lemma PostExplained(P: nat, size: nat, s: Maps, p: Posting, f: MapField)
    requires Explained(P, size, s) && Shape(size, s.(log := s.log + [p]))
    requires p.cleared == s.clearing
    requires f == if Long(P, p) then To(|s.log|) else s.fields[|s.log| % size]
    ensures Explained(P, size, s.(fields := s.fields[|s.log| % size := f], log := s.log + [p], clearing := false))
  {
    hide Long, IsSize;
    var n := |s.log|;
    var s' := s.(fields := s.fields[n % size := f], log := s.log + [p], clearing := false);
    FreesPrefix(P, size, s.log, p, s.served);
    forall k | s.served <= k < s.served + size
      ensures s'.fields[k % size]
              == if k < |s'.log| then FieldOf(P, size, s'.log, k) else FieldBefore(P, size, s', k)
    {
      if k < n {
        SlotsDistinct(k, n, size);
        FieldOfPrefix(P, size, s.log, p, k);
      } else {
        if n < k { SlotsDistinct(n, k, size); }
        if k >= size { FieldOfPrefix(P, size, s.log, p, k - size); }
      }
    }
  }

  lemma ClearExplained(P: nat, size: nat, s: Maps)
    requires Explained(P, size, s)
    ensures Explained(P, size, s.(fields := s.fields[|s.log| % size := Null], clearing := true))
  {
    hide IsSize, Long;
    var n := |s.log|;
    var s' := s.(fields := s.fields[n % size := Null], clearing := true);
    forall k | s.served <= k < s.served + size
      ensures s'.fields[k % size]
              == if k < |s'.log| then FieldOf(P, size, s'.log, k) else FieldBefore(P, size, s', k)
    {
      if k < n { SlotsDistinct(k, n, size); } else if n < k { SlotsDistinct(n, k, size); }
    }
  }

  lemma PostOneExplained(P: nat, size: nat, s: Maps, e: Event)
    requires Explained(P, size, s) && e.Post? && WellFormed(P, e.mrs, e.req)
    ensures Explained(P, size, PostOne(P, size, s, e))
  {
    StepShape(P, size, s, e);
    hide Explained, CircSpace, WellFormed;
    var p := Posting(e.req, e.mrs, s.clearing);
    var s' := PostOne(P, size, s, e);
    if s'.log == s.log + [p] {
      PostExplained(P, size, s, p, if Long(P, p) then To(|s.log|) else s.fields[|s.log| % size]);
      assert s.fields[|s.log| % size := s.fields[|s.log| % size]] == s.fields;
    } else if s' != s {
      ClearExplained(P, size, s);
    }
  }

  /** The field that the worker finds, and after it the window one position on. */
  lemma ServeExplained(P: nat, size: nat, s: Maps)
    requires Explained(P, size, s) && s.served < |s.log|
    ensures s.served % size < size && s.fields[s.served % size] == FieldOf(P, size, s.log, s.served)
    ensures var f := s.fields[s.served % size];
            Explained(P, size, s.(served := s.served + 1, freed := s.freed + if f.To? then [f.block] else []))
  {
    hide FieldOf, IsSize;
    SlotAgain(size, s.served);
    var f := FieldOf(P, size, s.log, s.served);
    assert s.freed + (if f.To? then [f.block] else []) == Frees(P, size, s.log, s.served + 1);
    hide Frees;
    var s' := s.(served := s.served + 1, freed := Frees(P, size, s.log, s.served + 1));
    forall k | s'.served <= k < s'.served + size
      ensures s'.fields[k % size]
              == if k < |s'.log| then FieldOf(P, size, s'.log, k) else FieldBefore(P, size, s', k)
    {
      if k == s.served + size {
        assert FieldBefore(P, size, s', k) == FieldOf(P, size, s.log, s.served);
      }
    }
  }

  /** One turn of the worker on a ring with something to serve, and on an empty one. */
  lemma ServeOneIs(size: nat, s: Maps)
    requires Shape(size, s)
    ensures s.served == |s.log| ==> ServeOne(size, s) == s
    ensures s.served < |s.log| ==>
              && s.served % size < size
              && var f := s.fields[s.served % size];
                 ServeOne(size, s) == s.(served := s.served + 1, freed := s.freed + if f.To? then [f.block] else [])
  {
    CountersExact(size, |s.log|, s.served);
    SlotExists(size, s.served);
    hide CircCnt, CircSpace, Next, IsSize;
    assert s.freed + [] == s.freed;
  }

  lemma ServeOneExplained(P: nat, size: nat, s: Maps)
    requires Explained(P, size, s)
    ensures Explained(P, size, ServeOne(size, s))
  {
    ServeOneIs(size, s);
    hide ServeOne, Explained;
    if s.served < |s.log| { ServeExplained(P, size, s); }
  }

  /** In every run the log explains the fields. */
  lemma {:induction false} RunExplained(P: nat, size: nat, events: seq<Event>)
    requires IsSize(size) && forall e <- events :: WellFormedEvent(P, e)
    ensures Explained(P, size, Run(P, size, events))
  {
    hide IsSize, PostOne, ServeOne, Explained, WellFormed, Shape;
    if events == [] {
      InitExplained(P, size);
    } else {
      var front, e := events[..|events| - 1], events[|events| - 1];
      assert e in events && WellFormedEvent(P, e);
      RunExplained(P, size, front);
      var s := Run(P, size, front);
      if e.Post? { PostOneExplained(P, size, s, e); } else { ServeOneExplained(P, size, s); }
    }
  }

  lemma InitExplained(P: nat, size: nat)
    requires IsSize(size)
    ensures Explained(P, size, Maps(seq(size, _ => Null), [], [], 0, false))
  {
    SlotExists(size, 0);
    hide IsSize;
    forall k | 0 <= k < size
      ensures k % size == k
    {
      SmallMod(k, size);
    }
  }

  // ---------- when a map is freed twice ----------

  ghost predicate NoneTwice(blocks: seq<nat>) {
    forall a, b :: 0 <= a < b < |blocks| ==> blocks[a] != blocks[b]
  }

  /** The served request at position `k` finds the map of the one before it in its slot: it needs none, that one did. */
  ghost predicate Stale(P: nat, size: nat, log: seq<Posting>, k: nat)
    requires k < |log|
  {
    size <= k && !Long(P, log[k]) && !log[k].cleared && Long(P, log[k - size])
  }

  /** Without such a request every field holds the map of its own request. */
  lemma {:induction false} CleanField(P: nat, size: nat, log: seq<Posting>, k: nat)
    requires size >= 1 && k < |log| && forall j :: 0 <= j <= k ==> !Stale(P, size, log, j)
    ensures FieldOf(P, size, log, k) == if Long(P, log[k]) then To(k) else Null
    decreases k
  {
    hide Long;
    if k >= size {
      CleanField(P, size, log, k - size);
      assert !Stale(P, size, log, k);
    }
  }

  /** Then exactly the maps of the requests served are freed, each once. */
  lemma {:induction false} CleanFrees(P: nat, size: nat, log: seq<Posting>, n: nat)
    requires size >= 1 && n <= |log| && forall j :: 0 <= j < n ==> !Stale(P, size, log, j)
    ensures NoneTwice(Frees(P, size, log, n))
    ensures forall b :: b in Frees(P, size, log, n) <==> 0 <= b < n && Long(P, log[b])
    decreases n
  {
    hide Long, Stale, FieldOf;
    if n > 0 {
      CleanFrees(P, size, log, n - 1);
      CleanField(P, size, log, n - 1);
      var before := Frees(P, size, log, n - 1);
      forall a | 0 <= a < |before|
        ensures before[a] < n - 1
      {
        assert before[a] in before;
      }
      assert Frees(P, size, log, n) == before + if Long(P, log[n - 1]) then [n - 1] else [];
    }
  }

  lemma {:induction false} FreesGrow(P: nat, size: nat, log: seq<Posting>, m: nat, n: nat)
    requires size >= 1 && m <= n <= |log|
    ensures Frees(P, size, log, m) <= Frees(P, size, log, n)
    decreases n
  {
    hide FieldOf;
    if m < n { FreesGrow(P, size, log, m, n - 1); }
  }

  /** A field that names a block has it freed in its turn. */
  lemma FreedInTurn(P: nat, size: nat, log: seq<Posting>, k: nat, n: nat, block: nat)
    requires size >= 1 && k < n <= |log| && FieldOf(P, size, log, k) == To(block)
    ensures var at := |Frees(P, size, log, k)|;
            && at + 1 == |Frees(P, size, log, k + 1)| <= |Frees(P, size, log, n)|
            && Frees(P, size, log, n)[at] == block
  {
    hide FieldOf;
    assert Frees(P, size, log, k + 1) == Frees(P, size, log, k) + [block];
    FreesGrow(P, size, log, k + 1, n);
  }

  lemma StaleField(P: nat, size: nat, log: seq<Posting>, k: nat)
    requires size >= 1 && k < |log| && Stale(P, size, log, k)
    ensures size <= k
    ensures FieldOf(P, size, log, k - size) == To(k - size) && FieldOf(P, size, log, k) == To(k - size)
  {
    hide Long;
  }

  /** Serving such a request frees the map of the one before it a second time. */
  lemma StaleFrees(P: nat, size: nat, log: seq<Posting>, k: nat, n: nat)
    requires size >= 1 && k < n <= |log| && Stale(P, size, log, k)
    ensures !NoneTwice(Frees(P, size, log, n))
  {
    hide Stale, FieldOf, Frees;
    StaleField(P, size, log, k);
    var j := k - size;
    FreedInTurn(P, size, log, j, n, j);
    FreedInTurn(P, size, log, k, n, j);
    FreesGrow(P, size, log, j + 1, k);
    assert Frees(P, size, log, n)[|Frees(P, size, log, j)|] == Frees(P, size, log, n)[|Frees(P, size, log, k)|];
  }

  /**
   Leaving the field as it is: over every sequence of posts, refusals, failed allocations and turns of the worker,
   no map of a ring is freed twice exactly as long as no request of at most four entries is served from a slot whose
   last use was a request of more. As long as that holds, the maps freed are those of the longer requests served.
   */
  lemma MapsFreedOnce(P: nat, size: nat, events: seq<Event>)
    requires IsSize(size) && forall e <- events :: WellFormedEvent(P, e)
    ensures var s := Run(P, size, events);
            && (NoneTwice(s.freed) <==> forall k :: 0 <= k < s.served ==> !Stale(P, size, s.log, k))
            && (NoneTwice(s.freed) ==> forall b :: b in s.freed <==> 0 <= b < s.served && Long(P, s.log[b]))
  {
    RunExplained(P, size, events);
    hide IsSize, Run, Stale, Long, FieldOf, NoneTwice, FieldBefore;
    var s := Run(P, size, events);
    if k :| 0 <= k < s.served && Stale(P, size, s.log, k) {
      StaleFrees(P, size, s.log, k, s.served);
    } else {
      CleanFrees(P, size, s.log, s.served);
    }
  }

  // ---------- two requests that do harm ----------

  const PAGE: nat := 4096

  /** A domain with one region of four pages. */
  function ExampleMrs(): seq<MrSlot> {
    [Registered(UserMr(0, 0, 4 * PAGE, [0x1000, 0x2000, 0x3000, 0x4000]))] + seq(MR_MAX - 1, _ => NoMr)
  }

  function ExampleRequest(length: nat): Request {
    Request(0, 1, [Sge(0, length, 0)])
  }

  lemma ExampleAccepted(length: nat)
    requires length <= 4 * PAGE
    ensures var mrs, req := ExampleMrs(), ExampleRequest(length);
            && WellFormed(PAGE, mrs, req) && Accepted(PAGE, mrs, req)
            && IovLen(PAGE, mrs, req) == length / PAGE + 1
  {
    var mrs, req := ExampleMrs(), ExampleRequest(length);
    var segs := Segments(req);
    assert segs == [Sge(0, length, 0)];
    assert mrs[0] == Registered(UserMr(0, 0, 4 * PAGE, [0x1000, 0x2000, 0x3000, 0x4000]));
    assert ValidKey(PAGE, mrs, segs[0]);
    assert TotalLength(segs, 0) == 0;
    assert Estimate(PAGE, mrs, segs, 0) == 0;
    assert Estimate(PAGE, mrs, segs, 1) == Reserved(PAGE, MrOf(mrs, segs[0]), segs[0]);
  }

  lemma RunMore(P: nat, size: nat, events: seq<Event>, e: Event)
    requires IsSize(size) && WellFormedEvent(P, e) && forall e <- events :: WellFormedEvent(P, e)
    ensures var s := Run(P, size, events);
            Run(P, size, events + [e]) == if e.Post? then PostOne(P, size, s, e) else ServeOne(size, s)
  {
    hide IsSize, WellFormedEvent, PostOne, ServeOne, Shape;
    assert (events + [e])[..|events|] == events;
  }

  lemma PostStep(P: nat, size: nat, s: Maps, req: Request, mrs: seq<MrSlot>)
    requires Shape(size, s) && size >= 2 && s.served == |s.log| && !s.clearing
    requires WellFormed(P, mrs, req) && Accepted(P, mrs, req)
    ensures var s' := PostOne(P, size, s, Post(req, mrs, true));
            s'.log == s.log + [Posting(req, mrs, false)] && s'.served == s.served && !s'.clearing
  {
    CountersExact(size, |s.log|, s.served);
    hide IsSize, CircSpace, WellFormed, Gather.Accepted, IovLen;
  }

  lemma ServeStep(size: nat, s: Maps)
    requires Shape(size, s) && s.served < |s.log| && !s.clearing
    ensures var s' := ServeOne(size, s); s'.log == s.log && s'.served == s.served + 1 && !s'.clearing
  {
    CountersExact(size, |s.log|, s.served);
    hide IsSize, CircCnt;
  }

  function Pair(req: Request, mrs: seq<MrSlot>): seq<Event> {
    [Post(req, mrs, true), Serve]
  }

  /** Posting and serving one request in an otherwise empty ring. */
  lemma PostAndServe(P: nat, size: nat, events: seq<Event>, req: Request, mrs: seq<MrSlot>)
    requires IsSize(size) && size >= 2 && forall e <- events :: WellFormedEvent(P, e)
    requires WellFormed(P, mrs, req) && Accepted(P, mrs, req)
    requires Run(P, size, events).served == |Run(P, size, events).log| && !Run(P, size, events).clearing
    ensures forall e <- events + Pair(req, mrs) :: WellFormedEvent(P, e)
    ensures var s, s' := Run(P, size, events), Run(P, size, events + Pair(req, mrs));
            s'.log == s.log + [Posting(req, mrs, false)] && s'.served == |s'.log| && !s'.clearing
  {
    hide IsSize, Run, WellFormed, Gather.Accepted, PostOne, ServeOne, Shape;
    var s := Run(P, size, events);
    var post := Post(req, mrs, true);
    RunMore(P, size, events, post);
    RunMore(P, size, events + [post], Serve);
    assert events + [post] + [Serve] == events + Pair(req, mrs);
    PostStep(P, size, s, req, mrs);
    ServeStep(size, Run(P, size, events + [post]));
  }

  lemma NothingYet(P: nat, size: nat)
    requires IsSize(size)
    ensures var s := Run(P, size, []); s.log == [] && s.served == 0 && !s.clearing
  {
  }

  lemma RingOfTwo()
    ensures StoredSize(1) == 2 && IsSize(2)
  {
    assert Pow2(1) == 2;
    assert Fls(1) == 1;
  }

  /** One request that needs a map and two that need none, each served before the next is posted. */
  function LongShortShort(long: Request, short: Request, mrs: seq<MrSlot>): seq<Event> {
    Pair(long, mrs) + Pair(short, mrs) + Pair(short, mrs)
  }

  lemma ThirdIsStale(P: nat, long: Request, short: Request, mrs: seq<MrSlot>)
    requires WellFormed(P, mrs, long) && Accepted(P, mrs, long) && IovLen(P, mrs, long) > SGE_PER_WQE
    requires WellFormed(P, mrs, short) && Accepted(P, mrs, short) && IovLen(P, mrs, short) <= SGE_PER_WQE
    ensures var p, q := Posting(long, mrs, false), Posting(short, mrs, false); Stale(P, 2, [p, q, q], 2)
  {
    hide IovLen;
  }

  /** In the ring created for one request the third finds the map of the first in its slot, and frees it again. */
  lemma DoubleFree(P: nat, long: Request, short: Request, mrs: seq<MrSlot>)
    requires WellFormed(P, mrs, long) && Accepted(P, mrs, long) && IovLen(P, mrs, long) > SGE_PER_WQE
    requires WellFormed(P, mrs, short) && Accepted(P, mrs, short) && IovLen(P, mrs, short) <= SGE_PER_WQE
    ensures IsSize(StoredSize(1)) && forall e <- LongShortShort(long, short, mrs) :: WellFormedEvent(P, e)
    ensures !NoneTwice(Run(P, StoredSize(1), LongShortShort(long, short, mrs)).freed)
  {
    hide IsSize, StoredSize, Run, WellFormed, Gather.Accepted, IovLen, Pair, NoneTwice, Stale, Shape, WellFormedEvent;
    var p, q := Posting(long, mrs, false), Posting(short, mrs, false);
    RingOfTwo();
    ThirdIsStale(P, long, short, mrs);
    NothingYet(P, 2);
    PostAndServe(P, 2, [], long, mrs);
    assert [] + Pair(long, mrs) == Pair(long, mrs);
    PostAndServe(P, 2, Pair(long, mrs), short, mrs);
    PostAndServe(P, 2, Pair(long, mrs) + Pair(short, mrs), short, mrs);
    MapsFreedOnce(P, 2, LongShortShort(long, short, mrs));
    assert Run(P, 2, LongShortShort(long, short, mrs)).log == [p, q, q];
  }

  /** Four pages are enough for the first request, and one byte for the others. */
  lemma DoubleFreeExample()
    ensures IsSize(StoredSize(1))
    ensures forall e <- LongShortShort(ExampleRequest(4 * PAGE), ExampleRequest(1), ExampleMrs()) ::
              WellFormedEvent(PAGE, e)
    ensures !NoneTwice(Run(PAGE, StoredSize(1),
                           LongShortShort(ExampleRequest(4 * PAGE), ExampleRequest(1), ExampleMrs())).freed)
  {
    ExampleAccepted(4 * PAGE);
    ExampleAccepted(1);
    hide ExampleMrs, ExampleRequest, IsSize, StoredSize, Run, WellFormed, Gather.Accepted, IovLen, NoneTwice;
    DoubleFree(PAGE, ExampleRequest(4 * PAGE), ExampleRequest(1), ExampleMrs());
  }
}

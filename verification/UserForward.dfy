/** Forwarding to the user-mode server, accounting for its completions, and the recovery that
    completes its pending commands when it crashes. */
module UserForward {
  import opened NvmeTypes
  import opened RingArith
  import opened CompletionRing
  import opened Queues
  import opened NotifyRing

  /** The completion synthesised for the k-th pending command: Internal Error, the slot as SQHD. */
  function AbortEntry(q: Sq, k: nat, sqid: u16): Completion
    requires q.Valid()
  {
    Completion(0, 0, SlotAfter(q.head, k, |q.slots|) % 0x1_0000, sqid, PendingAt(q, k).cid,
               MakeStatus(0, SC_INTERNAL_ERROR, false))
  }

  function AbortEntries(q: Sq, sqid: u16, n: nat): (es: seq<Completion>)
    requires q.Valid()
    ensures |es| == n
  {
    seq(n, (k: nat) => AbortEntry(q, k, sqid))
  }

  function AbortAll(q: Sq, sqid: u16): seq<Completion>
    requires q.Valid()
  {
    AbortEntries(q, sqid, q.Pending())
  }

  /** One turn of the abort loop: not at the tail means commands are pending, and storing the
      next entry extends what has been posted. */
  lemma {:induction false} AbortOneMore(q: Sq, before: Cq, sqid: u16, n: nat, head: nat)
    requires q.Valid() && before.Valid()
    requires n <= q.Pending() && head == Dropped(q, n).head && head != q.tail
    ensures n < q.Pending() && Dropped(q, n + 1).head == Next(head, |q.slots|)
    ensures AbortEntry(q, n, sqid) ==
            Completion(0, 0, head % 0x1_0000, sqid, q.slots[head].cid, MakeStatus(0, SC_INTERNAL_ERROR, false))
    ensures PutAll(before, AbortEntries(q, sqid, n + 1)) ==
            Put(PutAll(before, AbortEntries(q, sqid, n)), AbortEntry(q, n, sqid))
  {
    NotYetAll(q, n);
    DroppedOneMore(q, n);
    assert AbortEntries(q, sqid, n + 1)[..n] == AbortEntries(q, sqid, n);
  }

  /** Commands a queue has pending, if the abort visits it. */
  function LivePending(s: SqState): nat
  {
    if s.created && s.valid && s.Usable() then s.View().Pending() else 0
  }

  /** What the abort makes of the completion queue with the same id; the phase it stamps is the
      one in shared memory, and both sides are left in step. */
  function AbortedCq(s: SqState, c: CqState, sqid: u16): CqState
    requires LivePending(s) > 0 ==> c.Usable()
  {
    if LivePending(s) == 0 then c else c.Holding(PutAll(c.Described(), AbortAll(s.View(), sqid)))
  }

  function AbortedSq(s: SqState): SqState
  {
    if LivePending(s) == 0 then s else s.(head := s.tail)
  }

  /** Which queues the abort visits, and what it leaves of them: a created, valid queue has its head at its tail,
      any other queue is as it was. */
  lemma {:induction false} AbortedSqIs(s: SqState)
    requires s.valid ==> s.Usable()
    ensures LivePending(s) > 0 <==> s.created && s.valid && s.head != s.tail
    ensures AbortedSq(s) == if s.created && s.valid then s.(head := s.tail) else s
  {
  }

  /** A command the abort completed is never pending again. Of a queue that counts h commands fetched and t
      forwarded, u are forwarded later, fewer than the capacity beyond t: pending are then exactly those
      behind the first t, in order. */
  lemma {:induction false} AbortedStaysDone(s: SqState, h: nat, t: nat, u: nat, k: nat)
    requires s.created && s.valid && s.Usable() && s.head == Slot(h, |s.slots|) && s.tail == Slot(t, |s.slots|)
    requires h <= t < h + |s.slots| && t <= u < t + |s.slots|
    ensures var later := AbortedSq(s).(tail := Slot(u, |s.slots|));
            && later.Usable() && later.View().Pending() == u - t
            && (k < u - t ==> PendingAt(later.View(), k) == s.slots[Slot(t + k, |s.slots|)])
  {
    AbortedSqIs(s);
    DistIsDifference(t, u, |s.slots|);
    if k < u - t {
      SlotSum(t, k, |s.slots|);
    }
  }

  lemma {:induction false} AbortStatus(phase: bool)
    ensures var st := StampStatus(MakeStatus(0, SC_INTERNAL_ERROR, false), phase);
            st == MakeStatus(0, SC_INTERNAL_ERROR, phase)
            && StatusCode(st) == SC_INTERNAL_ERROR && StatusCodeType(st) == 0
  {
    assert MakeStatus(0, 6, false) == 12;
    assert MakeStatus(0, 6, true) == 13;
    assert StampStatus(12, phase) == 12 + Bit(phase);
    assert StatusCode(12) == StatusCode(13) == 6 && StatusCodeType(12) == StatusCodeType(13) == 0;
  }

  lemma {:induction false} AbortEntryReads(q: Sq, k: nat, sqid: u16, phase: bool)
    requires q.Valid()
    ensures var e, i := Stamp(AbortEntry(q, k, sqid), phase), SlotAfter(q.head, k, |q.slots|);
            && e.cid == q.slots[i].cid && e.sqid == sqid && e.sqhd == i % 0x1_0000 && e.dw0 == e.dw1 == 0
            && StatusCode(e.status) == SC_INTERNAL_ERROR && StatusCodeType(e.status) == 0
  {
    AbortStatus(phase);
  }

  lemma {:induction false} AbortStores(s: SqState, c: CqState, sqid: u16, k: nat)
    requires k < LivePending(s) <= k + |c.ring| && c.Usable()
    ensures AbortedCq(s, c, sqid).ring[SlotAfter(c.tail, k, |c.ring|)] ==
            Stamp(AbortEntry(s.View(), k, sqid), PhaseAfter(c.phase, c.tail, k, |c.ring|))
  {
    PutAllStored(c.Described(), AbortAll(s.View(), sqid), k);
  }

  /** The abort's completions, command by command: the k-th pending command of a visited queue has one,
      in the k-th slot from the old tail, with its CID, its slot as SQHD, the queue's id, status
      Internal Error, and the phase due there, if no more than a lap is posted from it on. */
  lemma {:induction false} AbortPostsEach(s: SqState, c: CqState, sqid: u16, k: nat)
    requires k < LivePending(s) <= k + |c.ring| && c.Usable()
    ensures var e, n := AbortedCq(s, c, sqid).ring[SlotAfter(c.tail, k, |c.ring|)], |s.slots|;
            && e.cid == s.slots[SlotAfter(s.head, k, n)].cid && e.sqid == sqid
            && e.sqhd == SlotAfter(s.head, k, n) % 0x1_0000 && e.dw0 == e.dw1 == 0
            && StatusCode(e.status) == SC_INTERNAL_ERROR && StatusCodeType(e.status) == 0
            && PhaseBit(e) == PhaseAfter(c.phase, c.tail, k, |c.ring|)
  {
    AbortEntryReads(s.View(), k, sqid, PhaseAfter(c.phase, c.tail, k, |c.ring|));
    AbortStores(s, c, sqid, k);
  }

  /** The k-th pending command's completion stands in its slot after the abort. */
  predicate KeepsCompletion(s: SqState, c: CqState, sqid: u16, k: nat)
    requires k < LivePending(s) && c.Usable()
  {
    AbortedCq(s, c, sqid).ring[SlotAfter(c.tail, k, |c.ring|)] ==
      Stamp(AbortEntry(s.View(), k, sqid), PhaseAfter(c.phase, c.tail, k, |c.ring|))
  }

  /** An entry posted later to the slot of the k-th, with none behind it there. */
  lemma {:induction false} AbortLater(s: SqState, c: CqState, sqid: u16, k: nat, j: nat)
    requires c.Usable() && j < LivePending(s) <= j + |c.ring|
    requires Slot(c.tail + j, |c.ring|) == Slot(c.tail + k, |c.ring|)
    ensures AbortedCq(s, c, sqid).ring[SlotAfter(c.tail, k, |c.ring|)] ==
            Stamp(AbortEntry(s.View(), j, sqid), PhaseAfter(c.phase, c.tail, j, |c.ring|))
  {
    AbortStores(s, c, sqid, j);
  }

  /** Otherwise the slot holds the completion m laps later. */
  lemma {:induction false} AbortOverwrites(s: SqState, c: CqState, sqid: u16, k: nat, m: nat, j: nat)
    requires c.Usable() && j == k + m * |c.ring| && j < LivePending(s) <= j + |c.ring|
    ensures var n := |c.ring|;
            && AbortedCq(s, c, sqid).ring[SlotAfter(c.tail, k, n)] ==
               Stamp(AbortEntry(s.View(), j, sqid), PhaseAfter(c.phase, c.tail, j, n))
            && (PhaseAfter(c.phase, c.tail, j, n) <==> (PhaseAfter(c.phase, c.tail, k, n) <==> Even(m)))
  {
    LapsPast(c.tail, k, m, |c.ring|, j);
    AbortLater(s, c, sqid, k, j);
  }

  /** Two pending commands have their completions told apart by the slot in SQHD. */
  lemma {:induction false} AbortEntriesDiffer(q: Sq, sqid: u16, k: nat, j: nat)
    requires q.Valid() && k < j < q.Pending() && |q.slots| <= 0x1_0000
    ensures AbortEntry(q, k, sqid).sqhd != AbortEntry(q, j, sqid).sqhd
  {
    SlotsDiffer(q.head + k, q.head + j, |q.slots|);
  }

  lemma {:induction false} AbortLoses(s: SqState, c: CqState, sqid: u16, k: nat, m: nat, j: nat)
    requires c.Usable() && |s.slots| <= 0x1_0000 && m > 0 && j == k + m * |c.ring| > k
    requires j < LivePending(s) <= j + |c.ring|
    ensures !KeepsCompletion(s, c, sqid, k)
  {
    var n := |c.ring|;
    AbortOverwrites(s, c, sqid, k, m, j);
    if Even(m) {
      AbortEntriesDiffer(s.View(), sqid, k, j);
      StampsDiffer(AbortEntry(s.View(), j, sqid), AbortEntry(s.View(), k, sqid),
                   PhaseAfter(c.phase, c.tail, j, n), PhaseAfter(c.phase, c.tail, k, n));
    }
  }

  lemma {:induction false} StampsDiffer(a: Completion, b: Completion, p: bool, q: bool)
    requires a.sqhd != b.sqhd || p != q
    ensures Stamp(a, p) != Stamp(b, q)
  {
    assert PhaseBit(Stamp(a, p)) == p && PhaseBit(Stamp(b, q)) == q;
  }

  /** A pending command's completion stands exactly when at most a lap of completions is posted from it
      on: a completion queue smaller than the backlog loses the oldest of them. */
  lemma {:induction false} AbortKeepsExactly(s: SqState, c: CqState, sqid: u16, k: nat)
    requires k < LivePending(s) && c.Usable() && |s.slots| <= 0x1_0000
    ensures KeepsCompletion(s, c, sqid, k) <==> LivePending(s) <= k + |c.ring|
  {
    var m := LapsBehind(LivePending(s) - k, |c.ring|);
    if m == 0 {
      AbortStores(s, c, sqid, k);
    } else {
      MulGrows(m, |c.ring|);
      AbortLoses(s, c, sqid, k, m, k + m * |c.ring|);
    }
  }

  /** So every pending command keeps its completion if and only if the backlog is at most the capacity of
      the completion queue. */
  lemma {:induction false} AbortKeepsAllExactly(s: SqState, c: CqState, sqid: u16)
    requires c.Usable() && |s.slots| <= 0x1_0000
    ensures (forall k: nat :: k < LivePending(s) ==> KeepsCompletion(s, c, sqid, k)) <==> LivePending(s) <= |c.ring|
  {
    forall k: nat | k < LivePending(s)
      ensures KeepsCompletion(s, c, sqid, k) <==> LivePending(s) <= k + |c.ring|
    {
      AbortKeepsExactly(s, c, sqid, k);
    }
    if LivePending(s) > |c.ring| {
      assert !KeepsCompletion(s, c, sqid, 0);
    }
  }

  /** Slots beyond them are untouched. */
  lemma {:induction false} AbortSparesTheRest(s: SqState, c: CqState, sqid: u16, j: nat)
    requires c.Usable() && j < |c.ring| && LivePending(s) <= Dist(c.tail, j, |c.ring|)
    ensures AbortedCq(s, c, sqid).ring[j] == c.ring[j]
  {
    if LivePending(s) > 0 {
      PutAllUntouched(c.Described(), AbortAll(s.View(), sqid), j);
    }
  }

  /** Afterwards nothing is pending, the tail has advanced by the number of completions, and for an
      I/O queue descriptor and driver agree on tail and phase. */
  lemma {:induction false} AbortSettles(s: SqState, c: CqState, sqid: u16)
    requires c.Usable() && c.InStep()
    ensures var c' := AbortedCq(s, c, sqid);
            && LivePending(AbortedSq(s)) == 0
            && c'.Usable() && c'.InStep() && |c'.ring| == |c.ring|
            && c'.created == c.created && c'.valid == c.valid && c'.size == c.size && c'.pdoHead == c.pdoHead
            && c'.tail == SlotAfter(c.tail, LivePending(s), |c.ring|)
            && c'.phase == PhaseAfter(c.phase, c.tail, LivePending(s), |c.ring|)
  {
    if LivePending(s) == 0 {
      SmallCount(c.tail, |c.ring|);
    } else {
      PutAllTail(c.Described(), AbortAll(s.View(), sqid));
    }
  }

  /** A host in step with the completion queue stays in step across the crash, provided it has room:
      it will find every aborted command's completion after those it has not yet taken, in order. */
  lemma {:induction false} AbortReachesHost(cap: nat, r: Run, s: SqState, c: CqState, sqid: u16)
    requires HostInStep(cap, r) && c.Usable() && c.Described() == r.q
    requires LivePending(s) > 0 && |r.posted| + LivePending(s) <= |r.taken| + cap
    ensures HostInStep(cap, Run(AbortedCq(s, c, sqid).View(), r.posted + AbortAll(s.View(), sqid), r.taken))
  {
    PutAllConcat(Fresh(cap), r.posted, AbortAll(s.View(), sqid));
  }

  /** What the abort posts to an I/O completion queue: the entries of the submission queue with its id. */
  function PostedTo(ss: seq<SqState>, j: u16): seq<Completion>
    requires j < |ss|
  {
    if LivePending(ss[j]) == 0 then [] else AbortAll(ss[j].View(), j)
  }

  lemma {:induction false} AbortedSqsAre(ss: seq<SqState>)
    requires forall i :: 0 <= i < |ss| && ss[i].valid ==> ss[i].Usable()
    ensures forall i :: 0 <= i < |ss| ==>
              AbortedSq(ss[i]) == if ss[i].created && ss[i].valid then ss[i].(head := ss[i].tail) else ss[i]
  {
    forall i | 0 <= i < |ss|
      ensures AbortedSq(ss[i]) == if ss[i].created && ss[i].valid then ss[i].(head := ss[i].tail) else ss[i]
    {
      AbortedSqIs(ss[i]);
    }
  }

  lemma {:induction false} AbortedCqIsPosted(ss: seq<SqState>, c: CqState, j: u16)
    requires j < |ss| && c.Usable() && c.InStep()
    ensures AbortedCq(ss[j], c, j).View() == PutAll(c.View(), PostedTo(ss, j))
  {
  }

  lemma {:induction false} PostedCarriesId(ss: seq<SqState>, j: u16, e: Completion)
    requires j < |ss| && e in PostedTo(ss, j)
    ensures e.sqid == j
  {
  }

  /** A submission queue may be bound to a completion queue with another id, which the abort does not ask
      for: its pending commands' completions reach the queue b it was bound to if and only if b is its
      own id. */
  lemma {:induction false} AbortReachesBoundQueue(ss: seq<SqState>, i: u16, b: u16)
    requires i < |ss| && b < |ss| && LivePending(ss[i]) > 0
    ensures (forall k: nat :: k < LivePending(ss[i]) ==> AbortEntry(ss[i].View(), k, i) in PostedTo(ss, b)) <==> b == i
  {
    if b == i {
      forall k: nat | k < LivePending(ss[i])
        ensures AbortEntry(ss[i].View(), k, i) in PostedTo(ss, b)
      {
        assert PostedTo(ss, i)[k] == AbortEntry(ss[i].View(), k, i);
      }
    } else if AbortEntry(ss[i].View(), 0, i) in PostedTo(ss, b) {
      PostedCarriesId(ss, b, AbortEntry(ss[i].View(), 0, i));
    }
  }

  function SumLive(ss: seq<SqState>, n: nat): nat
    requires n < |ss|
  {
    if n == 0 then 0 else SumLive(ss, n - 1) + LivePending(ss[n])
  }

  /** All that the abort posts for the queues 1 to n: as many completions as it reports. */
  function AllPosted(ss: seq<SqState>, n: u16): (es: seq<Completion>)
    requires n < |ss|
    ensures |es| == SumLive(ss, n)
  {
    if n == 0 then []
    else
      PostedCount(ss, n);
      AllPosted(ss, n - 1) + PostedTo(ss, n)
  }

  lemma {:induction false} PostedCount(ss: seq<SqState>, j: u16)
    requires j < |ss|
    ensures |PostedTo(ss, j)| == LivePending(ss[j])
  {
  }

  lemma {:induction false} SumLiveSame(a: seq<SqState>, b: seq<SqState>, n: nat)
    requires n < |a| && n < |b| && forall i :: 1 <= i <= n ==> a[i] == b[i]
    ensures SumLive(a, n) == SumLive(b, n)
  {
    if n > 0 {
      SumLiveSame(a, b, n - 1);
    }
  }

  /** Completions the server posted since the driver last looked, by the wrapped difference of tails. */
  function Delta(c: CqState): nat
    requires c.Usable() && c.pdoTail < |c.ring|
  {
    Dist(c.pdoTail, c.tail, |c.ring|)
  }

  predicate Countable(c: CqState) { c.created ==> c.Usable() && c.pdoTail < |c.ring| }

  function SumDeltas(cs: seq<CqState>, n: nat): nat
    requires n < |cs| && forall i :: 1 <= i <= n ==> Countable(cs[i])
  {
    assert n >= 1 ==> Countable(cs[n]);
    if n == 0 then 0 else SumDeltas(cs, n - 1) + (if cs[n].created then Delta(cs[n]) else 0)
  }

  // ---------- the accounting over repeated calls ----------

  /** The completion queues and the two counters, all the accounting deals with. */
  datatype Books = Books(cqs: seq<CqState>, admin: nat, io: nat)

  /** A call visits the admin queue and the created queues up to n. */
  predicate Visits(cs: seq<CqState>, n: nat, j: nat)
  {
    j < |cs| && (j == 0 || (j <= n && cs[j].created))
  }

  ghost predicate Countables(cs: seq<CqState>, n: nat)
  {
    n < |cs| && forall j: nat :: Visits(cs, n, j) ==> cs[j].Usable() && cs[j].pdoTail < |cs[j].ring|
  }

  lemma {:induction false} CountablesAre(cs: seq<CqState>, n: nat)
    requires Countables(cs, n)
    ensures cs[0].Usable() && cs[0].pdoTail < |cs[0].ring|
    ensures forall i :: 1 <= i <= n ==> Countable(cs[i])
  {
    assert Visits(cs, n, 0);
    forall i | 1 <= i <= n
      ensures Countable(cs[i])
    {
      assert cs[i].created ==> Visits(cs, n, i);
    }
  }

  /** The queues after a call: the driver's tails have caught up. */
  function CaughtUp(cs: seq<CqState>, n: nat): (r: seq<CqState>)
    ensures |r| == |cs|
  {
    seq(|cs|, (j: nat) requires j < |cs| => if Visits(cs, n, j) then cs[j].(pdoTail := cs[j].tail) else cs[j])
  }

  /** One call. */
  function Collected(b: Books, n: nat): (r: Books)
    requires Countables(b.cqs, n)
  {
    CountablesAre(b.cqs, n);
    Books(CaughtUp(b.cqs, n), b.admin + Delta(b.cqs[0]), b.io + SumDeltas(b.cqs, n))
  }

  /** n completions arrive in a queue. */
  function Arrived(c: CqState, n: nat): (r: CqState)
    requires c.Usable()
  {
    c.(tail := SlotAfter(c.tail, n, |c.ring|))
  }

  /** posts[j] completions arrive in each queue j. */
  function ArrivedAll(cs: seq<CqState>, posts: seq<nat>): (r: seq<CqState>)
    requires |posts| == |cs|
    ensures |r| == |cs|
  {
    seq(|cs|, (j: nat) requires j < |cs| => if cs[j].Usable() then Arrived(cs[j], posts[j]) else cs[j])
  }

  /** The queues a call visits have been looked at since their last completion. */
  ghost predicate Settled(cs: seq<CqState>, n: nat)
  {
    n < |cs| && forall j: nat :: Visits(cs, n, j) ==> cs[j].Usable() && cs[j].pdoTail == cs[j].tail
  }

  lemma {:induction false} SmallDelta(c: CqState, n: nat)
    requires c.Usable() && c.pdoTail == c.tail && n < |c.ring|
    ensures Delta(Arrived(c, n)) == Slot(n, |c.ring|) == n
  {
    SmallCount(n, |c.ring|);
    SmallCount(c.tail, |c.ring|);
    DistIsDifference(c.tail, c.tail + n, |c.ring|);
  }

  lemma {:induction false} LapLess(c: CqState, n: nat)
    requires c.Usable() && n >= |c.ring|
    ensures Arrived(c, n) == Arrived(c, n - |c.ring|)
    ensures Slot(n, |c.ring|) == Slot(n - |c.ring|, |c.ring|)
  {
    OneLap(c.tail + n - |c.ring|, |c.ring|);
    OneLap(n - |c.ring|, |c.ring|);
  }

  /** One call counts the completions that arrived in a queue modulo its capacity. */
  lemma {:induction false} DeltaIsRemainder(c: CqState, n: nat)
    requires c.Usable() && c.pdoTail == c.tail
    ensures Delta(Arrived(c, n)) == Slot(n, |c.ring|) <= n
    ensures Slot(n, |c.ring|) == n <==> n < |c.ring|
    decreases n
  {
    if n < |c.ring| {
      SmallDelta(c, n);
    } else {
      DeltaIsRemainder(c, n - |c.ring|);
      LapLess(c, n);
    }
  }

  /** What arrived in the created queues 1 to n. */
  function SumPosts(cs: seq<CqState>, n: nat, posts: seq<nat>): nat
    requires n < |cs| == |posts|
  {
    if n == 0 then 0 else SumPosts(cs, n - 1, posts) + (if cs[n].created then posts[n] else 0)
  }

  /** Less than a lap arrived in each of them. */
  predicate InTime(cs: seq<CqState>, n: nat, posts: seq<nat>)
    requires n < |cs| == |posts|
  {
    forall j :: 1 <= j <= n && cs[j].created ==> posts[j] < |cs[j].ring|
  }

  lemma {:induction false} ArrivedCountable(cs: seq<CqState>, n: nat, posts: seq<nat>)
    requires Settled(cs, n) && |posts| == |cs|
    ensures Countables(ArrivedAll(cs, posts), n)
  {
    var after := ArrivedAll(cs, posts);
    forall j: nat | Visits(after, n, j)
      ensures after[j].Usable() && after[j].pdoTail < |after[j].ring|
    {
      assert Visits(cs, n, j);
    }
  }

  lemma {:induction false} SumIsRemainders(cs: seq<CqState>, n: nat, m: nat, posts: seq<nat>)
    requires Settled(cs, n) && |posts| == |cs| && m <= n && Countables(ArrivedAll(cs, posts), n)
    ensures forall i :: 1 <= i <= m ==> Countable(ArrivedAll(cs, posts)[i])
    ensures SumDeltas(ArrivedAll(cs, posts), m) <= SumPosts(cs, m, posts)
    ensures SumDeltas(ArrivedAll(cs, posts), m) == SumPosts(cs, m, posts) <==> InTime(cs, m, posts)
    decreases m
  {
    CountablesAre(ArrivedAll(cs, posts), n);
    if m > 0 {
      SumIsRemainders(cs, n, m - 1, posts);
      if cs[m].created {
        assert Visits(cs, n, m);
        DeltaIsRemainder(cs[m], posts[m]);
      }
    }
  }

  /** One call after arrivals. */
  function NextCall(b: Books, n: nat, posts: seq<nat>): (r: Books)
    requires Settled(b.cqs, n) && |posts| == |b.cqs|
  {
    ArrivedCountable(b.cqs, n, posts);
    Collected(b.(cqs := ArrivedAll(b.cqs, posts)), n)
  }

  lemma {:induction false} CallCounts(b: Books, n: nat, posts: seq<nat>)
    requires Settled(b.cqs, n) && |posts| == |b.cqs|
    ensures var r := NextCall(b, n, posts);
            && r.admin <= b.admin + posts[0] && r.io <= b.io + SumPosts(b.cqs, n, posts)
            && (r.admin == b.admin + posts[0] <==> posts[0] < |b.cqs[0].ring|)
            && (r.io == b.io + SumPosts(b.cqs, n, posts) <==> InTime(b.cqs, n, posts))
  {
    ArrivedCountable(b.cqs, n, posts);
    assert Visits(b.cqs, n, 0);
    DeltaIsRemainder(b.cqs[0], posts[0]);
    SumIsRemainders(b.cqs, n, n, posts);
  }

  predicate SameQueues(a: seq<CqState>, b: seq<CqState>)
  {
    |a| == |b| && forall j :: 0 <= j < |a| ==> a[j].created == b[j].created && |a[j].ring| == |b[j].ring|
  }

  lemma {:induction false} CallSettles(b: Books, n: nat, posts: seq<nat>)
    requires Settled(b.cqs, n) && |posts| == |b.cqs|
    ensures var r := NextCall(b, n, posts);
            Settled(r.cqs, n) && SameQueues(b.cqs, r.cqs)
  {
    ArrivedCountable(b.cqs, n, posts);
    var mid, r := ArrivedAll(b.cqs, posts), NextCall(b, n, posts);
    forall j: nat | Visits(r.cqs, n, j)
      ensures r.cqs[j].Usable() && r.cqs[j].pdoTail == r.cqs[j].tail
    {
      assert Visits(b.cqs, n, j) && Visits(mid, n, j);
    }
  }

  lemma {:induction false} SameSums(a: seq<CqState>, b: seq<CqState>, n: nat, posts: seq<nat>)
    requires SameQueues(a, b) && n < |a| == |posts|
    ensures SumPosts(a, n, posts) == SumPosts(b, n, posts) && (InTime(a, n, posts) <==> InTime(b, n, posts))
    decreases n
  {
    if n > 0 {
      SameSums(a, b, n - 1, posts);
    }
  }

  predicate Rounds(cs: seq<CqState>, n: nat, rounds: seq<seq<nat>>)
  {
    n < |cs| && forall k :: 0 <= k < |rounds| ==> |rounds[k]| == |cs|
  }

  /** One call after each round of arrivals. */
  function AfterCalls(b: Books, n: nat, rounds: seq<seq<nat>>): (r: Books)
    requires Settled(b.cqs, n) && Rounds(b.cqs, n, rounds)
    decreases |rounds|
  {
    if rounds == [] then b
    else
      CallSettles(b, n, rounds[0]);
      AfterCalls(NextCall(b, n, rounds[0]), n, rounds[1..])
  }

  function AllAdmin(cs: seq<CqState>, n: nat, rounds: seq<seq<nat>>): nat
    requires Rounds(cs, n, rounds)
    decreases |rounds|
  {
    if rounds == [] then 0 else rounds[0][0] + AllAdmin(cs, n, rounds[1..])
  }

  function AllIo(cs: seq<CqState>, n: nat, rounds: seq<seq<nat>>): nat
    requires Rounds(cs, n, rounds)
    decreases |rounds|
  {
    if rounds == [] then 0 else SumPosts(cs, n, rounds[0]) + AllIo(cs, n, rounds[1..])
  }

  lemma {:induction false} SameTotals(a: seq<CqState>, b: seq<CqState>, n: nat, rounds: seq<seq<nat>>)
    requires SameQueues(a, b) && Rounds(a, n, rounds)
    ensures AllAdmin(a, n, rounds) == AllAdmin(b, n, rounds) && AllIo(a, n, rounds) == AllIo(b, n, rounds)
    ensures forall k :: 0 <= k < |rounds| ==> (InTime(a, n, rounds[k]) <==> InTime(b, n, rounds[k]))
    decreases |rounds|
  {
    if rounds != [] {
      SameTotals(a, b, n, rounds[1..]);
      SameSums(a, b, n, rounds[0]);
      assert forall k :: 1 <= k < |rounds| ==> rounds[k] == rounds[1..][k - 1];
    }
  }

  lemma {:induction false} FirstAndRest(cs: seq<CqState>, n: nat, rounds: seq<seq<nat>>)
    requires Rounds(cs, n, rounds) && rounds != []
    ensures var rest := rounds[1..];
            && Rounds(cs, n, rest)
            && ((forall k :: 0 <= k < |rounds| ==> InTime(cs, n, rounds[k])) <==>
                InTime(cs, n, rounds[0]) && forall k :: 0 <= k < |rest| ==> InTime(cs, n, rest[k]))
            && ((forall k :: 0 <= k < |rounds| ==> rounds[k][0] < |cs[0].ring|) <==>
                rounds[0][0] < |cs[0].ring| && forall k :: 0 <= k < |rest| ==> rest[k][0] < |cs[0].ring|)
  {
    var rest := rounds[1..];
    assert forall k :: 1 <= k < |rounds| ==> rounds[k] == rest[k - 1];
    assert forall k :: 0 <= k < |rest| ==> rest[k] == rounds[k + 1];
  }

  /** Over any number of calls either counter has grown by the completions that arrived in its queues if and only
      if fewer than their capacity arrived in each of them before each call; otherwise it falls short. */
  lemma {:induction false} CountingTelescopes(b: Books, n: nat, rounds: seq<seq<nat>>)
    requires Settled(b.cqs, n) && Rounds(b.cqs, n, rounds)
    ensures var r := AfterCalls(b, n, rounds);
            && r.admin <= b.admin + AllAdmin(b.cqs, n, rounds) && r.io <= b.io + AllIo(b.cqs, n, rounds)
            && (r.admin == b.admin + AllAdmin(b.cqs, n, rounds) <==>
                  forall k :: 0 <= k < |rounds| ==> rounds[k][0] < |b.cqs[0].ring|)
            && (r.io == b.io + AllIo(b.cqs, n, rounds) <==>
                  forall k :: 0 <= k < |rounds| ==> InTime(b.cqs, n, rounds[k]))
    decreases |rounds|
  {
    if rounds != [] {
      var next := NextCall(b, n, rounds[0]);
      CallSettles(b, n, rounds[0]);
      CallCounts(b, n, rounds[0]);
      CountingTelescopes(next, n, rounds[1..]);
      SameTotals(b.cqs, next.cqs, n, rounds[1..]);
      FirstAndRest(b.cqs, n, rounds);
    }
  }

  class Driver {
    const ctl: Controller
    const ring: Ring
    var userReady: bool

    constructor (ctl: Controller, ring: Ring)
      ensures this.ctl == ctl && this.ring == ring && !userReady
    {
      this.ctl, this.ring, userReady := ctl, ring, false;
    }

    ghost predicate Valid()
      reads this, ctl, ctl.sqs, ctl.cqs, ring
    {
      && ctl.Valid() && ring.Valid() && ring.entries as object != ctl.sqs && ring.entries as object != ctl.cqs
      && ctl.sqs[0].Usable() && ctl.cqs[0].Usable() && |ctl.sqs[0].slots| == |ctl.cqs[0].ring|
    }

    // ---------- forwarding ----------

    /** Publishes the new tail and notifies. A full ring loses the notification, never the tail. The doorbell
        value is not compared with the capacity. */
    method ForwardAdminCommands(newTail: u32)
      requires Valid()
      modifies ctl.sqs, ring`tail, ring.entries
      ensures userReady ==> (Valid() <==> newTail < |ctl.sqs[0].slots|)
      ensures !userReady ==> Valid()
      ensures ctl.sqs[..] == if userReady then old(ctl.sqs[..])[0 := old(ctl.sqs[0]).(tail := newTail)]
                             else old(ctl.sqs[..])
      ensures var pushed := userReady && !Full(ring.head, old(ring.tail), ring.entries.Length);
              && ring.tail == (if pushed then Next(old(ring.tail), ring.entries.Length) else old(ring.tail))
              && ring.entries[..] == if pushed then old(ring.entries[..])[old(ring.tail) := Entry(0, 0, newTail)]
                                     else old(ring.entries[..])
    {
      if !userReady {
        return;
      }
      ctl.sqs[0] := ctl.sqs[0].(tail := newTail);
      var pushed := ring.Push(0, 0, newTail);
    }

    method ForwardIoCommands(qid: u16, newTail: u32)
      requires Valid()
      modifies ctl.sqs, ring`tail, ring.entries
      ensures userReady && 1 <= qid <= MAX_IO_QUEUES && ctl.sqs[qid].valid ==>
                (Valid() <==> newTail < |ctl.sqs[qid].slots|)
      ensures !(userReady && 1 <= qid <= MAX_IO_QUEUES && ctl.sqs[qid].valid) ==> Valid()
      ensures var forwarded := userReady && 1 <= qid <= MAX_IO_QUEUES;
              var pushed := forwarded && !Full(ring.head, old(ring.tail), ring.entries.Length);
              && ctl.sqs[..] == (if forwarded then old(ctl.sqs[..])[qid := old(ctl.sqs[qid]).(tail := newTail)]
                                 else old(ctl.sqs[..]))
              && ring.tail == (if pushed then Next(old(ring.tail), ring.entries.Length) else old(ring.tail))
              && ring.entries[..] == if pushed then old(ring.entries[..])[old(ring.tail) := Entry(qid, 0, newTail)]
                                     else old(ring.entries[..])
    {
      if !userReady {
        return;
      }
      if qid == 0 || qid > MAX_IO_QUEUES {
        return;
      }
      ctl.sqs[qid] := ctl.sqs[qid].(tail := newTail);
      var pushed := ring.Push(qid, 0, newTail);
    }

    // ---------- completions from the server ----------

    method ProcessUserCompletions()
      requires Valid() && Countables(ctl.cqs[..], ctl.ioQueueCount)
      modifies ctl`adminCommandsProcessed, ctl`ioCommandsProcessed, ctl.cqs
      ensures Valid()
      ensures Books(ctl.cqs[..], ctl.adminCommandsProcessed, ctl.ioCommandsProcessed) ==
              Collected(old(Books(ctl.cqs[..], ctl.adminCommandsProcessed, ctl.ioCommandsProcessed)), ctl.ioQueueCount)
    {
      ghost var was := ctl.cqs[..];
      CountablesAre(was, ctl.ioQueueCount);
      var delta := TakeDelta(0);
      ctl.adminCommandsProcessed := ctl.adminCommandsProcessed + delta;
      var i := 0;
      while i < ctl.ioQueueCount
        invariant i <= ctl.ioQueueCount
        invariant ctl.adminCommandsProcessed == old(ctl.adminCommandsProcessed) + Delta(was[0])
        invariant ctl.ioCommandsProcessed == old(ctl.ioCommandsProcessed) + SumDeltas(was, i)
        invariant forall j :: 0 <= j <= MAX_IO_QUEUES ==>
                    ctl.cqs[j] == if j == 0 || (j <= i && was[j].created) then was[j].(pdoTail := was[j].tail)
                                  else was[j]
      {
        i := i + 1;
        if ctl.cqs[i].created {
          delta := TakeDelta(i);
          ctl.ioCommandsProcessed := ctl.ioCommandsProcessed + delta;
        }
      }
      assert ctl.cqs[..] == CaughtUp(was, ctl.ioQueueCount);
    }

    /** The wrapped difference of one queue's tails; the driver's tail catches up. */
    method TakeDelta(i: u16) returns (delta: nat)
      requires i < ctl.cqs.Length && ctl.cqs[i].Usable() && ctl.cqs[i].pdoTail < |ctl.cqs[i].ring|
      modifies ctl.cqs
      ensures delta == Delta(old(ctl.cqs[i]))
      ensures ctl.cqs[i] == old(ctl.cqs[i]).(pdoTail := old(ctl.cqs[i]).tail)
      ensures forall j :: 0 <= j < ctl.cqs.Length && j != i ==> ctl.cqs[j] == old(ctl.cqs[j])
    {
      var tail, last := ctl.cqs[i].tail, ctl.cqs[i].pdoTail;
      delta := 0;
      if tail != last {
        delta := if tail >= last then tail - last else |ctl.cqs[i].ring| - last + tail;
        ctl.cqs[i] := ctl.cqs[i].(pdoTail := tail);
      }
    }

    // ---------- crash recovery ----------

    /** The loop over one queue's pending commands. The completion queue is the one with the same
        id, and the entries wrap by that queue's capacity. Only the descriptors are written. */
    method AbortQueue(i: u16) returns (count: nat)
      requires ctl.Valid() && i <= MAX_IO_QUEUES && ctl.sqs[i].Usable() && ctl.cqs[i].Usable()
      modifies ctl.sqs, ctl.cqs
      ensures ctl.Valid() && count == old(ctl.sqs[i].View().Pending())
      ensures ctl.sqs[i] == old(ctl.sqs[i].(head := ctl.sqs[i].tail))
      ensures var q := PutAll(old(ctl.cqs[i].Described()), AbortAll(old(ctl.sqs[i].View()), i));
              ctl.cqs[i] == old(ctl.cqs[i]).(ring := q.ring, tail := q.tail, phase := q.phase)
      ensures forall j :: 0 <= j <= MAX_IO_QUEUES && j != i ==>
                ctl.sqs[j] == old(ctl.sqs[j]) && ctl.cqs[j] == old(ctl.cqs[j])
    {
      ghost var sq, cq := ctl.sqs[i].View(), ctl.cqs[i].Described();
      var head, tail, capacity := ctl.sqs[i].head, ctl.sqs[i].tail, |ctl.sqs[i].slots|;
      var cqTail, phase := ctl.cqs[i].tail, ctl.cqs[i].phase;
      count := 0;
      SmallCount(head, capacity);
      while head != tail
        invariant count <= sq.Pending() && head == Dropped(sq, count).head
        invariant 0 <= cqTail < |cq.ring| == |ctl.cqs[i].ring|
        invariant unchanged(ctl.sqs) && ctl.cqs[i] == old(ctl.cqs[i]).(ring := ctl.cqs[i].ring)
        invariant forall j :: 0 <= j <= MAX_IO_QUEUES && j != i ==> ctl.cqs[j] == old(ctl.cqs[j])
        invariant Cq(ctl.cqs[i].ring, cqTail, phase) == PutAll(cq, AbortEntries(sq, i, count))
        decreases sq.Pending() - count
      {
        AbortOneMore(sq, cq, i, count, head);
        var cqe := Completion(0, 0, head % 0x1_0000, i, ctl.sqs[i].slots[head].cid,
                              MakeStatus(0, SC_INTERNAL_ERROR, false));
        cqTail, phase := ctl.Store(i, cqTail, phase, cqe);
        NextIsMod(head, capacity);
        head := (head + 1) % capacity;
        count := count + 1;
      }
      NotYetAll(sq, count);
      ctl.sqs[i] := ctl.sqs[i].(head := head);
      ctl.cqs[i] := ctl.cqs[i].(tail := cqTail, phase := phase);
    }

    /** The admin queue: the driver's tail and AdminCqPhase follow, its phase tag does not. */
    method AbortAdminQueue() returns (count: nat)
      requires Valid()
      modifies ctl`adminCqPhase, ctl.sqs, ctl.cqs
      ensures ctl.Valid() && count == old(ctl.sqs[0].View().Pending())
      ensures ctl.sqs[0] == old(ctl.sqs[0].(head := ctl.sqs[0].tail))
      ensures ctl.cqs[0].Usable() && ctl.cqs[0].phaseTag == old(ctl.cqs[0].phaseTag)
      ensures ctl.cqs[0].Described() == PutAll(old(ctl.cqs[0].Described()), AbortAll(old(ctl.sqs[0].View()), 0))
      ensures count > 0 ==> ctl.cqs[0].pdoTail == ctl.cqs[0].tail && ctl.adminCqPhase == ctl.cqs[0].phase
      ensures count == 0 ==> ctl.cqs[0].pdoTail == old(ctl.cqs[0].pdoTail) && ctl.adminCqPhase == old(ctl.adminCqPhase)
      ensures ctl.sqs[..] == old(ctl.sqs[..])[0 := ctl.sqs[0]] && ctl.cqs[..] == old(ctl.cqs[..])[0 := ctl.cqs[0]]
    {
      count := AbortQueue(0);
      if count > 0 {
        ctl.cqs[0] := ctl.cqs[0].(pdoTail := ctl.cqs[0].tail);
        ctl.adminCqPhase := ctl.cqs[0].phase;
      }
    }

    /** One turn of the loop over the I/O queues: the guards, the entries, and the driver's copy. */
    method AbortIoQueue(i: u16) returns (count: nat)
      requires ctl.Valid() && i <= MAX_IO_QUEUES
      requires LivePending(ctl.sqs[i]) > 0 ==> ctl.cqs[i].Usable()
      modifies ctl.sqs, ctl.cqs
      ensures ctl.Valid() && count == LivePending(old(ctl.sqs[i]))
      ensures ctl.sqs[i] == AbortedSq(old(ctl.sqs[i]))
      ensures ctl.sqs[i] == if old(ctl.sqs[i]).created && old(ctl.sqs[i]).valid
                            then old(ctl.sqs[i]).(head := old(ctl.sqs[i]).tail) else old(ctl.sqs[i])
      ensures ctl.cqs[i] == AbortedCq(old(ctl.sqs[i]), old(ctl.cqs[i]), i)
      ensures forall j :: 0 <= j <= MAX_IO_QUEUES && j != i ==>
                ctl.sqs[j] == old(ctl.sqs[j]) && ctl.cqs[j] == old(ctl.cqs[j])
    {
      AbortedSqIs(ctl.sqs[i]);
      if !ctl.sqs[i].created || !ctl.sqs[i].valid {
        return 0;
      }
      if ctl.sqs[i].head == ctl.sqs[i].tail || |ctl.sqs[i].slots| == 0 {
        return 0;
      }
      count := AbortQueue(i);
      ctl.cqs[i] := ctl.cqs[i].(pdoTail := ctl.cqs[i].tail, phaseTag := ctl.cqs[i].phase);
    }

    /** The queues 1 to n are aborted, all others as they were. */
    ghost predicate AbortedUpTo(S: seq<SqState>, C: seq<CqState>, n: nat)
      reads ctl.sqs, ctl.cqs
    {
      && n <= MAX_IO_QUEUES && |S| == |C| == ctl.sqs.Length == ctl.cqs.Length == MAX_IO_QUEUES + 1
      && (forall j :: 1 <= j <= n && LivePending(S[j]) > 0 ==> C[j].Usable())
      && (forall j :: 1 <= j <= n ==> ctl.sqs[j] == AbortedSq(S[j]) && ctl.cqs[j] == AbortedCq(S[j], C[j], j))
      && (forall j :: 0 <= j <= MAX_IO_QUEUES && !(1 <= j <= n) ==> ctl.sqs[j] == S[j] && ctl.cqs[j] == C[j])
    }

    method AbortNext(i: u16, ghost S: seq<SqState>, ghost C: seq<CqState>) returns (count: nat)
      requires ctl.Valid() && 1 <= i <= MAX_IO_QUEUES && AbortedUpTo(S, C, i - 1)
      requires LivePending(S[i]) > 0 ==> C[i].Usable()
      modifies ctl.sqs, ctl.cqs
      ensures ctl.Valid() && count == LivePending(S[i]) && AbortedUpTo(S, C, i)
    {
      count := AbortIoQueue(i);
    }

    /** The loop over the I/O queues visits the ids up to IoQueueCount and leaves the rest alone. */
    method AbortIoQueues() returns (aborted: nat)
      requires ctl.Valid()
      requires forall i :: 1 <= i <= ctl.ioQueueCount && LivePending(ctl.sqs[i]) > 0 ==> ctl.cqs[i].Usable()
      modifies ctl.sqs, ctl.cqs
      ensures ctl.Valid() && aborted == SumLive(old(ctl.sqs[..]), ctl.ioQueueCount)
      ensures AbortedUpTo(old(ctl.sqs[..]), old(ctl.cqs[..]), ctl.ioQueueCount)
    {
      ghost var S, C := ctl.sqs[..], ctl.cqs[..];
      aborted := 0;
      var i := 0;
      while i < ctl.ioQueueCount
        invariant i <= ctl.ioQueueCount && ctl.Valid() && aborted == SumLive(S, i)
        invariant AbortedUpTo(S, C, i)
      {
        i := i + 1;
        var count := AbortNext(i, S, C);
        aborted := aborted + count;
      }
    }

    /** The I/O queues, after the admin queue. */
    method AbortTheRest(ghost S: seq<SqState>, ghost C: seq<CqState>) returns (aborted: nat)
      requires ctl.Valid() && |S| == |C| == MAX_IO_QUEUES + 1
      requires ctl.sqs[..] == S[0 := ctl.sqs[0]] && ctl.cqs[..] == C[0 := ctl.cqs[0]]
      requires forall i :: 1 <= i <= ctl.ioQueueCount && LivePending(S[i]) > 0 ==> C[i].Usable()
      modifies ctl.sqs, ctl.cqs
      ensures ctl.Valid() && aborted == SumLive(S, ctl.ioQueueCount)
      ensures ctl.sqs[0] == old(ctl.sqs[0]) && ctl.cqs[0] == old(ctl.cqs[0])
      ensures AbortedUpTo(S[0 := ctl.sqs[0]], C[0 := ctl.cqs[0]], ctl.ioQueueCount)
      ensures forall i :: 1 <= i <= MAX_IO_QUEUES ==>
                ctl.sqs[i] == if i <= ctl.ioQueueCount && S[i].created && S[i].valid then S[i].(head := S[i].tail)
                              else S[i]
    {
      assert forall i :: 1 <= i <= MAX_IO_QUEUES ==> ctl.sqs[..][i] == S[i] && ctl.cqs[..][i] == C[i];
      SumLiveSame(S, ctl.sqs[..], ctl.ioQueueCount);
      AbortedSqsAre(ctl.sqs[..]);
      aborted := AbortIoQueues();
    }

    /** Every pending command of the admin queue, and of every created, valid I/O queue up to
        IoQueueCount, gets one completion, in the completion queue with the same id. For the admin
        queue the driver's phase tag is not among the fields brought back in step. */
    method AbortPendingUserCommands() returns (aborted: nat)
      requires Valid()
      requires forall i :: 1 <= i <= ctl.ioQueueCount && LivePending(ctl.sqs[i]) > 0 ==> ctl.cqs[i].Usable()
      modifies ctl`adminCqPhase, ctl`errorCount, ctl.sqs, ctl.cqs
      ensures ctl.Valid()
      ensures AbortedUpTo(old(ctl.sqs[..])[0 := ctl.sqs[0]], old(ctl.cqs[..])[0 := ctl.cqs[0]], ctl.ioQueueCount)
      ensures forall i :: 1 <= i <= MAX_IO_QUEUES ==>
                ctl.sqs[i] == if i <= ctl.ioQueueCount && old(ctl.sqs[i]).created && old(ctl.sqs[i]).valid
                              then old(ctl.sqs[i]).(head := old(ctl.sqs[i]).tail)
                              else old(ctl.sqs[i])
      ensures var s, c := old(ctl.sqs[0]), old(ctl.cqs[0]);
              && ctl.sqs[0] == s.(head := s.tail)
              && ctl.cqs[0].Usable() && ctl.cqs[0].Described() == PutAll(c.Described(), AbortAll(s.View(), 0))
              && ctl.cqs[0].phaseTag == c.phaseTag
              && aborted == s.View().Pending() + SumLive(old(ctl.sqs[..]), ctl.ioQueueCount)
      ensures old(ctl.sqs[0].View().Pending()) > 0 ==>
                ctl.cqs[0].pdoTail == ctl.cqs[0].tail && ctl.adminCqPhase == ctl.cqs[0].phase
      ensures old(ctl.sqs[0].View().Pending()) == 0 ==>
                ctl.cqs[0].pdoTail == old(ctl.cqs[0].pdoTail) && ctl.adminCqPhase == old(ctl.adminCqPhase)
      ensures ctl.errorCount == old(ctl.errorCount) + aborted
    {
      aborted := AbortAdminQueue();
      var io := AbortTheRest(old(ctl.sqs[..]), old(ctl.cqs[..]));
      aborted := aborted + io;
      if aborted > 0 {
        ctl.errorCount := ctl.errorCount + aborted;
      }
    }
  }
}

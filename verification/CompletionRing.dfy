/** A completion queue as the host sees it: entries are stored round the ring, each stamped with
    the producer's phase, which flips on every wrap (sections 4.1 and 4.6 of NVM Express 1.4).
    The driver's post, the batch post, the engine's post and the crash abort all store this way. */
module CompletionRing {
  import opened NvmeTypes
  import opened RingArith

  datatype Cq = Cq(ring: seq<Completion>, tail: nat, phase: bool) {
    predicate Valid() { tail < |ring| }
  }

  /** A queue as created: zeroed entries, phase 1. */
  function Fresh(capacity: nat): (q: Cq)
    ensures |q.ring| == capacity && forall k :: 0 <= k < capacity ==> q.ring[k] == Completion(0, 0, 0, 0, 0, 0)
    ensures q.tail == 0 && q.phase
  {
    Cq(seq(capacity, _ => ZERO_COMPLETION), 0, true)
  }

  function Put(q: Cq, e: Completion): (r: Cq)
    requires q.Valid()
    ensures r.Valid() && |r.ring| == |q.ring|
  {
    var tail := Next(q.tail, |q.ring|);
    Cq(q.ring[q.tail := Stamp(e, q.phase)], tail, if tail == 0 then !q.phase else q.phase)
  }

  function PutAll(q: Cq, es: seq<Completion>): (r: Cq)
    requires q.Valid()
    ensures r.Valid() && |r.ring| == |q.ring|
  {
    if es == [] then q else Put(PutAll(q, es[..|es| - 1]), es[|es| - 1])
  }

  /** The phase in force after k entries from slot t0 with phase p0. */
  predicate PhaseAfter(p0: bool, t0: nat, k: nat, c: nat)
    requires c > 0
  {
    p0 == Even(Lap(t0 + k, c))
  }

  /** Posting in two parts is posting the whole. */
  lemma {:induction false} PutAllConcat(q: Cq, a: seq<Completion>, b: seq<Completion>)
    requires q.Valid()
    ensures PutAll(q, a + b) == PutAll(PutAll(q, a), b)
    decreases |b|
  {
    if b == [] {
      assert a + b == a;
    } else {
      var b0 := b[..|b| - 1];
      PutAllConcat(q, a, b0);
      assert (a + b)[..|a + b| - 1] == a + b0;
    }
  }

  /** The slot k entries on from slot t0. */
  function SlotAfter(t0: nat, k: nat, c: nat): (s: nat)
    requires c > 0
    ensures s < c
  {
    Slot(t0 + k, c)
  }

  /** Tail and phase depend on the count alone. */
  lemma {:induction false} PutAllTail(q: Cq, es: seq<Completion>)
    requires q.Valid()
    ensures var r, c := PutAll(q, es), |q.ring|;
            && r.tail == SlotAfter(q.tail, |es|, c)
            && r.phase == PhaseAfter(q.phase, q.tail, |es|, c)
    decreases |es|
  {
    if es == [] {
      SmallCount(q.tail, |q.ring|);
    } else {
      PutAllTail(q, es[..|es| - 1]);
    }
  }

  /** What any number of posts leaves behind, across any number of wraps: the last lap of entries
      stands in its slots, each with its phase. */
  lemma {:induction false} PutAllStored(q: Cq, es: seq<Completion>, j: nat)
    requires q.Valid() && j < |es| <= j + |q.ring|
    ensures var c := |q.ring|;
            PutAll(q, es).ring[SlotAfter(q.tail, j, c)] == Stamp(es[j], PhaseAfter(q.phase, q.tail, j, c))
    decreases |es|
  {
    var es0 := es[..|es| - 1];
    PutAllTail(q, es0);
    if j < |es0| {
      PutAllStored(q, es0, j);
      SlotsDiffer(q.tail + j, q.tail + |es0|, |q.ring|);
    }
  }

  /** Slots the posts have not reached keep their entries. */
  lemma {:induction false} PutAllUntouched(q: Cq, es: seq<Completion>, s: nat)
    requires q.Valid() && s < |q.ring| && |es| <= Dist(q.tail, s, |q.ring|)
    ensures PutAll(q, es).ring[s] == q.ring[s]
    decreases |es|
  {
    if es != [] {
      var es0, d := es[..|es| - 1], Dist(q.tail, s, |q.ring|);
      PutAllUntouched(q, es0, s);
      PutAllTail(q, es0);
      DistReaches(q.tail, s, |q.ring|);
      SlotsDiffer(q.tail + |es0|, q.tail + d, |q.ring|);
    }
  }

  // ---------- the host's side ----------

  /** The phase the host expects of its k-th completion. */
  predicate ExpectedPhase(k: nat, c: nat)
    requires c > 0
  {
    Even(Lap(k, c))
  }

  /** The host's only test for a new entry: the phase tag in the slot it looks at. */
  predicate HostSees(ring: seq<Completion>, taken: nat)
    requires |ring| > 0
  {
    PhaseBit(ring[Slot(taken, |ring|)]) == ExpectedPhase(taken, |ring|)
  }

  /** After n posts to a queue created with capacity c: tail and phase are those of the count, and a
      host that lags at most c entries sees a new entry exactly when there is one, and then it is
      the next one posted. */
  lemma {:induction false} PhaseScan(c: nat, es: seq<Completion>, taken: nat)
    requires c > 0 && taken <= |es| <= taken + c
    ensures var q, n := PutAll(Fresh(c), es), |es|;
            && q.tail == Slot(n, c) && (q.phase <==> Even(Lap(n, c)))
            && (HostSees(q.ring, taken) <==> taken < n)
            && (taken < n ==> q.ring[Slot(taken, c)] == Stamp(es[taken], ExpectedPhase(taken, c)))
  {
    var n := |es|;
    PutAllTail(Fresh(c), es);
    if taken < n {
      PutAllStored(Fresh(c), es, taken);
    } else if n < c {
      SmallCount(n, c);
      PutAllUntouched(Fresh(c), es, n);
    } else {
      PutAllStored(Fresh(c), es, n - c);
      OneLap(n - c, c);
    }
  }

  /** An entry posted later to the slot the host looks at, with none behind it there yet. */
  lemma {:induction false} LaterInSlot(c: nat, es: seq<Completion>, taken: nat, later: nat)
    requires c > 0 && later < |es| <= later + c && Slot(later, c) == Slot(taken, c)
    ensures var ring := PutAll(Fresh(c), es).ring;
            && ring[Slot(taken, c)] == Stamp(es[later], ExpectedPhase(later, c))
            && (HostSees(ring, taken) <==> ExpectedPhase(later, c) == ExpectedPhase(taken, c))
  {
    PutAllStored(Fresh(c), es, later);
  }

  /** What a host finds however far it has fallen behind: m full laps were posted past its entry, the slot
      holds the entry m laps newer, and the host takes it for its next one if m is even. */
  lemma {:induction false} LateHostFinds(c: nat, es: seq<Completion>, taken: nat, m: nat)
    requires c > 0 && taken + m * c < |es| <= taken + m * c + c
    ensures var ring := PutAll(Fresh(c), es).ring;
            && ring[Slot(taken, c)] == Stamp(es[taken + m * c], ExpectedPhase(taken + m * c, c))
            && (HostSees(ring, taken) <==> Even(m))
  {
    LapsOn(taken, m, c);
    EvenSum(Lap(taken, c), m);
    LaterInSlot(c, es, taken, taken + m * c);
  }

  /** The number of full laps posted past an entry that is waiting. */
  function LapsBehind(lag: nat, c: nat): (m: nat)
    requires c > 0 && lag > 0
    ensures m * c < lag <= m * c + c
    ensures m == 0 <==> lag <= c
  {
    if lag <= c then 0 else LapsBehind(lag - c, c) + 1
  }

  /** Exactly how far the host may fall behind: with an entry waiting the slot holds the host's next
      entry, to be seen, if its lag is at most the capacity. Beyond that it holds a later one,
      which the host skips to unnoticed when an even number of laps have passed it, and otherwise
      takes for an empty slot. */
  lemma {:induction false} LagLimit(c: nat, es: seq<Completion>, taken: nat)
    requires c > 0 && taken < |es|
    ensures var ring, m := PutAll(Fresh(c), es).ring, LapsBehind(|es| - taken, c);
            && taken + m * c < |es|
            && ring[Slot(taken, c)] == Stamp(es[taken + m * c], ExpectedPhase(taken + m * c, c))
            && (HostSees(ring, taken) <==> Even(m))
            && (HostSees(ring, taken) && taken + m * c == taken <==> |es| - taken <= c)
  {
    LateHostFinds(c, es, taken, LapsBehind(|es| - taken, c));
  }

  // ---------- runs of host and producer ----------

  datatype Event = Posted(e: Completion) | HostLooks

  /** The queue, everything posted so far, and what the host has taken. */
  datatype Run = Run(q: Cq, posted: seq<Completion>, taken: seq<Completion>)

  /** The host takes the entry it sees; otherwise looking changes nothing. */
  function Happens(r: Run, ev: Event): Run
    requires r.q.Valid()
  {
    match ev
    case Posted(e) => Run(Put(r.q, e), r.posted + [e], r.taken)
    case HostLooks =>
      if HostSees(r.q.ring, |r.taken|)
      then r.(taken := r.taken + [r.q.ring[Slot(|r.taken|, |r.q.ring|)]])
      else r
  }

  /** The environment's promise: nothing is posted while a full lap is unread. */
  ghost predicate Paced(r: Run, evs: seq<Event>)
    requires r.q.Valid()
    decreases |evs|
  {
    evs == [] ||
    ((evs[0].Posted? ==> |r.posted| < |r.taken| + |r.q.ring|) && Paced(Happens(r, evs[0]), evs[1..]))
  }

  function After(r: Run, evs: seq<Event>): (t: Run)
    requires r.q.Valid()
    ensures t.q.Valid()
    decreases |evs|
  {
    if evs == [] then r else After(Happens(r, evs[0]), evs[1..])
  }

  ghost predicate HostInStep(c: nat, r: Run)
  {
    && c > 0 && r.q == PutAll(Fresh(c), r.posted)
    && |r.taken| <= |r.posted| <= |r.taken| + c
    && forall k :: 0 <= k < |r.taken| ==> r.taken[k] == Stamp(r.posted[k], ExpectedPhase(k, c))
  }

  lemma {:induction false} HostStaysInStep(c: nat, r: Run, ev: Event)
    requires HostInStep(c, r)
    requires ev.Posted? ==> |r.posted| < |r.taken| + c
    ensures HostInStep(c, Happens(r, ev))
  {
    if ev.Posted? {
      assert (r.posted + [ev.e])[..|r.posted|] == r.posted;
    } else {
      PhaseScan(c, r.posted, |r.taken|);
    }
  }

  /** Over any paced run the host takes the posted sequence in order, never a stale entry,
      and sees an entry whenever one is waiting. */
  lemma {:induction false} HostRecovers(c: nat, r: Run, evs: seq<Event>)
    requires HostInStep(c, r) && Paced(r, evs)
    ensures var t := After(r, evs);
            && HostInStep(c, t)
            && (HostSees(t.q.ring, |t.taken|) <==> |t.taken| < |t.posted|)
    decreases |evs|
  {
    if evs == [] {
      PhaseScan(c, r.posted, |r.taken|);
    } else {
      HostStaysInStep(c, r, evs[0]);
      HostRecovers(c, Happens(r, evs[0]), evs[1..]);
    }
  }

  function Looks(n: nat): seq<Event> { seq(n, _ => HostLooks) }

  /** Left alone, a host in step finds everything waiting for it, one look each. */
  lemma {:induction false} HostTakesAll(c: nat, r: Run, n: nat)
    requires HostInStep(c, r) && n == |r.posted| - |r.taken|
    ensures var t := After(r, Looks(n));
            HostInStep(c, t) && t.posted == r.posted && |t.taken| == |r.posted|
    decreases n
  {
    if n > 0 {
      PhaseScan(c, r.posted, |r.taken|);
      HostStaysInStep(c, r, HostLooks);
      assert Looks(n)[1..] == Looks(n - 1);
      HostTakesAll(c, Happens(r, HostLooks), n - 1);
    }
  }

  /** A host that does not see the entry in place p never gets past it, however often it looks. */
  lemma {:induction false} HostStuck(r: Run, p: nat, n: nat)
    requires r.q.Valid() && |r.taken| <= p && !HostSees(r.q.ring, p)
    ensures |After(r, Looks(n)).taken| <= p
    decreases n
  {
    if n > 0 {
      assert Looks(n)[1..] == Looks(n - 1);
      HostStuck(Happens(r, HostLooks), p, n - 1);
    }
  }
}

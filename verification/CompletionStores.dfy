/** The post of a completion entry split into its single stores, interleaved with a host that polls the phase
    tag and then loads the fields: the order of the stores, status word last, is what keeps entries whole.
    The driver's posts, the engine's and the crash abort store in this order. */
module CompletionStores {
  import opened NvmeTypes
  import opened RingArith
  import opened CompletionRing

  /** Writing: `stored` fields of entry e are in the slot at the tail; a producer that has stored the status
      word (the sixth) has yet to move the tail. */
  datatype Producer = Idle | Writing(e: Completion, stored: nat)

  /** Loading: the host has seen the phase tag and has loaded `loaded` of the other fields. */
  datatype Host = Watching | Loading(loaded: nat, got: Completion)

  /** The ring in memory, the producer's tail and phase, and the history: what was posted, counted from the
      store of the status word, and what the host has taken. */
  datatype State = State(ring: seq<Completion>, tail: nat, phase: bool, producer: Producer, host: Host,
                         posted: seq<Completion>, taken: seq<Completion>)

  datatype Step = Begin(e: Completion) | Store | MoveTail | Look | Load | Take

  function Init(c: nat): State { State(Fresh(c).ring, 0, true, Idle, Watching, [], []) }

  /** The stores of a post, in order: DW0, DW1, SQHD, SQID, CID, Status. */
  function StoreField(to: Completion, e: Completion, k: nat): Completion
  {
    if k == 0 then to.(dw0 := e.dw0)
    else if k == 1 then to.(dw1 := e.dw1)
    else if k == 2 then to.(sqhd := e.sqhd)
    else if k == 3 then to.(sqid := e.sqid)
    else if k == 4 then to.(cid := e.cid)
    else to.(status := e.status)
  }

  predicate InRange(s: State) { s.tail < |s.ring| }

  predicate Enabled(s: State, step: Step)
  {
    match step
    // nothing is posted while a full lap is unread
    case Begin(_) => s.producer.Idle? && |s.posted| < |s.taken| + |s.ring|
    case Store => s.producer.Writing? && s.producer.stored < 6
    case MoveTail => s.producer.Writing? && s.producer.stored == 6
    case Look => s.host.Watching?
    case Load => s.host.Loading? && s.host.loaded < 6
    case Take => s.host.Loading? && s.host.loaded == 6
  }

  function Apply(s: State, step: Step): State
    requires InRange(s) && Enabled(s, step)
  {
    match step
    case Begin(e) => s.(producer := Writing(e, 0))
    case Store =>
      var e, k := s.producer.e, s.producer.stored;
      s.(ring := s.ring[s.tail := StoreField(s.ring[s.tail], Stamp(e, s.phase), k)], producer := Writing(e, k + 1),
         posted := if k == 5 then s.posted + [e] else s.posted)
    case MoveTail =>
      var tail := Next(s.tail, |s.ring|);
      s.(tail := tail, phase := if tail == 0 then !s.phase else s.phase, producer := Idle)
    case Look =>
      if HostSees(s.ring, |s.taken|) then s.(host := Loading(0, ZERO_COMPLETION)) else s
    case Load =>
      var slot := s.ring[Slot(|s.taken|, |s.ring|)];
      s.(host := Loading(s.host.loaded + 1, StoreField(s.host.got, slot, s.host.loaded)))
    case Take => s.(host := Watching, taken := s.taken + [s.host.got])
  }

  // ---------- what every step keeps ----------

  /** Both entries agree on the first k fields. */
  predicate SameFields(a: Completion, b: Completion, k: nat)
  {
    && (k > 0 ==> a.dw0 == b.dw0) && (k > 1 ==> a.dw1 == b.dw1) && (k > 2 ==> a.sqhd == b.sqhd)
    && (k > 3 ==> a.sqid == b.sqid) && (k > 4 ==> a.cid == b.cid) && (k > 5 ==> a.status == b.status)
  }

  /** The queue as whole posts would have left it. */
  function Whole(s: State): Cq
    requires |s.ring| > 0
  {
    PutAll(Fresh(|s.ring|), s.posted)
  }

  /** In memory all slots are as whole posts left them, but for the one being written: its status word stays
      the old one until the last store, and then the slot is whole. */
  ghost predicate ProducerInv(s: State)
  {
    && s.tail < |s.ring|
    && match s.producer
       case Idle => Cq(s.ring, s.tail, s.phase) == Whole(s)
       case Writing(e, stored) =>
         if stored < 6 then
           && Cq(Whole(s).ring, s.tail, s.phase) == Whole(s)
           && s.ring == Whole(s).ring[s.tail := s.ring[s.tail]]
           && s.ring[s.tail].status == Whole(s).ring[s.tail].status
           && SameFields(s.ring[s.tail], Stamp(e, s.phase), stored)
           && |s.posted| < |s.taken| + |s.ring|
         else
           && stored == 6 && s.ring == Whole(s).ring
           && Whole(s).tail == Next(s.tail, |s.ring|)
           && Whole(s).phase == if Whole(s).tail == 0 then !s.phase else s.phase
  }

  /** The entry the host is due. */
  function Due(s: State): Completion
    requires |s.ring| > 0 && |s.taken| < |s.posted|
  {
    Stamp(s.posted[|s.taken|], ExpectedPhase(|s.taken|, |s.ring|))
  }

  ghost predicate HostInv(s: State)
  {
    && |s.ring| > 0 && |s.taken| <= |s.posted| <= |s.taken| + |s.ring|
    && (forall k :: 0 <= k < |s.taken| ==> s.taken[k] == Stamp(s.posted[k], ExpectedPhase(k, |s.ring|)))
    && (s.host.Loading? ==>
          |s.taken| < |s.posted| && s.host.loaded <= 6 && SameFields(s.host.got, Due(s), s.host.loaded))
  }

  ghost predicate Inv(s: State) { ProducerInv(s) && HostInv(s) }

  lemma {:induction false} WholeGrows(s: State, e: Completion)
    requires |s.ring| > 0
    ensures PutAll(Fresh(|s.ring|), s.posted + [e]) == Put(Whole(s), e)
  {
    assert (s.posted + [e])[..|s.posted|] == s.posted;
  }

  lemma {:induction false} LastStoreMakesWhole(slot: Completion, e: Completion)
    requires SameFields(slot, e, 5)
    ensures StoreField(slot, e, 5) == e
  {
  }

  lemma {:induction false} EarlyStore(s: State)
    requires ProducerInv(s) && Enabled(s, Store) && s.producer.stored < 5
    ensures ProducerInv(Apply(s, Store))
  {
  }

  /** With the status word the slot is whole, and the entry counts as posted. */
  lemma {:induction false} LastStore(s: State)
    requires ProducerInv(s) && Enabled(s, Store) && s.producer.stored == 5
    ensures ProducerInv(Apply(s, Store))
  {
    WholeGrows(s, s.producer.e);
    LastStoreMakesWhole(s.ring[s.tail], Stamp(s.producer.e, s.phase));
    assert Apply(s, Store).ring == Put(Whole(s), s.producer.e).ring;
  }

  lemma {:induction false} StoreKeepsHost(s: State)
    requires ProducerInv(s) && HostInv(s) && Enabled(s, Store)
    ensures HostInv(Apply(s, Store))
  {
  }

  lemma {:induction false} StoreKeepsInv(s: State)
    requires Inv(s) && Enabled(s, Store)
    ensures Inv(Apply(s, Store))
  {
    StoreKeepsHost(s);
    if s.producer.stored == 5 {
      LastStore(s);
    } else {
      EarlyStore(s);
    }
  }

  /** Even in the middle of a post the phase tag tells exactly whether a whole entry is waiting. */
  lemma {:induction false} TagTellsExactly(s: State)
    requires Inv(s)
    ensures HostSees(s.ring, |s.taken|) <==> |s.taken| < |s.posted|
  {
    PhaseScan(|s.ring|, s.posted, |s.taken|);
    assert s.ring[Slot(|s.taken|, |s.ring|)].status == Whole(s).ring[Slot(|s.taken|, |s.ring|)].status;
  }

  /** The slot the host loads from is not the one being written. */
  lemma {:induction false} SlotIsDue(s: State)
    requires Inv(s) && |s.taken| < |s.posted|
    ensures s.ring[Slot(|s.taken|, |s.ring|)] == Due(s)
  {
    PhaseScan(|s.ring|, s.posted, |s.taken|);
    if s.producer.Writing? && s.producer.stored < 6 {
      SlotsDiffer(|s.taken|, |s.posted|, |s.ring|);
    }
  }

  lemma {:induction false} HostKeepsInv(s: State, step: Step)
    requires Inv(s) && Enabled(s, step) && (step.Look? || step.Load? || step.Take?)
    ensures Inv(Apply(s, step))
  {
    if step.Look? {
      TagTellsExactly(s);
    } else if step.Load? {
      SlotIsDue(s);
    }
  }

  lemma {:induction false} StepKeepsInv(s: State, step: Step)
    requires Inv(s) && Enabled(s, step)
    ensures Inv(Apply(s, step))
  {
    if step.Store? {
      StoreKeepsInv(s);
    } else if step.Look? || step.Load? || step.Take? {
      HostKeepsInv(s, step);
    }
  }

  ghost predicate Runs(s: State, steps: seq<Step>, t: State)
    decreases |steps|
  {
    if steps == [] then s == t
    else InRange(s) && Enabled(s, steps[0]) && Runs(Apply(s, steps[0]), steps[1..], t)
  }

  lemma {:induction false} RunKeepsInv(s: State, steps: seq<Step>, t: State)
    requires Inv(s) && Runs(s, steps, t)
    ensures Inv(t) && |t.ring| == |s.ring|
    decreases |steps|
  {
    if steps != [] {
      StepKeepsInv(s, steps[0]);
      RunKeepsInv(Apply(s, steps[0]), steps[1..], t);
    }
  }

  /** In every interleaving of the stores of posts with the looks and loads of a host, as long as nothing is
      posted while a full lap is unread, the host takes exactly the posted entries, in order, each with all its
      fields and never a mixture of two. */
  lemma {:induction false} NeverTorn(c: nat, steps: seq<Step>, t: State)
    requires c > 0 && Runs(Init(c), steps, t)
    ensures |t.taken| <= |t.posted| && |t.ring| == c
    ensures forall k :: 0 <= k < |t.taken| ==> t.taken[k] == Stamp(t.posted[k], ExpectedPhase(k, c))
    ensures HostSees(t.ring, |t.taken|) <==> |t.taken| < |t.posted|
  {
    RunKeepsInv(Init(c), steps, t);
    TagTellsExactly(t);
  }

  lemma {:induction false} RunsCons(s: State, step: Step, rest: seq<Step>, t: State)
    requires InRange(s) && Enabled(s, step) && Runs(Apply(s, step), rest, t)
    ensures Runs(s, [step] + rest, t)
  {
    assert ([step] + rest)[1..] == rest;
  }

  // ---------- without interruption ----------

  /** A slot after k stores. */
  function Partial(slot: Completion, e: Completion, k: nat): Completion
  {
    if k == 0 then slot else StoreField(Partial(slot, e, k - 1), e, k - 1)
  }

  lemma {:induction false} PartialIsSame(slot: Completion, e: Completion, k: nat)
    requires k <= 6
    ensures SameFields(Partial(slot, e, k), e, k)
    decreases k
  {
    if k > 0 {
      PartialIsSame(slot, e, k - 1);
    }
  }

  /** The state k stores into a post. */
  function Midway(s: State, e: Completion, k: nat): State
    requires InRange(s)
  {
    s.(ring := s.ring[s.tail := Partial(s.ring[s.tail], Stamp(e, s.phase), k)], producer := Writing(e, k),
       posted := if k == 6 then s.posted + [e] else s.posted)
  }

  lemma {:induction false} MidwayStore(s: State, e: Completion, k: nat)
    requires InRange(s) && k < 6
    ensures Enabled(Midway(s, e, k), Store) && Apply(Midway(s, e, k), Store) == Midway(s, e, k + 1)
  {
    var m := Midway(s, e, k);
    assert m.ring[s.tail := StoreField(m.ring[s.tail], Stamp(e, s.phase), k)] == Midway(s, e, k + 1).ring;
  }

  /** The state after the whole post. */
  function AfterPost(s: State, e: Completion): State
    requires InRange(s)
  {
    var q := Put(Cq(s.ring, s.tail, s.phase), e);
    s.(ring := q.ring, tail := q.tail, phase := q.phase, producer := Idle, posted := s.posted + [e])
  }

  lemma {:induction false} MidwayEnd(s: State, e: Completion)
    requires InRange(s)
    ensures Enabled(Midway(s, e, 6), MoveTail) && Apply(Midway(s, e, 6), MoveTail) == AfterPost(s, e)
  {
    PartialIsSame(s.ring[s.tail], Stamp(e, s.phase), 6);
  }

  /** n stores, then the tail. */
  function StoresLeft(n: nat): seq<Step> { seq(n, _ => Store) + [MoveTail] }

  lemma {:induction false} RestOfPost(s: State, e: Completion, k: nat)
    requires InRange(s) && k <= 6
    ensures Runs(Midway(s, e, k), StoresLeft(6 - k), AfterPost(s, e))
    decreases 6 - k
  {
    if k == 6 {
      MidwayEnd(s, e);
      assert Runs(AfterPost(s, e), [], AfterPost(s, e));
      RunsCons(Midway(s, e, 6), MoveTail, [], AfterPost(s, e));
      assert StoresLeft(0) == [MoveTail] + [];
    } else {
      MidwayStore(s, e, k);
      RestOfPost(s, e, k + 1);
      RunsCons(Midway(s, e, k), Store, StoresLeft(5 - k), AfterPost(s, e));
      assert StoresLeft(6 - k) == [Store] + StoresLeft(5 - k);
    }
  }

  /** Run without interruption the stores are the whole post. */
  lemma {:induction false} UninterruptedPost(s: State, e: Completion)
    requires Inv(s) && s.producer.Idle? && |s.posted| < |s.taken| + |s.ring|
    ensures Runs(s, [Begin(e)] + StoresLeft(6), AfterPost(s, e))
  {
    assert s.ring[s.tail := s.ring[s.tail]] == s.ring;
    assert Apply(s, Begin(e)) == Midway(s, e, 0);
    RestOfPost(s, e, 0);
    RunsCons(s, Begin(e), StoresLeft(6), AfterPost(s, e));
  }
}

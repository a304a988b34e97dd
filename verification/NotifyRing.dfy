/** The notification ring: one producer (the driver), one consumer (the server's command engine).
    The class is the push as the driver runs it; the state machine splits both sides into the
    single memory accesses that can interleave. */
module NotifyRing {
  import opened NvmeTypes
  import opened RingArith

  /** kind 0: a submission queue has new commands; 1: a completion queue was updated. */
  datatype Entry = Entry(queueId: u16, kind: u16, index: u32)

  const NO_ENTRY := Entry(0, 0, 0)

  /** The next notification is dropped exactly when advancing the tail would meet the head. */
  predicate Full(head: nat, tail: nat, size: nat)
    requires tail < size
  {
    Next(tail, size) == head
  }

  class Ring {
    var head: nat
    var tail: nat
    const entries: array<Entry>

    ghost predicate Valid()
      reads this
    {
      entries.Length >= 2 && head < entries.Length && tail < entries.Length
    }

    /** As VnvmeAllocateShm leaves it; the driver passes 256. */
    constructor (size: nat)
      requires size >= 2
      ensures Valid() && fresh(entries) && entries.Length == size && head == tail == 0
      ensures forall i :: 0 <= i < size ==> entries[i] == NO_ENTRY
    {
      entries := new Entry[size](_ => NO_ENTRY);
      head, tail := 0, 0;
    }

    method Push(queueId: u16, kind: u16, index: u32) returns (ok: bool)
      requires Valid()
      modifies this`tail, entries
      ensures Valid()
      ensures ok == !Full(old(head), old(tail), entries.Length)
      ensures ok ==> tail == Next(old(tail), entries.Length)
                     && entries[..] == old(entries[..])[old(tail) := Entry(queueId, kind, index)]
      ensures !ok ==> tail == old(tail) && entries[..] == old(entries[..])
    {
      var slot := tail;
      NextIsMod(slot, entries.Length);
      var nextTail := (slot + 1) % entries.Length;
      if nextTail == head {
        return false;
      }
      entries[slot] := entries[slot].(queueId := queueId);
      entries[slot] := entries[slot].(kind := kind);
      entries[slot] := entries[slot].(index := index);
      tail := nextTail;
      return true;
    }
  }

  // ---------- interleavings ----------

  datatype Producer =
    | Idle
    | Filling(slot: nat, entry: Entry, written: nat)  // passed the full check; `written` fields stored

  datatype Consumer =
    | Waiting
    | Draining(cur: nat, stop: nat, fields: nat, got: Entry)  // between the snapshot and the head update

  /** Shared memory, both program counters, and the history: what was accepted and what was read.
      `published` counts the entries the consumer has released, `snapshot` those it may read. */
  datatype State = State(
    size: nat, head: nat, tail: nat, entries: seq<Entry>,
    producer: Producer, consumer: Consumer,
    accepted: seq<Entry>, consumed: seq<Entry>, published: nat, snapshot: nat, dropped: nat)

  datatype Step =
    | BeginPush(entry: Entry) | WriteField | PublishTail
    | Snapshot | ReadField | Advance | PublishHead

  function Init(size: nat): State
  {
    State(size, 0, 0, seq(size, _ => NO_ENTRY), Idle, Waiting, [], [], 0, 0, 0)
  }

  predicate Enabled(s: State, step: Step)
  {
    match step
    case BeginPush(_) => s.producer.Idle?
    case WriteField => s.producer.Filling? && s.producer.written < 3
    case PublishTail => s.producer.Filling? && s.producer.written == 3
    case Snapshot => s.consumer.Waiting?
    case ReadField => s.consumer.Draining? && s.consumer.cur != s.consumer.stop && s.consumer.fields < 3
    case Advance => s.consumer.Draining? && s.consumer.fields == 3
    case PublishHead => s.consumer.Draining? && s.consumer.cur == s.consumer.stop && s.consumer.fields == 0
  }

  /** The producer stores QueueId, then Type, then Index. */
  function StoreField(e: Entry, from: Entry, k: nat): Entry
  {
    if k == 0 then e.(queueId := from.queueId)
    else if k == 1 then e.(kind := from.kind)
    else e.(index := from.index)
  }

  /** The consumer loads Type, then QueueId, then Index. */
  function LoadField(e: Entry, from: Entry, k: nat): Entry
  {
    if k == 0 then e.(kind := from.kind)
    else if k == 1 then e.(queueId := from.queueId)
    else e.(index := from.index)
  }

  predicate InRange(s: State)
  {
    && s.size >= 2 && |s.entries| == s.size && s.head < s.size && s.tail < s.size
    && (s.producer.Filling? ==> s.producer.slot < s.size)
    && (s.consumer.Draining? ==> s.consumer.cur < s.size)
  }

  function Apply(s: State, step: Step): State
    requires InRange(s) && Enabled(s, step)
  {
    match step
    case BeginPush(e) =>
      if Full(s.head, s.tail, s.size) then s.(dropped := s.dropped + 1)
      else s.(producer := Filling(s.tail, e, 0))
    case WriteField =>
      var p := s.producer;
      s.(entries := s.entries[p.slot := StoreField(s.entries[p.slot], p.entry, p.written)],
         producer := p.(written := p.written + 1))
    case PublishTail =>
      s.(tail := Next(s.producer.slot, s.size), producer := Idle, accepted := s.accepted + [s.producer.entry])
    case Snapshot =>
      s.(consumer := Draining(s.head, s.tail, 0, NO_ENTRY), snapshot := |s.accepted|)
    case ReadField =>
      var c := s.consumer;
      s.(consumer := c.(fields := c.fields + 1, got := LoadField(c.got, s.entries[c.cur], c.fields)))
    case Advance =>
      var c := s.consumer;
      s.(consumer := Draining(Next(c.cur, s.size), c.stop, 0, NO_ENTRY), consumed := s.consumed + [c.got])
    case PublishHead =>
      s.(head := s.consumer.cur, consumer := Waiting, published := |s.consumed|)
  }

  predicate StoredSoFar(e: Entry, from: Entry, k: nat)
  {
    (k >= 1 ==> e.queueId == from.queueId) && (k >= 2 ==> e.kind == from.kind) && (k >= 3 ==> e.index == from.index)
  }

  predicate LoadedSoFar(e: Entry, from: Entry, k: nat)
  {
    (k >= 1 ==> e.kind == from.kind) && (k >= 2 ==> e.queueId == from.queueId) && (k >= 3 ==> e.index == from.index)
  }

  ghost predicate ProducerInv(s: State)
    requires InRange(s)
  {
    && s.tail == Slot(|s.accepted|, s.size)
    && |s.accepted| - s.published <= s.size - 1
    && match s.producer
       case Idle => true
       case Filling(slot, e, written) =>
         && slot == s.tail && written <= 3
         && |s.accepted| - s.published <= s.size - 2
         && StoredSoFar(s.entries[slot], e, written)
  }

  ghost predicate ConsumerInv(s: State)
    requires InRange(s)
  {
    && s.head == Slot(s.published, s.size)
    && match s.consumer
       case Waiting => s.published == |s.consumed|
       case Draining(cur, stop, fields, got) =>
         && |s.consumed| <= s.snapshot <= |s.accepted|
         && cur == Slot(|s.consumed|, s.size) && stop == Slot(s.snapshot, s.size)
         && fields <= 3
         && (fields > 0 ==> |s.consumed| < s.snapshot && LoadedSoFar(got, s.accepted[|s.consumed|], fields))
  }

  /** Every entry the consumer has not released is still in its slot, whole. */
  ghost predicate Unreleased(s: State)
    requires InRange(s)
  {
    && s.published <= |s.consumed| <= |s.accepted|
    && forall k :: s.published <= k < |s.accepted| ==> s.entries[Slot(k, s.size)] == s.accepted[k]
  }

  ghost predicate Inv(s: State)
  {
    InRange(s) && ProducerInv(s) && ConsumerInv(s) && Unreleased(s) && s.consumed <= s.accepted
  }

  lemma {:induction false} ProducerStepKeepsInv(s: State, step: Step)
    requires Inv(s) && Enabled(s, step) && (step.BeginPush? || step.WriteField? || step.PublishTail?)
    ensures Inv(Apply(s, step))
  {
    if step.BeginPush? {
      DropExactlyWhenFull(s);
    } else if step.WriteField? {
      forall k | s.published <= k < |s.accepted|
        ensures Slot(k, s.size) != s.producer.slot
      {
        SlotsDiffer(k, |s.accepted|, s.size);
      }
    }
  }

  lemma {:induction false} ConsumerStepKeepsInv(s: State, step: Step)
    requires Inv(s) && Enabled(s, step)
    requires step.Snapshot? || step.ReadField? || step.Advance? || step.PublishHead?
    ensures Inv(Apply(s, step))
  {
    if step.ReadField? {
      UnreadIfNotAtStop(s);
    }
  }

  lemma {:induction false} StepKeepsInv(s: State, step: Step)
    requires Inv(s) && Enabled(s, step)
    ensures Inv(Apply(s, step))
  {
    if step.BeginPush? || step.WriteField? || step.PublishTail? {
      ProducerStepKeepsInv(s, step);
    } else {
      ConsumerStepKeepsInv(s, step);
    }
  }

  lemma {:induction false} UnreadIfNotAtStop(s: State)
    requires Inv(s) && s.consumer.Draining? && s.consumer.cur != s.consumer.stop
    ensures |s.consumed| < s.snapshot
  {
  }

  /** The full check sees the ring exactly as full as it is: a notification is dropped
      if and only if size - 1 entries are outstanding. */
  lemma {:induction false} DropExactlyWhenFull(s: State)
    requires Inv(s)
    ensures Full(s.head, s.tail, s.size) <==> |s.accepted| - s.published == s.size - 1
  {
    if |s.accepted| - s.published == s.size - 1 {
      OneLap(s.published, s.size);
    } else {
      SlotsDiffer(s.published, |s.accepted| + 1, s.size);
    }
  }

  ghost predicate Runs(s: State, steps: seq<Step>, t: State)
    decreases |steps|
  {
    if steps == [] then s == t
    else InRange(s) && Enabled(s, steps[0]) && Runs(Apply(s, steps[0]), steps[1..], t)
  }

  lemma {:induction false} RunKeepsInv(s: State, steps: seq<Step>, t: State)
    requires Inv(s) && Runs(s, steps, t)
    ensures Inv(t)
    decreases |steps|
  {
    if steps != [] {
      StepKeepsInv(s, steps[0]);
      RunKeepsInv(Apply(s, steps[0]), steps[1..], t);
    }
  }

  /** In every interleaving the consumer has read exactly the accepted notifications, whole, in
      order, once each; at most size - 1 are outstanding, and none is overwritten before its release. */
  lemma {:induction false} RingSafety(size: nat, steps: seq<Step>, t: State)
    requires size >= 2 && Runs(Init(size), steps, t)
    ensures t.size == size && InRange(t)
    ensures t.published <= |t.consumed| <= |t.accepted| <= t.published + size - 1
    ensures t.consumed == t.accepted[..|t.consumed|]
    ensures forall k :: t.published <= k < |t.accepted| ==> t.entries[k % size] == t.accepted[k]
  {
    RunKeepsInv(Init(size), steps, t);
    SizeFixed(Init(size), steps, t);
    forall k | t.published <= k < |t.accepted|
      ensures t.entries[k % size] == t.accepted[k]
    {
      SlotIsMod(k, size);
    }
  }

  lemma {:induction false} SizeFixed(s: State, steps: seq<Step>, t: State)
    requires Runs(s, steps, t)
    ensures t.size == s.size
    decreases |steps|
  {
    if steps != [] {
      SizeFixed(Apply(s, steps[0]), steps[1..], t);
    }
  }

  /** Run without interruption, the producer's steps are the driver's push: the same verdict, the
      same tail, and the entry in the old tail slot, the rest of the ring untouched. */
  lemma {:induction false} UninterruptedPush(s: State, e: Entry)
    requires Inv(s) && s.producer.Idle?
    ensures var t := Apply(s, BeginPush(e));
            if Full(s.head, s.tail, s.size) then t == s.(dropped := s.dropped + 1)
            else Runs(t, [WriteField, WriteField, WriteField, PublishTail],
                      s.(tail := Next(s.tail, s.size), entries := s.entries[s.tail := e],
                         accepted := s.accepted + [e]))
  {
    if !Full(s.head, s.tail, s.size) {
      var t0 := Apply(s, BeginPush(e));
      var t1 := Apply(t0, WriteField);
      var t2 := Apply(t1, WriteField);
      var t3 := Apply(t2, WriteField);
      var t4 := Apply(t3, PublishTail);
      assert t3.entries == s.entries[s.tail := e];
      assert Runs(t4, [], t4);
      assert [PublishTail][1..] == [];
      assert Runs(t3, [PublishTail], t4);
      assert [WriteField, PublishTail][1..] == [PublishTail];
      assert Runs(t2, [WriteField, PublishTail], t4);
      assert [WriteField, WriteField, PublishTail][1..] == [WriteField, PublishTail];
      assert Runs(t1, [WriteField, WriteField, PublishTail], t4);
      assert [WriteField, WriteField, WriteField, PublishTail][1..] == [WriteField, WriteField, PublishTail];
    }
  }
}

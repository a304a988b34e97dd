/** The driver's queues: descriptors and entries in shared memory beside the driver's own copy of
    the state, with the single and batch forms of fetch and post. */
module Queues {
  import opened NvmeTypes
  import opened RingArith
  import opened CompletionRing

  datatype NtStatus =
    Success | InvalidParameter | InvalidDeviceState | NoMoreEntries
    | NameCollision | NotFound | DeviceBusy

  /** A submission queue between its two indices. */
  datatype Sq = Sq(slots: seq<Command>, head: nat, tail: nat) {
    predicate Valid() { head < |slots| && tail < |slots| }

    function Pending(): nat
      requires Valid()
    {
      Dist(head, tail, |slots|)
    }
  }

  /** The k-th pending command. */
  function PendingAt(q: Sq, k: nat): Command
    requires q.Valid()
  {
    q.slots[SlotAfter(q.head, k, |q.slots|)]
  }

  /** The queue after its first k commands are gone. */
  function Dropped(q: Sq, k: nat): Sq
    requires q.Valid()
  {
    q.(head := SlotAfter(q.head, k, |q.slots|))
  }

  lemma {:induction false} DroppedOneMore(q: Sq, k: nat)
    requires q.Valid() && k < q.Pending()
    ensures var d := Dropped(q, k);
            && d.head != q.tail && d.Pending() == q.Pending() - k
            && Dropped(q, k + 1) == d.(head := Next(d.head, |q.slots|))
  {
    var c := |q.slots|;
    DistReaches(q.head, q.tail, c);
    SlotsDiffer(q.head + k, q.head + q.Pending(), c);
    DistIsDifference(q.head + k, q.head + q.Pending(), c);
  }

  /** The head has met the tail exactly when all pending commands are gone. */
  lemma {:induction false} NotYetAll(q: Sq, k: nat)
    requires q.Valid() && k <= q.Pending()
    ensures k == q.Pending() <==> Dropped(q, k).head == q.tail
  {
    if k < q.Pending() {
      DroppedOneMore(q, k);
    } else {
      DroppedAll(q);
    }
  }

  lemma {:induction false} DroppedAll(q: Sq)
    requires q.Valid()
    ensures Dropped(q, q.Pending()).head == q.tail
  {
    DistReaches(q.head, q.tail, |q.slots|);
  }

  /** n single fetches, one after the other. */
  function FetchEach(q: Sq, n: nat): (r: (seq<Command>, Sq))
    requires q.Valid() && n <= q.Pending()
    ensures r.1 == Dropped(q, n)
  {
    if n == 0 then
      SmallCount(q.head, |q.slots|);
      ([], q)
    else
      DroppedOneMore(q, n - 1);
      var before := FetchEach(q, n - 1);
      SmallCount(before.1.head, |q.slots|);
      (before.0 + [PendingAt(before.1, 0)], Dropped(before.1, 1))
  }

  /** They return the pending commands in order, as the batch form does. */
  lemma {:induction false} FetchEachReturns(q: Sq, n: nat, k: nat)
    requires q.Valid() && k < n <= q.Pending()
    ensures |FetchEach(q, n).0| == n && FetchEach(q, n).0[k] == PendingAt(q, k)
  {
    DroppedOneMore(q, n - 1);
    SmallCount(Dropped(q, n - 1).head, |q.slots|);
    if n > 1 {
      FetchEachReturns(q, n - 1, if k < n - 1 then k else 0);
    }
  }

  lemma {:induction false} FetchOneMore(q: Sq, n: nat)
    requires q.Valid() && n < q.Pending()
    ensures FetchEach(q, n + 1).0 == FetchEach(q, n).0 + [q.slots[Dropped(q, n).head]]
    ensures Dropped(q, n + 1).head == Next(Dropped(q, n).head, |q.slots|)
  {
    DroppedOneMore(q, n);
    SmallCount(Dropped(q, n).head, |q.slots|);
  }

  /** One submission queue: its descriptor and entries in shared memory, and the driver's copy.
      The descriptor's Capacity is the number of entries. */
  datatype SqState = SqState(slots: seq<Command>, head: nat, tail: nat, valid: bool,
                             created: bool, size: nat, pdoHead: nat, pdoTail: nat) {
    predicate Usable() { head < |slots| && tail < |slots| }

    function View(): (q: Sq)
      requires Usable()
      ensures q.Valid()
    {
      Sq(slots, head, tail)
    }
  }

  /** One completion queue likewise; both sides hold a tail and a phase. */
  datatype CqState = CqState(ring: seq<Completion>, tail: nat, phase: bool, valid: bool,
                             created: bool, size: nat, pdoHead: nat, pdoTail: nat, phaseTag: bool) {
    predicate Usable() { tail < |ring| }

    /** The driver's copy agrees with the descriptor. */
    predicate InStep() { pdoTail == tail && phaseTag == phase }

    /** The queue as the driver posts to it: the phase is the driver's copy. */
    function View(): (q: Cq)
      requires Usable()
      ensures q.Valid()
    {
      Cq(ring, tail, phaseTag)
    }

    /** The queue by its descriptor: the phase is the one in shared memory. */
    function Described(): (q: Cq)
      requires Usable()
      ensures q.Valid()
    {
      Cq(ring, tail, phase)
    }

    /** After n posts that leave q: both tails and the driver's phase are q's; the descriptor's phase is
        written only when the ring wraps. */
    function PostedTo(q: Cq, n: nat): (c: CqState)
      requires Usable()
    {
      this.(ring := q.ring, tail := q.tail, pdoTail := q.tail, phaseTag := q.phase,
            phase := if Lap(tail + n, |ring|) > 0 then q.phase else phase)
    }

    /** After a post: entries, tail and phase on both sides, everything else as it was. */
    function Holding(q: Cq): (c: CqState)
      ensures q.Valid() ==> c.Usable() && c.View() == c.Described() == q
    {
      this.(ring := q.ring, tail := q.tail, phase := q.phase, pdoTail := q.tail, phaseTag := q.phase)
    }
  }

  function Blank(size: nat): (slots: seq<Command>)
    ensures |slots| == size && forall k :: 0 <= k < size ==> slots[k] == Command(0, 0, 0, 0, 0, 0, 0, 0)
  {
    seq(size, _ => ZERO_COMMAND)
  }

  /** A batch after the entries done: ring, tail and phase are theirs, the descriptor's phase follows the
      wraps, nothing else is written yet. */
  ghost predicate BatchAt(was: CqState, now: CqState, q: Cq, done: seq<Completion>)
  {
    && was.Usable() && now == was.(ring := q.ring, phase := now.phase)
    && q == PutAll(was.View(), done)
    && now.phase == if Lap(was.tail + |done|, |was.ring|) > 0 then q.phase else was.phase
  }

  const NO_SQ := SqState([], 0, 0, false, false, 0, 0, 0)
  const NO_CQ := CqState([], 0, true, false, false, 0, 0, 0, false)

  /** How many of the I/O submission queues 1..n are created. */
  function CreatedCount(ss: seq<SqState>, n: nat): nat
    requires n < |ss|
  {
    if n == 0 then 0 else CreatedCount(ss, n - 1) + (if ss[n].created then 1 else 0)
  }

  lemma {:induction false} CreatedFlips(ss: seq<SqState>, qid: nat, q: SqState, n: nat)
    requires 1 <= qid < |ss| && n < |ss|
    ensures CreatedCount(ss[qid := q], n) ==
            CreatedCount(ss, n) + (if qid > n || ss[qid].created == q.created then 0 else if q.created then 1 else -1)
  {
    if n > 0 {
      CreatedFlips(ss, qid, q, n - 1);
    }
  }

  lemma {:induction false} CreatedBound(ss: seq<SqState>, n: nat)
    requires n < |ss|
    ensures CreatedCount(ss, n) <= n
    ensures CreatedCount(ss, n) == n <==> forall i :: 1 <= i <= n ==> ss[i].created
  {
    if n > 0 {
      CreatedBound(ss, n - 1);
    }
  }

  lemma {:induction false} NoneAbove(ss: seq<SqState>, m: nat, n: nat)
    requires m <= n < |ss| && forall i :: m < i <= n ==> !ss[i].created
    ensures CreatedCount(ss, n) == CreatedCount(ss, m)
  {
    if m < n {
      NoneAbove(ss, m, n - 1);
    }
  }

  /** The loops that run over the ids up to IoQueueCount reach every created submission queue if and
      only if the created ids are exactly 1..IoQueueCount, without a gap. */
  lemma {:induction false} CountReachesAll(ss: seq<SqState>, n: nat)
    requires n < |ss|
    ensures var count := CreatedCount(ss, n);
            (forall i :: 1 <= i <= n && ss[i].created ==> i <= count) <==>
            (forall i :: 1 <= i <= n ==> (ss[i].created <==> i <= count))
  {
    var count := CreatedCount(ss, n);
    CreatedBound(ss, n);
    if forall i :: 1 <= i <= n && ss[i].created ==> i <= count {
      NoneAbove(ss, count, n);
      CreatedBound(ss, count);
    }
  }

  /** One controller. Index 0 of either array is the admin queue, index n the I/O queue n. */
  class Controller {
    const sqs: array<SqState>
    const cqs: array<CqState>
    const maxIoQueues: nat
    // shared memory
    var shmIoQueueCount: nat
    var completionsPosted: nat
    var commandsProcessed: nat
    // the driver
    var ioQueueCount: nat
    var adminCqPhase: bool
    var adminCommandsProcessed: nat
    var ioCommandsProcessed: nat
    var errorCount: nat

    /** Admin queues of the given depth, not yet marked valid; no I/O queue created. */
    constructor (adminDepth: nat, maxIoQueues: nat)
      requires adminDepth > 0 && maxIoQueues <= MAX_IO_QUEUES
      ensures Valid() && fresh(sqs) && fresh(cqs) && this.maxIoQueues == maxIoQueues
      ensures shmIoQueueCount == ioQueueCount == completionsPosted == 0
      ensures sqs[0] == NO_SQ.(slots := Blank(adminDepth)) && cqs[0] == NO_CQ.(ring := Fresh(adminDepth).ring)
      ensures forall i :: 1 <= i <= MAX_IO_QUEUES ==> sqs[i] == NO_SQ && cqs[i] == NO_CQ
      ensures adminCommandsProcessed == ioCommandsProcessed == commandsProcessed == errorCount == 0
    {
      sqs := new SqState[MAX_IO_QUEUES + 1](i =>
        if i == 0 then NO_SQ.(slots := Blank(adminDepth)) else NO_SQ);
      cqs := new CqState[MAX_IO_QUEUES + 1](i =>
        if i == 0 then NO_CQ.(ring := Fresh(adminDepth).ring) else NO_CQ);
      this.maxIoQueues := maxIoQueues;
      shmIoQueueCount, completionsPosted, commandsProcessed := 0, 0, 0;
      ioQueueCount, adminCqPhase := 0, true;
      adminCommandsProcessed, ioCommandsProcessed, errorCount := 0, 0, 0;
    }

    ghost predicate Valid()
      reads this, sqs, cqs
    {
      && sqs.Length == cqs.Length == MAX_IO_QUEUES + 1 && sqs as object != cqs
      && maxIoQueues <= MAX_IO_QUEUES && ioQueueCount <= MAX_IO_QUEUES
      && (forall i :: 0 <= i <= MAX_IO_QUEUES && sqs[i].valid ==> sqs[i].Usable())
      && (forall i :: 0 <= i <= MAX_IO_QUEUES && cqs[i].valid ==> cqs[i].Usable())
    }

    /** The guards of VnvmePostCompletion. */
    function PostStatus(qid: nat): NtStatus
      requires maxIoQueues < cqs.Length
      reads this, cqs
    {
      if qid != 0 && (qid > maxIoQueues || !cqs[qid].created) then InvalidParameter
      else if !cqs[qid].valid then InvalidDeviceState
      else Success
    }

    /** The guards of VnvmeFetchCommand. */
    function FetchStatus(qid: nat): NtStatus
      requires maxIoQueues < sqs.Length
      reads this, sqs
    {
      if qid != 0 && (qid > maxIoQueues || !sqs[qid].created) then InvalidParameter
      else if !sqs[qid].valid then InvalidDeviceState
      else if sqs[qid].head == sqs[qid].tail then NoMoreEntries
      else Success
    }

    /** The guard of both batch forms: the shared queue count, but neither Created nor Valid. */
    predicate BatchAccepts(qid: nat)
      reads this
    {
      qid == 0 || (qid <= shmIoQueueCount && qid <= MAX_IO_QUEUES)
    }

    /** Stores one entry of queue qid at slot t with phase p. Descriptor and driver copy are not written. */
    method Store(qid: nat, t: nat, p: bool, c: Completion) returns (next: nat, flipped: bool)
      requires qid < cqs.Length && t < |cqs[qid].ring|
      modifies cqs
      ensures |cqs[qid].ring| == |old(cqs[qid]).ring| && next < |cqs[qid].ring|
      ensures cqs[qid] == old(cqs[qid]).(ring := cqs[qid].ring)
      ensures Cq(cqs[qid].ring, next, flipped) == Put(Cq(old(cqs[qid]).ring, t, p), c)
      ensures forall j :: 0 <= j < cqs.Length && j != qid ==> cqs[j] == old(cqs[j])
    {
      cqs[qid] := cqs[qid].(ring := cqs[qid].ring[t := Stamp(c, p)]);
      NextIsMod(t, |cqs[qid].ring|);
      next := (t + 1) % |cqs[qid].ring|;
      flipped := if next == 0 then !p else p;
    }

    method PostCompletion(qid: u16, c: Completion) returns (status: NtStatus)
      requires Valid()
      modifies this`completionsPosted, cqs
      ensures Valid()
      ensures status == old(PostStatus(qid))
      ensures status.Success? <==> old((qid == 0 || (qid <= maxIoQueues && cqs[qid].created)) && cqs[qid].valid)
      ensures status.Success? ==>
                && cqs[qid].Usable() && cqs[qid].View() == Put(old(cqs[qid].View()), c)
                && cqs[qid] == old(cqs[qid]).PostedTo(Put(old(cqs[qid].View()), c), 1)
                && (old(cqs[qid].phase == cqs[qid].phaseTag) ==>
                      cqs[qid] == old(cqs[qid]).Holding(Put(old(cqs[qid].View()), c)))
                && (forall j :: 0 <= j <= MAX_IO_QUEUES && j != qid ==> cqs[j] == old(cqs[j]))
                && completionsPosted == old(completionsPosted) + 1
      ensures !status.Success? ==> unchanged(this) && unchanged(cqs)
    {
      if qid != 0 && (qid > maxIoQueues || !cqs[qid].created) {
        return InvalidParameter;
      }
      if !cqs[qid].valid {
        return InvalidDeviceState;
      }
      SmallCount(cqs[qid].tail, |cqs[qid].ring|);
      var tail, phase := Store(qid, cqs[qid].tail, cqs[qid].phaseTag, c);
      if tail == 0 {
        cqs[qid] := cqs[qid].(phase := phase);
        cqs[qid] := cqs[qid].(phaseTag := phase);
      }
      cqs[qid] := cqs[qid].(tail := tail);
      cqs[qid] := cqs[qid].(pdoTail := tail);
      completionsPosted := completionsPosted + 1;
      return Success;
    }

    /** Tail and phase live in locals until the end. The caller must name a queue that has entries. */
    method PostCompletionBatch(qid: u16, cs: seq<Completion>) returns (status: NtStatus)
      requires Valid()
      requires BatchAccepts(qid) ==> cqs[qid].Usable()
      modifies this`completionsPosted, cqs
      ensures Valid()
      ensures status == if cs == [] || old(BatchAccepts(qid)) then Success else InvalidParameter
      ensures status.Success? <==> cs == [] || qid == 0 || (qid <= old(shmIoQueueCount) && qid <= 16)
      ensures status.Success? && cs != [] ==>
                && cqs[qid].Usable() && cqs[qid].View() == PutAll(old(cqs[qid].View()), cs)
                && cqs[qid] == old(cqs[qid]).PostedTo(PutAll(old(cqs[qid].View()), cs), |cs|)
                && (old(cqs[qid].phase == cqs[qid].phaseTag) ==>
                      cqs[qid] == old(cqs[qid]).Holding(PutAll(old(cqs[qid].View()), cs)))
                && (forall j :: 0 <= j <= MAX_IO_QUEUES && j != qid ==> cqs[j] == old(cqs[j]))
                && completionsPosted == old(completionsPosted) + |cs|
      ensures !status.Success? || cs == [] ==> unchanged(this) && unchanged(cqs)
    {
      if |cs| == 0 {
        return Success;
      }
      if qid != 0 && (qid > shmIoQueueCount || qid - 1 >= MAX_IO_QUEUES) {
        return InvalidParameter;
      }
      var tail, phase := PostEach(qid, cs);
      PutAllTail(old(cqs[qid].View()), cs);
      cqs[qid] := cqs[qid].(tail := tail);
      cqs[qid] := cqs[qid].(pdoTail := tail, phaseTag := phase);
      completionsPosted := completionsPosted + |cs|;
      return Success;
    }

    /** The batch loop. */
    method PostEach(qid: u16, cs: seq<Completion>) returns (tail: nat, phase: bool)
      requires qid < cqs.Length && cqs[qid].Usable()
      modifies cqs
      ensures BatchAt(old(cqs[qid]), cqs[qid], Cq(cqs[qid].ring, tail, phase), cs)
      ensures forall j :: 0 <= j < cqs.Length && j != qid ==> cqs[j] == old(cqs[j])
    {
      ghost var was := cqs[qid];
      tail, phase := cqs[qid].tail, cqs[qid].phaseTag;
      var i := 0;
      SmallCount(was.tail, |was.ring|);
      while i < |cs|
        invariant i <= |cs|
        invariant BatchAt(was, cqs[qid], Cq(cqs[qid].ring, tail, phase), cs[..i])
        invariant forall j :: 0 <= j < cqs.Length && j != qid ==> cqs[j] == old(cqs[j])
      {
        assert cs[..i + 1] == cs[..i] + [cs[i]];
        tail, phase := PostNext(qid, tail, phase, cs[i], was, cs[..i]);
        i := i + 1;
      }
      assert cs[..i] == cs;
    }

    /** One turn of the batch loop. */
    method PostNext(qid: u16, tail: nat, phase: bool, c: Completion, ghost was: CqState, ghost done: seq<Completion>)
      returns (next: nat, flipped: bool)
      requires qid < cqs.Length && BatchAt(was, cqs[qid], Cq(cqs[qid].ring, tail, phase), done)
      modifies cqs
      ensures BatchAt(was, cqs[qid], Cq(cqs[qid].ring, next, flipped), done + [c])
      ensures forall j :: 0 <= j < cqs.Length && j != qid ==> cqs[j] == old(cqs[j])
    {
      assert (done + [c])[..|done|] == done;
      PutAllTail(was.View(), done + [c]);
      next, flipped := Store(qid, tail, phase, c);
      if next == 0 {
        cqs[qid] := cqs[qid].(phase := flipped);
      }
    }

    method FetchCommand(qid: u16) returns (status: NtStatus, command: Command)
      requires Valid()
      modifies sqs
      ensures Valid()
      ensures status == old(FetchStatus(qid))
      ensures status.Success? <==> old((qid == 0 || (qid <= maxIoQueues && sqs[qid].created)) && sqs[qid].valid &&
                                       sqs[qid].View().Pending() > 0)
      ensures status.NoMoreEntries? <==> old((qid == 0 || (qid <= maxIoQueues && sqs[qid].created)) &&
                                             sqs[qid].valid && sqs[qid].View().Pending() == 0)
      ensures status.Success? ==>
                var q := old(sqs[qid].View());
                && command == PendingAt(q, 0)
                && sqs[qid] == old(sqs[qid]).(head := Dropped(q, 1).head, pdoHead := Dropped(q, 1).head)
                && (forall j :: 0 <= j <= MAX_IO_QUEUES && j != qid ==> sqs[j] == old(sqs[j]))
      ensures !status.Success? ==> unchanged(sqs) && command == ZERO_COMMAND
    {
      command := ZERO_COMMAND;
      if qid != 0 && (qid > maxIoQueues || !sqs[qid].created) {
        return InvalidParameter, command;
      }
      if !sqs[qid].valid {
        return InvalidDeviceState, command;
      }
      var head, tail := sqs[qid].head, sqs[qid].tail;
      if head == tail {
        return NoMoreEntries, command;
      }
      SmallCount(head, |sqs[qid].slots|);
      command := sqs[qid].slots[head];
      NextIsMod(head, |sqs[qid].slots|);
      head := (head + 1) % |sqs[qid].slots|;
      sqs[qid] := sqs[qid].(head := head);
      sqs[qid] := sqs[qid].(pdoHead := head);
      return Success, command;
    }

    /** The loop of the batch form: up to max pending commands, and where the head stands after them. */
    method TakePending(qid: u16, max: u32) returns (commands: seq<Command>, head: nat)
      requires Valid() && qid <= MAX_IO_QUEUES && sqs[qid].Usable()
      ensures var q := sqs[qid].View();
              var n := if q.Pending() < max then q.Pending() else max;
              commands == FetchEach(q, n).0 && |commands| == n && head == FetchEach(q, n).1.head
    {
      ghost var q := sqs[qid].View();
      var tail, depth := sqs[qid].tail, |sqs[qid].slots|;
      head := sqs[qid].head;
      commands := [];
      SmallCount(head, depth);
      while head != tail && |commands| < max
        invariant |commands| <= max && |commands| <= q.Pending() && head == Dropped(q, |commands|).head
        invariant commands == FetchEach(q, |commands|).0
        decreases max - |commands|
      {
        NotYetAll(q, |commands|);
        FetchOneMore(q, |commands|);
        commands := commands + [sqs[qid].slots[head]];
        NextIsMod(head, depth);
        head := (head + 1) % depth;
      }
      NotYetAll(q, |commands|);
    }

    /** The batch form leaves the driver's copy of the head alone. */
    method FetchCommandBatch(qid: u16, max: u32) returns (status: NtStatus, commands: seq<Command>)
      requires Valid()
      requires BatchAccepts(qid) ==> sqs[qid].Usable() || sqs[qid].head == sqs[qid].tail
      modifies this`commandsProcessed, sqs
      ensures Valid()
      ensures status == if max == 0 || old(BatchAccepts(qid)) then Success else InvalidParameter
      ensures status.Success? <==> max == 0 || qid == 0 || (qid <= old(shmIoQueueCount) && qid <= 16)
      ensures status.Success? && max > 0 && old(sqs[qid].Usable()) ==>
                var q := old(sqs[qid].View());
                var n := if q.Pending() < max then q.Pending() else max;
                && commands == FetchEach(q, n).0
                && sqs[qid] == old(sqs[qid]).(head := FetchEach(q, n).1.head)
                && (forall j :: 0 <= j <= MAX_IO_QUEUES && j != qid ==> sqs[j] == old(sqs[j]))
                && commandsProcessed == old(commandsProcessed) + n
      ensures !status.Success? || max == 0 || old(sqs[qid].head == sqs[qid].tail) ==>
                unchanged(this) && unchanged(sqs) && commands == []
    {
      commands := [];
      if max == 0 {
        return Success, commands;
      }
      if qid != 0 && (qid > shmIoQueueCount || qid - 1 >= MAX_IO_QUEUES) {
        return InvalidParameter, commands;
      }
      if sqs[qid].head == sqs[qid].tail {
        if sqs[qid].Usable() {
          SmallCount(sqs[qid].head, |sqs[qid].slots|);
        }
        return Success, commands;
      }
      var head;
      commands, head := TakePending(qid, max);
      sqs[qid] := sqs[qid].(head := head);
      commandsProcessed := commandsProcessed + |commands|;
      return Success, commands;
    }

    // ---------- creation and deletion (IoQueueCount counts the created submission queues) ----------

    /** The queue starts empty at slot 0 with zeroed entries. Size 0 is not refused; the first step round
        such a queue would divide by zero. */
    method CreateIoSubmissionQueue(qid: u16, size: u16, cqid: u16) returns (status: NtStatus)
      requires Valid() && Counted()
      modifies this`ioQueueCount, sqs
      ensures (status.Success? ==> size > 0) ==> Valid()
      ensures Counted() && ioQueueCount <= MAX_IO_QUEUES
      ensures status == if qid == 0 || qid > maxIoQueues || cqid == 0 || cqid > maxIoQueues then InvalidParameter
                        else if !cqs[cqid].created then InvalidParameter
                        else if old(sqs[qid]).created then NameCollision else Success
      ensures status.Success? ==> sqs[qid] == SqState(Blank(size), 0, 0, true, true, size, 0, 0)
      ensures forall j :: 0 <= j <= MAX_IO_QUEUES && (status.Success? ==> j != qid) ==> sqs[j] == old(sqs[j])
    {
      if qid == 0 || qid > maxIoQueues {
        return InvalidParameter;
      }
      if cqid == 0 || cqid > maxIoQueues {
        return InvalidParameter;
      }
      if !cqs[cqid].created {
        return InvalidParameter;
      }
      if sqs[qid].created {
        return NameCollision;
      }
      ghost var was := sqs[..];
      ghost var made := SqState(Blank(size), 0, 0, true, true, size, 0, 0);
      CreatedFlips(was, qid, made, MAX_IO_QUEUES);
      CreatedBound(was[qid := made], MAX_IO_QUEUES);
      sqs[qid] := SqState(Blank(size), 0, 0, true, true, size, 0, 0);
      assert sqs[..] == was[qid := sqs[qid]];
      ioQueueCount := ioQueueCount + 1;
      return Success;
    }

    method DeleteIoSubmissionQueue(qid: u16) returns (status: NtStatus)
      requires Valid() && Counted()
      modifies this`ioQueueCount, sqs
      ensures Valid() && Counted()
      ensures status == if qid == 0 || qid > maxIoQueues then InvalidParameter
                        else if !old(sqs[qid]).created then NotFound else Success
      ensures status.Success? ==> sqs[qid] == NO_SQ.(slots := old(sqs[qid]).slots)
      ensures forall j :: 0 <= j <= MAX_IO_QUEUES && (status.Success? ==> j != qid) ==> sqs[j] == old(sqs[j])
    {
      if qid == 0 || qid > maxIoQueues {
        return InvalidParameter;
      }
      if !sqs[qid].created {
        return NotFound;
      }
      CreatedFlips(sqs[..], qid, NO_SQ.(slots := sqs[qid].slots), MAX_IO_QUEUES);
      ghost var was := sqs[..];
      sqs[qid] := NO_SQ.(slots := sqs[qid].slots);
      assert sqs[..] == was[qid := sqs[qid]];
      if ioQueueCount > 0 {
        ioQueueCount := ioQueueCount - 1;
      }
      return Success;
    }

    /** The queue starts with zeroed entries and phase 1 on both sides. Size 0 is not refused here either. */
    method CreateIoCompletionQueue(qid: u16, size: u16) returns (status: NtStatus)
      requires Valid()
      modifies cqs
      ensures (status.Success? ==> size > 0) ==> Valid()
      ensures status == if qid == 0 || qid > maxIoQueues then InvalidParameter
                        else if old(cqs[qid]).created then NameCollision else Success
      ensures status.Success? ==> cqs[qid] == CqState(Fresh(size).ring, 0, true, true, true, size, 0, 0, true)
      ensures status.Success? && size > 0 ==> cqs[qid].Usable() && cqs[qid].InStep() && cqs[qid].View() == Fresh(size)
      ensures forall j :: 0 <= j <= MAX_IO_QUEUES && (status.Success? ==> j != qid) ==> cqs[j] == old(cqs[j])
    {
      if qid == 0 || qid > maxIoQueues {
        return InvalidParameter;
      }
      if cqs[qid].created {
        return NameCollision;
      }
      cqs[qid] := CqState(Fresh(size).ring, 0, true, true, true, size, 0, 0, true);
      return Success;
    }

    /** The loop looks at every submission queue but refuses only for the one with the same id. */
    method DeleteIoCompletionQueue(qid: u16) returns (status: NtStatus)
      requires Valid()
      modifies cqs
      ensures Valid()
      ensures status == if qid == 0 || qid > maxIoQueues then InvalidParameter
                        else if !old(cqs[qid]).created then NotFound
                        else if sqs[qid].created then DeviceBusy else Success
      ensures status.Success? ==> cqs[qid] == NO_CQ.(ring := old(cqs[qid]).ring)
      ensures forall j :: 0 <= j <= MAX_IO_QUEUES && (status.Success? ==> j != qid) ==> cqs[j] == old(cqs[j])
    {
      if qid == 0 || qid > maxIoQueues {
        return InvalidParameter;
      }
      if !cqs[qid].created {
        return NotFound;
      }
      var i := 0;
      while i < MAX_IO_QUEUES
        invariant 0 <= i <= MAX_IO_QUEUES && (i >= qid ==> !sqs[qid].created)
      {
        if sqs[i + 1].created {
          if i == qid - 1 {
            return DeviceBusy;
          }
        }
        i := i + 1;
      }
      cqs[qid] := NO_CQ.(ring := cqs[qid].ring);
      return Success;
    }

    /** IoQueueCount is the number of created submission queues. */
    ghost predicate Counted()
      reads this, sqs
    {
      sqs.Length == MAX_IO_QUEUES + 1 && ioQueueCount == CreatedCount(sqs[..], MAX_IO_QUEUES)
    }
  }

  /** Create 1, create 2, delete 1, by the class's own methods: queue 2 is left, and the loops that run up
      to the count stop before it. */
  method CountMissesAQueue(size: u16) returns (c: Controller)
    requires size > 0
    ensures fresh(c) && c.Valid() && c.Counted()
    ensures c.sqs[2].created && c.ioQueueCount == 1
  {
    c := new Controller(64, MAX_IO_QUEUES);
    NoneAbove(c.sqs[..], 0, MAX_IO_QUEUES);
    var s0 := c.CreateIoCompletionQueue(1, size);
    var s1 := c.CreateIoCompletionQueue(2, size);
    var s2 := c.CreateIoSubmissionQueue(1, size, 1);
    var s3 := c.CreateIoSubmissionQueue(2, size, 2);
    ghost var was := c.sqs[..];
    var s4 := c.DeleteIoSubmissionQueue(1);
    assert CreatedCount(c.sqs[..], 1) == CreatedCount(c.sqs[..], 0) == 0;
    assert CreatedCount(c.sqs[..], 2) == 1;
    NoneAbove(c.sqs[..], 2, MAX_IO_QUEUES);
  }
}

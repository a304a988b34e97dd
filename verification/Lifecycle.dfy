/** Creating and deleting I/O queues by admin command, and the doorbell poll over what exists
    (sections 5.3 to 5.6 of NVM Express 1.4). */
module Lifecycle {
  import opened NvmeTypes
  import opened History

  datatype QueueState = QueueState(base: u64, size: u32, head: u32, tail: u32,
                                   phaseTag: bool, created: bool, cqId: u16)

  const BLANK := QueueState(0, 0, 0, 0, false, false, 0)

  datatype AdminStatus = Done | Failed(sct: u8, sc: u8)

  const SCT_COMMAND: u8 := 0x01
  const INVALID_QUEUE_ID := Failed(SCT_COMMAND, 0x01)
  const INVALID_QUEUE_SIZE := Failed(SCT_COMMAND, 0x02)
  const INVALID_QUEUE_DELETION := Failed(SCT_COMMAND, 0x0C)
  const CQ_INVALID := Failed(SCT_COMMAND, 0x18)

  function LowWord(x: u32): (r: u16) { x % 0x1_0000 }

  function HighWord(x: u32): (r: u16) { x / 0x1_0000 }

  /** The 16-bit size: the zero-based field plus one, so the field 0xFFFF comes out as 0. */
  function QueueSize(cdw10: u32): (r: u16) { (HighWord(cdw10) + 1) % 0x1_0000 }

  predicate IdValid(qid: u16) { 0 < qid <= MAX_IO_QUEUES }

  datatype AdminCommand =
    | CreateCq(cdw10: u32, prp1: u64)
    | CreateSq(cdw10: u32, cdw11: u32, prp1: u64)
    | DeleteCq(cdw10: u32)
    | DeleteSq(cdw10: u32)

  /** Submission queues, completion queues and IoQueueCount; index i holds the queue with id i + 1. */
  datatype Table = Table(sq: seq<QueueState>, cq: seq<QueueState>, count: u16) {
    predicate Shaped() { |sq| == |cq| == MAX_IO_QUEUES }
  }

  function Blanks(n: nat): (r: seq<QueueState>)
    ensures |r| == n && forall i :: 0 <= i < n ==> r[i] == BLANK
  {
    seq(n, _ => BLANK)
  }

  const NO_QUEUES := Table(Blanks(MAX_IO_QUEUES), Blanks(MAX_IO_QUEUES), 0)

  predicate InUse(sq: seq<QueueState>, qid: u16)
  {
    exists i :: 0 <= i < |sq| && sq[i].created && sq[i].cqId == qid
  }

  function Execute(t: Table, c: AdminCommand): (r: (Table, AdminStatus))
    requires t.Shaped()
    ensures r.0.Shaped()
    ensures r.1.Failed? ==> r.0 == t
  {
    var qid := LowWord(c.cdw10);
    if !IdValid(qid) then (t, INVALID_QUEUE_ID)
    else
      match c
      case CreateCq(_, prp1) =>
        if QueueSize(c.cdw10) < 2 then (t, INVALID_QUEUE_SIZE)
        else if t.cq[qid - 1].created then (t, INVALID_QUEUE_ID)
        else (t.(cq := t.cq[qid - 1 := t.cq[qid - 1].(base := prp1, size := QueueSize(c.cdw10), head := 0, tail := 0,
                                                      phaseTag := true, created := true)]), Done)
      case CreateSq(_, cdw11, prp1) =>
        var cqid := HighWord(cdw11);
        if QueueSize(c.cdw10) < 2 then (t, INVALID_QUEUE_SIZE)
        else if !IdValid(cqid) || !t.cq[cqid - 1].created then (t, CQ_INVALID)
        else if t.sq[qid - 1].created then (t, INVALID_QUEUE_ID)
        else (t.(sq := t.sq[qid - 1 := t.sq[qid - 1].(base := prp1, size := QueueSize(c.cdw10), head := 0, tail := 0,
                                                      cqId := cqid, created := true)],
                 count := if t.count < qid then qid else t.count), Done)
      case DeleteCq(_) =>
        if !t.cq[qid - 1].created then (t, INVALID_QUEUE_ID)
        else if InUse(t.sq, qid) then (t, INVALID_QUEUE_DELETION)
        else (t.(cq := t.cq[qid - 1 := BLANK]), Done)
      case DeleteSq(_) =>
        if !t.sq[qid - 1].created then (t, INVALID_QUEUE_ID)
        else (t.(sq := t.sq[qid - 1 := BLANK]), Done)
  }

  // ---------- what every run keeps ----------

  predicate SizeLegal(q: QueueState) { q.created ==> 2 <= q.size <= 0xFFFF }

  /** Submission queue i names an existing completion queue and lies within IoQueueCount. */
  predicate Anchored(t: Table, i: nat)
    requires t.Shaped() && i < MAX_IO_QUEUES
  {
    t.sq[i].created ==> IdValid(t.sq[i].cqId) && t.cq[t.sq[i].cqId - 1].created && i + 1 <= t.count
  }

  ghost predicate Sound(t: Table)
  {
    && t.Shaped() && t.count <= MAX_IO_QUEUES
    && (forall i :: 0 <= i < MAX_IO_QUEUES ==> Anchored(t, i))
    && (forall i :: 0 <= i < MAX_IO_QUEUES ==> SizeLegal(t.sq[i]) && SizeLegal(t.cq[i]))
    && (forall i :: 0 <= i < MAX_IO_QUEUES ==> t.sq[i].created || t.sq[i] == BLANK)
    && (forall i :: 0 <= i < MAX_IO_QUEUES ==> t.cq[i].created || t.cq[i].(head := 0) == BLANK)
  }

  lemma {:induction false} ExecuteKeepsSound(t: Table, c: AdminCommand)
    requires Sound(t)
    ensures Sound(Execute(t, c).0)
  {
    var t', qid := Execute(t, c).0, LowWord(c.cdw10);
    forall i | 0 <= i < MAX_IO_QUEUES
      ensures Anchored(t', i)
    {
      assert Anchored(t, i);
    }
  }

  /** The admin commands and the driver's doorbell polls, which move indices only. */
  datatype Event = Admin(c: AdminCommand) | Doorbells(values: seq<u32>)

  function Happens(t: Table, ev: Event): (r: Table)
    requires t.Shaped()
    ensures r.Shaped()
  {
    match ev
    case Admin(c) => Execute(t, c).0
    case Doorbells(d) =>
      if |d| < 2 * MAX_IO_QUEUES + 2 then t
      else
        t.(sq := seq(MAX_IO_QUEUES, i requires 0 <= i < MAX_IO_QUEUES =>
                       Polled(t.sq[i], t.sq[i].created && i < t.count, LowWord(d[2 * i + 2]))),
           cq := seq(MAX_IO_QUEUES, i requires 0 <= i < MAX_IO_QUEUES =>
                       Consumed(t.cq[i], t.sq[i].created && i < t.count, LowWord(d[2 * i + 3]))))
  }

  lemma {:induction false} EventKeepsSound(t: Table, ev: Event)
    requires Sound(t)
    ensures Sound(Happens(t, ev))
  {
    if ev.Admin? {
      ExecuteKeepsSound(t, ev.c);
    } else {
      var t' := Happens(t, ev);
      forall i | 0 <= i < MAX_IO_QUEUES
        ensures Anchored(t', i)
      {
        assert Anchored(t, i);
      }
    }
  }

  function RunAll(t: Table, evs: seq<Event>): (r: Table)
    requires t.Shaped()
    ensures r.Shaped()
  {
    if evs == [] then t else Happens(RunAll(t, evs[..|evs| - 1]), evs[|evs| - 1])
  }

  /** Over any run of the four commands and doorbell polls each created submission queue names a created
      completion queue and has an id up to IoQueueCount, and every created queue has 2 to 65535
      entries. */
  lemma {:induction false} RunKeepsSound(evs: seq<Event>)
    ensures Sound(RunAll(NO_QUEUES, evs))
    decreases |evs|
  {
    if evs != [] {
      RunKeepsSound(evs[..|evs| - 1]);
      EventKeepsSound(RunAll(NO_QUEUES, evs[..|evs| - 1]), evs[|evs| - 1]);
    }
  }

  /** In a sound table deleting what a successful creation made restores the table, but for the count,
      which never shrinks, and the consumer index a poll may have left in an unused completion queue:
      the poll follows the doorbell of the submission queue's own id, whatever queue it is bound to. */
  lemma {:induction false} DeleteUndoesCreate(t: Table, c: AdminCommand)
    requires Sound(t) && (c.CreateCq? || c.CreateSq?) && Execute(t, c).1.Done?
    ensures var made, qid := Execute(t, c).0, LowWord(c.cdw10);
            var gone := Execute(made, if c.CreateCq? then DeleteCq(c.cdw10) else DeleteSq(c.cdw10));
            gone.1.Done?
            && gone.0 == t.(count := made.count,
                            cq := if c.CreateCq? then t.cq[qid - 1 := t.cq[qid - 1].(head := 0)] else t.cq)
  {
    var qid, made := LowWord(c.cdw10), Execute(t, c).0;
    if c.CreateCq? {
      forall i | 0 <= i < MAX_IO_QUEUES && t.sq[i].created
        ensures t.sq[i].cqId != qid
      {
        assert Anchored(t, i);
      }
      assert t.cq[qid - 1 := made.cq[qid - 1]][qid - 1 := BLANK] == t.cq[qid - 1 := t.cq[qid - 1].(head := 0)];
    } else {
      assert t.sq[qid - 1 := made.sq[qid - 1]][qid - 1 := BLANK] == t.sq;
    }
  }

  // ---------- what a run's history says ----------

  /** The k-th event of a run is an admin command that succeeded. */
  predicate Succeeded(evs: seq<Event>, k: nat)
    requires k < |evs|
  {
    evs[k].Admin? && Execute(RunAll(NO_QUEUES, evs[..k]), evs[k].c).1.Done?
  }

  /** A queue as it was asked for: where it lies, how many entries it has, and for a submission queue the
      completion queue it was bound to. */
  datatype Queue = Submission(base: u64, size: nat, cqId: u16) | CompletionOnly(base: u64, size: nat)

  /** The command asks for the queue: its id in the low half of CDW10, the size less one in the high half, the
      completion queue's id in the high half of CDW11. */
  predicate AsksFor(c: AdminCommand, qid: u16, q: Queue)
  {
    var low: int := c.cdw10;
    && low % 0x1_0000 == qid && q.size == low / 0x1_0000 + 1
    && match c
       case CreateCq(_, prp1) => q.CompletionOnly? && prp1 == q.base
       case CreateSq(_, cdw11, prp1) =>
         var high: int := cdw11; q.Submission? && prp1 == q.base && high / 0x1_0000 == q.cqId
       case _ => false
  }

  predicate Creates(evs: seq<Event>, k: nat, qid: u16, q: Queue)
    requires k < |evs|
  {
    Succeeded(evs, k) && AsksFor(evs[k].c, qid, q)
  }

  predicate Deletes(evs: seq<Event>, k: nat, qid: u16, q: Queue)
    requires k < |evs|
  {
    && Succeeded(evs, k) && (if q.Submission? then evs[k].c.DeleteSq? else evs[k].c.DeleteCq?)
    && (var word: int := evs[k].c.cdw10; word % 0x1_0000 == qid)
  }

  /** Which events of the run create the queue, and which delete it. */
  function Creations(evs: seq<Event>, qid: u16, q: Queue): (made: seq<bool>)
    ensures |made| == |evs|
  {
    seq(|evs|, (k: nat) requires k < |evs| => Creates(evs, k, qid, q))
  }

  function Deletions(evs: seq<Event>, qid: u16, q: Queue): (gone: seq<bool>)
    ensures |gone| == |evs|
  {
    seq(|evs|, (k: nat) requires k < |evs| => Deletes(evs, k, qid, q))
  }

  /** The run created the queue, as described, and has not deleted it since. */
  ghost predicate Live(evs: seq<Event>, qid: u16, q: Queue)
  {
    Standing(Creations(evs, qid, q), Deletions(evs, qid, q))
  }

  /** The table's entry says the same. */
  predicate Recorded(t: Table, qid: u16, q: Queue)
    requires t.Shaped() && IdValid(qid)
  {
    match q
    case Submission(base, size, cqId) =>
      var s := t.sq[qid - 1]; s.created && s.base == base && s.size == size && s.cqId == cqId
    case CompletionOnly(base, size) =>
      var c := t.cq[qid - 1]; c.created && c.base == base && c.size == size
  }

  lemma {:induction false} PrefixSame(evs: seq<Event>, n: nat, qid: u16, q: Queue)
    requires n <= |evs|
    ensures Creations(evs[..n], qid, q) == Creations(evs, qid, q)[..n]
    ensures Deletions(evs[..n], qid, q) == Deletions(evs, qid, q)[..n]
  {
    forall k: nat | k < n
      ensures Creates(evs[..n], k, qid, q) == Creates(evs, k, qid, q)
      ensures Deletes(evs[..n], k, qid, q) == Deletes(evs, k, qid, q)
    {
      assert evs[..n][..k] == evs[..k];
    }
  }

  /** A queue is live after one more event if that creates it, or it was live and is not deleted now. */
  lemma {:induction false} LiveStep(evs: seq<Event>, qid: u16, q: Queue)
    requires evs != []
    ensures var n := |evs| - 1;
            Live(evs, qid, q) <==>
              Creates(evs, n, qid, q) || (Live(evs[..n], qid, q) && !Deletes(evs, n, qid, q))
  {
    PrefixSame(evs, |evs| - 1, qid, q);
    StandingStep(Creations(evs, qid, q), Deletions(evs, qid, q));
  }

  lemma {:induction false} SubmissionStep(t: Table, ev: Event, qid: u16, q: Queue)
    requires t.Shaped() && IdValid(qid) && q.Submission?
    ensures var done := ev.Admin? && Execute(t, ev.c).1.Done?;
            Recorded(Happens(t, ev), qid, q) <==>
              || (done && AsksFor(ev.c, qid, q))
              || (Recorded(t, qid, q) && !(done && ev.c.DeleteSq? && LowWord(ev.c.cdw10) == qid))
  {
  }

  lemma {:induction false} CompletionStep(t: Table, ev: Event, qid: u16, q: Queue)
    requires t.Shaped() && IdValid(qid) && q.CompletionOnly?
    ensures var done := ev.Admin? && Execute(t, ev.c).1.Done?;
            Recorded(Happens(t, ev), qid, q) <==>
              || (done && AsksFor(ev.c, qid, q))
              || (Recorded(t, qid, q) && !(done && ev.c.DeleteCq? && LowWord(ev.c.cdw10) == qid))
  {
  }

  lemma {:induction false} RecordedStep(evs: seq<Event>, qid: u16, q: Queue)
    requires evs != [] && IdValid(qid)
    ensures var n := |evs| - 1;
            Recorded(RunAll(NO_QUEUES, evs), qid, q) <==>
              Creates(evs, n, qid, q)
              || (Recorded(RunAll(NO_QUEUES, evs[..n]), qid, q) && !Deletes(evs, n, qid, q))
  {
    var n := |evs| - 1;
    var t := RunAll(NO_QUEUES, evs[..n]);
    assert RunAll(NO_QUEUES, evs) == Happens(t, evs[n]);
    match q
    case Submission(_, _, _) => SubmissionStep(t, evs[n], qid, q);
    case CompletionOnly(_, _) => CompletionStep(t, evs[n], qid, q);
  }

  /** After any run the table holds exactly the queues that the commands created and have not deleted, each with
      the place, the size and the completion queue it was created with. */
  lemma {:induction false} TableIsHistory(evs: seq<Event>, qid: u16, q: Queue)
    requires IdValid(qid)
    ensures Recorded(RunAll(NO_QUEUES, evs), qid, q) <==> Live(evs, qid, q)
    decreases |evs|
  {
    if evs != [] {
      var n := |evs| - 1;
      TableIsHistory(evs[..n], qid, q);
      RecordedStep(evs, qid, q);
      LiveStep(evs, qid, q);
    }
  }

  /** By the run's history, which completion queues exist, and which submission queues are bound where. */
  ghost predicate LiveCq(evs: seq<Event>, qid: u16)
  {
    exists base: u64, size: nat :: Live(evs, qid, CompletionOnly(base, size))
  }

  ghost predicate LiveSq(evs: seq<Event>, qid: u16, cqId: u16)
  {
    exists base: u64, size: nat :: Live(evs, qid, Submission(base, size, cqId))
  }

  lemma {:induction false} LiveCqExactly(evs: seq<Event>, qid: u16)
    requires IdValid(qid)
    ensures LiveCq(evs, qid) <==> RunAll(NO_QUEUES, evs).cq[qid - 1].created
  {
    var c := RunAll(NO_QUEUES, evs).cq[qid - 1];
    TableIsHistory(evs, qid, CompletionOnly(c.base, c.size));
    if LiveCq(evs, qid) {
      var base: u64, size: nat :| Live(evs, qid, CompletionOnly(base, size));
      TableIsHistory(evs, qid, CompletionOnly(base, size));
    }
  }

  lemma {:induction false} LiveSqExactly(evs: seq<Event>, qid: u16, cqId: u16)
    requires IdValid(qid)
    ensures LiveSq(evs, qid, cqId) <==>
              RunAll(NO_QUEUES, evs).sq[qid - 1].created && RunAll(NO_QUEUES, evs).sq[qid - 1].cqId == cqId
  {
    var s := RunAll(NO_QUEUES, evs).sq[qid - 1];
    TableIsHistory(evs, qid, Submission(s.base, s.size, cqId));
    if LiveSq(evs, qid, cqId) {
      var base: u64, size: nat :| Live(evs, qid, Submission(base, size, cqId));
      TableIsHistory(evs, qid, Submission(base, size, cqId));
    }
  }

  /** So after any run a completion queue is deleted on demand exactly when the run created it and has not
      deleted it since, and every submission queue created with it has been deleted; otherwise the answer is
      command specific 0x0C for a queue in use and 0x01 for one that does not exist. */
  lemma {:induction false} DeletableByHistory(evs: seq<Event>, cdw10: u32)
    requires IdValid(LowWord(cdw10))
    ensures var word: int := cdw10;
            Execute(RunAll(NO_QUEUES, evs), DeleteCq(cdw10)).1 ==
            if !LiveCq(evs, word % 0x1_0000) then Failed(1, 0x01)
            else if exists qid: u16 :: IdValid(qid) && LiveSq(evs, qid, word % 0x1_0000) then Failed(1, 0x0C)
            else Done
  {
    var t, cqid := RunAll(NO_QUEUES, evs), LowWord(cdw10);
    LiveCqExactly(evs, cqid);
    forall qid: u16 | IdValid(qid)
      ensures LiveSq(evs, qid, cqid) <==> t.sq[qid - 1].created && t.sq[qid - 1].cqId == cqid
    {
      LiveSqExactly(evs, qid, cqid);
    }
    if InUse(t.sq, cqid) {
      var i :| 0 <= i < |t.sq| && t.sq[i].created && t.sq[i].cqId == cqid;
      assert IdValid(i + 1) && LiveSq(evs, i + 1, cqid);
    }
  }

  /** And a submission queue is created on demand exactly when its id is free, its size field is neither 0 nor the
      largest, and the completion queue it names exists by the run's history. */
  lemma {:induction false} CreatableByHistory(evs: seq<Event>, cdw10: u32, cdw11: u32, prp1: u64)
    ensures var low: int, high: int := cdw10, cdw11;
            var qid, cqid, field := low % 0x1_0000, high / 0x1_0000, low / 0x1_0000;
            Execute(RunAll(NO_QUEUES, evs), CreateSq(cdw10, cdw11, prp1)).1 ==
            if qid == 0 || qid > 16 then Failed(1, 0x01)
            else if field == 0 || field == 0xFFFF then Failed(1, 0x02)
            else if cqid == 0 || cqid > 16 || !LiveCq(evs, cqid) then Failed(1, 0x18)
            else if exists bound: u16 :: LiveSq(evs, qid, bound) then Failed(1, 0x01)
            else Done
  {
    var t, qid, cqid := RunAll(NO_QUEUES, evs), LowWord(cdw10), HighWord(cdw11);
    if IdValid(qid) && IdValid(cqid) {
      LiveCqExactly(evs, cqid);
      forall bound: u16
        ensures LiveSq(evs, qid, bound) <==> t.sq[qid - 1].created && t.sq[qid - 1].cqId == bound
      {
        LiveSqExactly(evs, qid, bound);
      }
      assert LiveSq(evs, qid, t.sq[qid - 1].cqId) <==> t.sq[qid - 1].created;
    }
  }

  /** A queue just created is empty, a completion queue starts with phase 1, and the count becomes the largest
      submission queue's id. */
  lemma {:induction false} CreatedEmpty(t: Table, c: AdminCommand)
    requires t.Shaped() && Execute(t, c).1.Done? && (c.CreateCq? || c.CreateSq?)
    ensures var word: int := c.cdw10;
            var qid, made := word % 0x1_0000, Execute(t, c).0;
            && 1 <= qid <= MAX_IO_QUEUES
            && (c.CreateCq? ==> made.cq[qid - 1].head == made.cq[qid - 1].tail == 0 && made.cq[qid - 1].phaseTag)
            && (c.CreateSq? ==> made.sq[qid - 1].head == made.sq[qid - 1].tail == 0)
            && made.count == if c.CreateSq? && qid > t.count then qid else t.count
  {
  }

  /** The largest size the field can ask for, 65536 entries, is refused as too small. */
  lemma {:induction false} LargestSizeRefused(t: Table, c: AdminCommand)
    requires t.Shaped() && (c.CreateCq? || c.CreateSq?) && IdValid(LowWord(c.cdw10))
    ensures var word: int := c.cdw10;
            Execute(t, c).1 == Failed(1, 0x02) <==> word / 0x1_0000 == 0 || word / 0x1_0000 == 0xFFFF
  {
  }

  // ---------- the doorbell poll ----------

  function Polled(q: QueueState, visited: bool, tail: u16): QueueState
  {
    if visited then q.(tail := tail) else q
  }

  function Consumed(q: QueueState, visited: bool, head: u16): QueueState
  {
    if visited then q.(head := head) else q
  }

  /** The doorbells of queue index i: the submission tail and, after it, the completion head. */
  function SqDoorbell(doorbells: seq<u32>, i: nat): u16
    requires |doorbells| > 2 * i + 3
  {
    LowWord(doorbells[2 * i + 2])
  }

  function CqDoorbell(doorbells: seq<u32>, i: nat): u16
    requires |doorbells| > 2 * i + 3
  {
    LowWord(doorbells[2 * i + 3])
  }

  /** The ids up to n whose tail doorbell differs from the tail last seen. */
  function Moved(sq: seq<QueueState>, doorbells: seq<u32>, n: nat): (ids: seq<u16>)
    requires n <= |sq| <= MAX_IO_QUEUES && |doorbells| >= 2 * |sq| + 2
  {
    if n == 0 then []
    else Moved(sq, doorbells, n - 1) +
         (if sq[n - 1].created && SqDoorbell(doorbells, n - 1) != sq[n - 1].tail then [n] else [])
  }

  lemma {:induction false} MovedUpTo(sq: seq<QueueState>, doorbells: seq<u32>, n: nat)
    requires n <= |sq| <= MAX_IO_QUEUES && |doorbells| >= 2 * |sq| + 2
    ensures var ids := Moved(sq, doorbells, n);
            && (forall i :: 1 <= i <= |sq| ==>
                  (i in ids <==> i <= n && sq[i - 1].created && SqDoorbell(doorbells, i - 1) != sq[i - 1].tail))
            && (forall a :: 0 <= a < |ids| ==> 1 <= ids[a] <= n)
            && (forall a, b :: 0 <= a < b < |ids| ==> ids[a] < ids[b])
  {
    if n > 0 {
      MovedUpTo(sq, doorbells, n - 1);
      assert Moved(sq, doorbells, n) == Moved(sq, doorbells, n - 1) +
        (if sq[n - 1].created && SqDoorbell(doorbells, n - 1) != sq[n - 1].tail then [n] else []);
    } else {
      assert Moved(sq, doorbells, n) == [];
    }
  }

  /** In every reachable table the poll forwards a submission queue if and only if the queue exists and
      its doorbell has moved, each once, in order of id: no live queue lies beyond the loop. */
  lemma {:induction false} PollReachesEveryQueue(evs: seq<Event>, doorbells: seq<u32>, i: nat)
    requires |doorbells| >= 2 * MAX_IO_QUEUES + 2 && 1 <= i <= MAX_IO_QUEUES
    ensures var t := RunAll(NO_QUEUES, evs);
            && t.count <= MAX_IO_QUEUES
            && (i in Moved(t.sq, doorbells, t.count) <==>
                  t.sq[i - 1].created && (var word: int := doorbells[2 * i]; word % 0x1_0000 != t.sq[i - 1].tail))
            && (forall a, b :: 0 <= a < b < |Moved(t.sq, doorbells, t.count)| ==>
                  Moved(t.sq, doorbells, t.count)[a] < Moved(t.sq, doorbells, t.count)[b])
  {
    RunKeepsSound(evs);
    var t := RunAll(NO_QUEUES, evs);
    MovedUpTo(t.sq, doorbells, t.count);
    assert Anchored(t, i - 1);
  }

  lemma {:induction false} DoorbellsSet(t: Table, doorbells: seq<u32>, i: nat)
    requires t.Shaped() && |doorbells| >= 2 * MAX_IO_QUEUES + 2 && i < MAX_IO_QUEUES
    ensures var r, visited := Happens(t, Doorbells(doorbells)), t.sq[i].created && i < t.count;
            && r.sq[i] == Polled(t.sq[i], visited, SqDoorbell(doorbells, i))
            && r.cq[i] == Consumed(t.cq[i], visited, CqDoorbell(doorbells, i))
  {
  }

  lemma {:induction false} IsHappens(t: Table, r: Table, doorbells: seq<u32>)
    requires t.Shaped() && r.Shaped() && |doorbells| >= 2 * MAX_IO_QUEUES + 2 && r.count == t.count
    requires forall i :: 0 <= i < MAX_IO_QUEUES ==>
               r.sq[i] == Polled(t.sq[i], t.sq[i].created && i < t.count, SqDoorbell(doorbells, i))
    requires forall i :: 0 <= i < MAX_IO_QUEUES ==>
               r.cq[i] == Consumed(t.cq[i], t.sq[i].created && i < t.count, CqDoorbell(doorbells, i))
    ensures r == Happens(t, Doorbells(doorbells))
  {
    var u := Happens(t, Doorbells(doorbells));
    forall i | 0 <= i < MAX_IO_QUEUES
      ensures r.sq[i] == u.sq[i] && r.cq[i] == u.cq[i]
    {
      DoorbellsSet(t, doorbells, i);
    }
    assert r.sq == u.sq && r.cq == u.cq;
  }

  /** After a poll every submission queue's tail and the head of the completion queue with the same id are what
      the two doorbells of that id say. */
  lemma {:induction false} PollFollowsDoorbells(evs: seq<Event>, doorbells: seq<u32>, i: nat)
    requires |doorbells| >= 2 * MAX_IO_QUEUES + 2 && 1 <= i <= MAX_IO_QUEUES
    ensures var before := RunAll(NO_QUEUES, evs);
            var t := Happens(before, Doorbells(doorbells));
            var tail: int, head: int := doorbells[2 * i], doorbells[2 * i + 1];
            if before.sq[i - 1].created
            then t.sq[i - 1] == before.sq[i - 1].(tail := tail % 0x1_0000)
                 && t.cq[i - 1] == before.cq[i - 1].(head := head % 0x1_0000)
            else t.sq[i - 1] == before.sq[i - 1] && t.cq[i - 1] == before.cq[i - 1]
  {
    RunKeepsSound(evs);
    assert Anchored(RunAll(NO_QUEUES, evs), i - 1);
    DoorbellsSet(RunAll(NO_QUEUES, evs), doorbells, i - 1);
  }

  // ---------- the driver ----------

  class AdminQueues {
    const ioSq: array<QueueState>
    const ioCq: array<QueueState>
    var ioQueueCount: u16

    constructor ()
      ensures Valid() && State() == NO_QUEUES && fresh(ioSq) && fresh(ioCq)
    {
      ioSq := new QueueState[MAX_IO_QUEUES](_ => BLANK);
      ioCq := new QueueState[MAX_IO_QUEUES](_ => BLANK);
      ioQueueCount := 0;
      new;
      assert ioSq[..] == NO_QUEUES.sq && ioCq[..] == NO_QUEUES.cq;
    }

    ghost predicate Valid()
      reads this
    {
      ioSq.Length == ioCq.Length == MAX_IO_QUEUES && ioSq != ioCq
    }

    function State(): Table
      reads this, ioSq, ioCq
    {
      Table(ioSq[..], ioCq[..], ioQueueCount)
    }

    method HandleCreateIoCq(cdw10: u32, prp1: u64) returns (status: AdminStatus)
      requires Valid()
      modifies ioCq
      ensures (State(), status) == Execute(old(State()), CreateCq(cdw10, prp1))
    {
      var qid, qsize := LowWord(cdw10), QueueSize(cdw10);
      if !IdValid(qid) {
        return INVALID_QUEUE_ID;
      }
      if qsize < 2 {
        return INVALID_QUEUE_SIZE;
      }
      if ioCq[qid - 1].created {
        return INVALID_QUEUE_ID;
      }
      ioCq[qid - 1] := ioCq[qid - 1].(base := prp1, size := qsize, head := 0, tail := 0);
      ioCq[qid - 1] := ioCq[qid - 1].(phaseTag := true, created := true);
      assert ioCq[..] == old(ioCq[..])[qid - 1 := ioCq[qid - 1]];
      return Done;
    }

    method HandleCreateIoSq(cdw10: u32, cdw11: u32, prp1: u64) returns (status: AdminStatus)
      requires Valid()
      modifies this`ioQueueCount, ioSq
      ensures (State(), status) == Execute(old(State()), CreateSq(cdw10, cdw11, prp1))
    {
      var qid, qsize, cqid := LowWord(cdw10), QueueSize(cdw10), HighWord(cdw11);
      if !IdValid(qid) {
        return INVALID_QUEUE_ID;
      }
      if qsize < 2 {
        return INVALID_QUEUE_SIZE;
      }
      if !IdValid(cqid) || !ioCq[cqid - 1].created {
        return CQ_INVALID;
      }
      if ioSq[qid - 1].created {
        return INVALID_QUEUE_ID;
      }
      ioSq[qid - 1] := ioSq[qid - 1].(base := prp1, size := qsize, head := 0, tail := 0);
      ioSq[qid - 1] := ioSq[qid - 1].(cqId := cqid, created := true);
      assert ioSq[..] == old(ioSq[..])[qid - 1 := ioSq[qid - 1]];
      if ioQueueCount < qid {
        ioQueueCount := qid;
      }
      return Done;
    }

    method HandleDeleteIoCq(cdw10: u32) returns (status: AdminStatus)
      requires Valid()
      modifies ioCq
      ensures (State(), status) == Execute(old(State()), DeleteCq(cdw10))
    {
      var qid := LowWord(cdw10);
      if !IdValid(qid) {
        return INVALID_QUEUE_ID;
      }
      if !ioCq[qid - 1].created {
        return INVALID_QUEUE_ID;
      }
      var i := 0;
      while i < MAX_IO_QUEUES
        invariant i <= MAX_IO_QUEUES && !InUse(ioSq[..i], qid)
      {
        if ioSq[i].created && ioSq[i].cqId == qid {
          return INVALID_QUEUE_DELETION;
        }
        i := i + 1;
      }
      assert ioSq[..i] == ioSq[..];
      ioCq[qid - 1] := BLANK;
      return Done;
    }

    method HandleDeleteIoSq(cdw10: u32) returns (status: AdminStatus)
      requires Valid()
      modifies ioSq
      ensures (State(), status) == Execute(old(State()), DeleteSq(cdw10))
    {
      var qid := LowWord(cdw10);
      if !IdValid(qid) {
        return INVALID_QUEUE_ID;
      }
      if !ioSq[qid - 1].created {
        return INVALID_QUEUE_ID;
      }
      ioSq[qid - 1] := BLANK;
      return Done;
    }

    /** One queue: both doorbells are followed; true if the submission tail has moved. */
    method PollQueue(qid: u16, sqTail: u16, cqHead: u16) returns (moved: bool)
      requires Valid() && IdValid(qid)
      modifies ioSq, ioCq
      ensures moved == (old(ioSq[qid - 1]).created && sqTail != old(ioSq[qid - 1]).tail)
      ensures ioSq[qid - 1] == Polled(old(ioSq[qid - 1]), old(ioSq[qid - 1]).created, sqTail)
      ensures ioCq[qid - 1] == Consumed(old(ioCq[qid - 1]), old(ioSq[qid - 1]).created, cqHead)
      ensures forall i :: 0 <= i < MAX_IO_QUEUES && i != qid - 1 ==> ioSq[i] == old(ioSq[i]) && ioCq[i] == old(ioCq[i])
    {
      moved := false;
      if ioSq[qid - 1].created {
        if sqTail != ioSq[qid - 1].tail {
          ioSq[qid - 1] := ioSq[qid - 1].(tail := sqTail);
          moved := true;
        }
        if cqHead != ioCq[qid - 1].head {
          ioCq[qid - 1] := ioCq[qid - 1].(head := cqHead);
        }
      }
    }

    /** The queues 1 to n follow their doorbells, all others are as they were. */
    ghost predicate FollowedUpTo(sqs: seq<QueueState>, cqs: seq<QueueState>, doorbells: seq<u32>, n: nat)
      reads this, ioSq, ioCq
    {
      && Valid() && |sqs| == |cqs| == MAX_IO_QUEUES && |doorbells| >= 2 * MAX_IO_QUEUES + 2
      && (forall i :: 0 <= i < MAX_IO_QUEUES ==>
            ioSq[i] == Polled(sqs[i], sqs[i].created && i < n, SqDoorbell(doorbells, i)))
      && (forall i :: 0 <= i < MAX_IO_QUEUES ==>
            ioCq[i] == Consumed(cqs[i], sqs[i].created && i < n, CqDoorbell(doorbells, i)))
    }

    method PollNext(qid: u16, doorbells: seq<u32>, ghost sqs: seq<QueueState>, ghost cqs: seq<QueueState>)
      returns (moved: bool)
      requires IdValid(qid) && FollowedUpTo(sqs, cqs, doorbells, qid - 1)
      modifies ioSq, ioCq
      ensures moved == (sqs[qid - 1].created && SqDoorbell(doorbells, qid - 1) != sqs[qid - 1].tail)
      ensures FollowedUpTo(sqs, cqs, doorbells, qid)
    {
      moved := PollQueue(qid, SqDoorbell(doorbells, qid - 1), CqDoorbell(doorbells, qid - 1));
    }

    /** The doorbell loop over the I/O queues: submission tails at even, completion heads at odd
        indices. Each created queue follows its doorbells, and is forwarded if its tail has moved. */
    method PollIoDoorbells(doorbells: seq<u32>) returns (forwarded: seq<u16>, hadWork: bool)
      requires Valid() && ioQueueCount <= MAX_IO_QUEUES && |doorbells| >= 2 * MAX_IO_QUEUES + 2
      modifies ioSq, ioCq
      ensures forwarded == Moved(old(ioSq[..]), doorbells, ioQueueCount)
      ensures hadWork <==> forwarded != []
      ensures State() == Happens(old(State()), Doorbells(doorbells))
    {
      forwarded, hadWork := [], false;
      var qid := 1;
      ghost var sqs, cqs := ioSq[..], ioCq[..];
      while qid <= ioQueueCount
        invariant 1 <= qid <= ioQueueCount + 1
        invariant forwarded == Moved(sqs, doorbells, qid - 1) && (hadWork <==> forwarded != [])
        invariant FollowedUpTo(sqs, cqs, doorbells, qid - 1)
      {
        var moved := PollNext(qid, doorbells, sqs, cqs);
        if moved {
          forwarded := forwarded + [qid];
          hadWork := true;
        }
        qid := qid + 1;
      }
      IsHappens(old(State()), State(), doorbells);
    }
  }
}

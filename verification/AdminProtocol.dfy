/** The admin queue from the host's submission to its completion, as one state machine: the host, the
    driver's doorbell poll and forward, the notification ring split into single memory accesses, the
    engine's drain command by command, and the crash at any point. Counts are unbounded; the shared
    indices are their slots. */
module AdminProtocol {
  import opened NvmeTypes
  import opened RingArith
  import opened CompletionRing
  import opened Queues
  import opened UserForward
  import N = NotifyRing

  /** What an admin command handler returned. */
  datatype Outcome = Outcome(dw0: u32, sct: u8, sc: u8)

  /** The entry CmdEnginePostAdminCompletion builds, before the phase; SQHD is the published head,
      which does not move during a drain. */
  function EngineEntry(sqHead: nat, cid: u16, o: Outcome): Completion
  {
    Completion(o.dw0, 0, sqHead % 0x1_0000, 0, cid, MakeStatus(o.sct, o.sc, false))
  }

  /** The driver's timer callback: Forwarding has published the tail and not yet pushed; Notifying is
      inside or past the push. count is the doorbell the callback read. */
  datatype Kernel = Resting | Forwarding(count: nat) | Notifying(count: nat)

  /** The engine's inner loop over the admin queue. */
  datatype Drain = NotDraining | Draining(at: nat, until: nat) | Drained

  datatype State = State(
    cap: nat,
    // submission queue: entries, the host's count and doorbell
    sq: seq<Command>, submitted: seq<Command>, rung: nat,
    // descriptor: AdminSQ.Tail and AdminSQ.Head with the counts they stand for
    sqTail: nat, forwarded: nat, sqHead: nat, released: nat,
    // driver
    kernel: Kernel, userReady: bool, lastTail: nat, seen: nat,
    // notification ring; marks[i] is the count of forwarded commands when entry i was accepted
    notes: N.State, marks: seq<nat>,
    drain: Drain,
    // completion queue with the engine's phase, everything posted, and what the host has taken
    comp: Run,
    // AdminCQ.Phase, which only the abort reads
    shmPhase: bool)

  datatype Step =
    | HostWrites(cmd: Command) | HostRings | HostLooking
    | ServerReady(ready: bool)
    | Poll | PushAdmin | PushOther(entry: N.Entry) | ProducerMoves(p: N.Step) | PollDone
    | ConsumerMoves(c: N.Step) | DrainStart | DrainOne(o: Outcome) | DrainEnd

  predicate IsAdmin(e: N.Entry) { e.queueId == 0 && e.kind == 0 }

  function Init(cap: nat, size: nat): State
  {
    State(cap, seq(cap, _ => ZERO_COMMAND), [], 0, 0, 0, 0, 0, Resting, false, 0, 0,
          N.Init(size), [], NotDraining, Run(Fresh(cap), [], []), true)
  }

  predicate InRange(s: State)
  {
    && 2 <= s.cap <= 0x1_0000 && |s.sq| == s.cap && N.InRange(s.notes) && s.comp.q.Valid()
    && s.sqHead < s.cap && s.sqTail < s.cap
    && (s.drain.Draining? ==> s.drain.at < s.cap)
  }

  predicate Enabled(s: State, step: Step)
  {
    s.cap > 0 &&
    match step
    // the host keeps fewer than cap commands outstanding, and never fills the submission queue
    case HostWrites(_) => |s.submitted| + 1 < s.released + s.cap && |s.submitted| + 1 < |s.comp.taken| + s.cap
    case HostRings => true
    case HostLooking => true
    case ServerReady(_) => true
    case Poll => s.kernel.Resting? && Slot(s.rung, s.cap) != s.lastTail
    case PushAdmin => s.kernel.Forwarding? && s.notes.producer.Idle?
    case PushOther(e) => s.kernel.Resting? && s.notes.producer.Idle? && !IsAdmin(e)
    case ProducerMoves(p) => s.kernel.Notifying? && (p.WriteField? || p.PublishTail?) && N.Enabled(s.notes, p)
    case PollDone => s.kernel.Notifying? && s.notes.producer.Idle?
    case ConsumerMoves(c) =>
      && (c.Snapshot? || c.ReadField? || c.PublishHead? || c.Advance?) && N.Enabled(s.notes, c)
      && (if c.Advance? && IsAdmin(s.notes.consumer.got) then s.drain.Drained? else s.drain.NotDraining?)
    case DrainStart =>
      && s.drain.NotDraining? && s.notes.consumer.Draining? && s.notes.consumer.fields == 3
      && IsAdmin(s.notes.consumer.got)
    case DrainOne(_) => s.drain.Draining? && s.drain.at != s.drain.until
    case DrainEnd => s.drain.Draining? && s.drain.at == s.drain.until
  }

  function Apply(s: State, step: Step): State
    requires InRange(s) && Enabled(s, step)
  {
    match step
    case HostWrites(cmd) =>
      s.(sq := s.sq[Slot(|s.submitted|, s.cap) := cmd], submitted := s.submitted + [cmd])
    case HostRings => s.(rung := |s.submitted|)
    case HostLooking => s.(comp := Happens(s.comp, HostLooks))
    case ServerReady(ready) => s.(userReady := ready)
    case Poll =>
      if s.userReady then s.(sqTail := Slot(s.rung, s.cap), forwarded := s.rung, kernel := Forwarding(s.rung))
      else s.(lastTail := Slot(s.rung, s.cap), seen := s.rung)
    case PushAdmin =>
      s.(notes := N.Apply(s.notes, N.BeginPush(N.Entry(0, 0, Slot(s.kernel.count, s.cap)))),
         kernel := Notifying(s.kernel.count))
    case PushOther(e) => s.(notes := N.Apply(s.notes, N.BeginPush(e)), kernel := Notifying(s.seen))
    case ProducerMoves(p) =>
      s.(notes := N.Apply(s.notes, p), marks := if p.PublishTail? then s.marks + [s.forwarded] else s.marks)
    case PollDone => s.(lastTail := Slot(s.kernel.count, s.cap), seen := s.kernel.count, kernel := Resting)
    case ConsumerMoves(c) =>
      s.(notes := N.Apply(s.notes, c), drain := NotDraining)
    case DrainStart => s.(drain := Draining(s.sqHead, s.notes.consumer.got.index))
    case DrainOne(o) =>
      s.(comp := Happens(s.comp, Posted(EngineEntry(s.sqHead, s.sq[s.drain.at].cid, o))),
         drain := Draining(Next(s.drain.at, s.cap), s.drain.until))
    case DrainEnd => s.(sqHead := s.drain.at, released := |s.comp.posted|, drain := Drained)
  }

  // ---------- invariants ----------

  /** What the host has written and nobody has released yet is still in its slot. */
  ghost predicate HostInv(cap: nat, sq: seq<Command>, submitted: seq<Command>, rung: nat, released: nat, taken: nat)
  {
    && 2 <= cap <= 0x1_0000 && |sq| == cap
    && rung <= |submitted| < released + cap && |submitted| < taken + cap
    && forall k :: released <= k < |submitted| ==> sq[Slot(k, cap)] == submitted[k]
  }

  ghost predicate DriverInv(cap: nat, rung: nat, sqTail: nat, forwarded: nat, lastTail: nat, seen: nat,
                            kernel: Kernel, producer: N.Producer)
  {
    && cap > 0 && forwarded <= rung && seen <= rung
    && sqTail == Slot(forwarded, cap) && lastTail == Slot(seen, cap)
    && (kernel.Resting? || kernel.Forwarding? ==> producer.Idle?)
    && (kernel.Forwarding? ==> kernel.count == forwarded)
    && (kernel.Notifying? ==> kernel.count <= rung)
    && (producer.Filling? && IsAdmin(producer.entry) ==> producer.entry.index == Slot(forwarded, cap))
  }

  /** The accepted notifications: an admin entry carries the slot of its mark; marks grow; what has
      been read is done, and what has not been read asks for no less. */
  ghost predicate MarksInv(cap: nat, accepted: seq<N.Entry>, read: nat, marks: seq<nat>, done: nat, forwarded: nat)
  {
    && cap > 0 && |marks| == |accepted|
    && (forall i :: 0 <= i < |marks| ==> marks[i] <= forwarded)
    && (forall i, j :: 0 <= i <= j < |marks| ==> marks[i] <= marks[j])
    && (forall i :: 0 <= i < |marks| && IsAdmin(accepted[i]) ==> accepted[i].index == Slot(marks[i], cap))
    && (forall i :: 0 <= i < |marks| && i < read && IsAdmin(accepted[i]) ==> marks[i] <= done)
    && (forall i :: 0 <= i < |marks| && read <= i ==> done <= marks[i])
  }

  ghost predicate EngineInv(cap: nat, sqHead: nat, released: nat, done: nat, forwarded: nat,
                            drain: Drain, consumer: N.Consumer, read: nat, marks: seq<nat>)
  {
    && cap > 0 && sqHead == Slot(released, cap) && released <= done <= forwarded
    && (drain.NotDraining? ==> done == released)
    && (!drain.NotDraining? ==>
          consumer.Draining? && consumer.fields == 3 && IsAdmin(consumer.got) && read < |marks|)
    && (drain.Draining? ==> drain.at == Slot(done, cap) && drain.until == Slot(marks[read], cap))
    && (drain.Drained? ==> done == released == marks[read])
  }

  ghost predicate CompletionInv(cap: nat, comp: Run, submitted: seq<Command>, shmPhase: bool)
  {
    && HostInStep(cap, comp) && |comp.posted| <= |submitted| && shmPhase
    && forall k :: 0 <= k < |comp.posted| ==> comp.posted[k].cid == submitted[k].cid
  }

  ghost predicate Inv(s: State)
  {
    && N.Inv(s.notes)
    && HostInv(s.cap, s.sq, s.submitted, s.rung, s.released, |s.comp.taken|)
    && DriverInv(s.cap, s.rung, s.sqTail, s.forwarded, s.lastTail, s.seen, s.kernel, s.notes.producer)
    && MarksInv(s.cap, s.notes.accepted, |s.notes.consumed|, s.marks, |s.comp.posted|, s.forwarded)
    && EngineInv(s.cap, s.sqHead, s.released, |s.comp.posted|, s.forwarded, s.drain, s.notes.consumer,
                 |s.notes.consumed|, s.marks)
    && CompletionInv(s.cap, s.comp, s.submitted, s.shmPhase)
  }

  lemma {:induction false} InvInRange(s: State)
    requires Inv(s)
    ensures InRange(s)
  {
  }

  lemma {:induction false} InitInv(cap: nat, size: nat)
    requires 2 <= cap <= 0x1_0000 && size >= 2
    ensures Inv(Init(cap, size))
  {
  }

  lemma {:induction false} WriteStep(s: State, step: Step)
    requires Inv(s) && InRange(s) && Enabled(s, step) && step.HostWrites?
    ensures Inv(Apply(s, step))
  {
    forall k | s.released <= k < |s.submitted|
      ensures Slot(k, s.cap) != Slot(|s.submitted|, s.cap)
    {
      SlotsDiffer(k, |s.submitted|, s.cap);
    }
  }

  lemma {:induction false} LookStep(s: State, step: Step)
    requires Inv(s) && InRange(s) && Enabled(s, step) && step.HostLooking?
    ensures Inv(Apply(s, step))
  {
    HostStaysInStep(s.cap, s.comp, HostLooks);
  }

  lemma {:induction false} PollStep(s: State, step: Step)
    requires Inv(s) && InRange(s) && Enabled(s, step)
    requires step.HostRings? || step.ServerReady? || step.Poll? || step.PollDone?
    ensures Inv(Apply(s, step))
  {
  }

  lemma {:induction false} PushStep(s: State, step: Step)
    requires Inv(s) && InRange(s) && Enabled(s, step) && (step.PushAdmin? || step.PushOther?)
    ensures Inv(Apply(s, step))
  {
    var e := if step.PushAdmin? then N.Entry(0, 0, Slot(s.kernel.count, s.cap)) else step.entry;
    N.StepKeepsInv(s.notes, N.BeginPush(e));
  }

  lemma {:induction false} MarksGrow(cap: nat, accepted: seq<N.Entry>, read: nat, marks: seq<nat>,
                                     done: nat, forwarded: nat, e: N.Entry)
    requires MarksInv(cap, accepted, read, marks, done, forwarded) && read <= |marks| && done <= forwarded
    requires IsAdmin(e) ==> e.index == Slot(forwarded, cap)
    ensures MarksInv(cap, accepted + [e], read, marks + [forwarded], done, forwarded)
  {
  }

  lemma {:induction false} ProducerStep(s: State, step: Step)
    requires Inv(s) && InRange(s) && Enabled(s, step) && step.ProducerMoves?
    ensures Inv(Apply(s, step))
  {
    N.StepKeepsInv(s.notes, step.p);
    if step.p.PublishTail? {
      MarksGrow(s.cap, s.notes.accepted, |s.notes.consumed|, s.marks, |s.comp.posted|, s.forwarded,
                s.notes.producer.entry);
    }
  }

  lemma {:induction false} ConsumerStep(s: State, step: Step)
    requires Inv(s) && InRange(s) && Enabled(s, step) && step.ConsumerMoves?
    ensures Inv(Apply(s, step))
  {
    N.StepKeepsInv(s.notes, step.c);
  }

  /** While the drain is not at its end, the slot it is at holds the next forwarded command. */
  lemma {:induction false} DrainFindsNext(s: State)
    requires Inv(s) && InRange(s) && s.drain.Draining? && s.drain.at != s.drain.until
    ensures var done := |s.comp.posted|;
            && done < s.marks[|s.notes.consumed|] && done < s.forwarded
            && s.sq[s.drain.at] == s.submitted[done] && done < |s.comp.taken| + s.cap
  {
  }

  lemma {:induction false} MarksAfterPost(cap: nat, accepted: seq<N.Entry>, read: nat, marks: seq<nat>,
                                          done: nat, forwarded: nat)
    requires MarksInv(cap, accepted, read, marks, done, forwarded) && read < |marks| && done < marks[read]
    ensures MarksInv(cap, accepted, read, marks, done + 1, forwarded)
  {
  }

  lemma {:induction false} CompletionAfterPost(cap: nat, comp: Run, submitted: seq<Command>, shmPhase: bool,
                                               e: Completion)
    requires CompletionInv(cap, comp, submitted, shmPhase) && |comp.posted| < |comp.taken| + cap
    requires |comp.posted| < |submitted| && e.cid == submitted[|comp.posted|].cid
    ensures CompletionInv(cap, Happens(comp, Posted(e)), submitted, shmPhase)
    ensures |Happens(comp, Posted(e)).posted| == |comp.posted| + 1 && Happens(comp, Posted(e)).taken == comp.taken
  {
    HostStaysInStep(cap, comp, Posted(e));
  }

  lemma {:induction false} EngineAfterPost(cap: nat, sqHead: nat, released: nat, done: nat, forwarded: nat,
                                           drain: Drain, consumer: N.Consumer, read: nat, marks: seq<nat>)
    requires EngineInv(cap, sqHead, released, done, forwarded, drain, consumer, read, marks)
    requires drain.Draining? && drain.at < cap && done < forwarded
    ensures EngineInv(cap, sqHead, released, done + 1, forwarded, Draining(Next(drain.at, cap), drain.until),
                      consumer, read, marks)
  {
  }

  lemma {:induction false} DrainOneLeaves(s: State, step: Step)
    requires Inv(s) && InRange(s) && Enabled(s, step) && step.DrainOne?
    ensures var t := Apply(s, step);
            && t == s.(comp := t.comp, drain := Draining(Next(s.drain.at, s.cap), s.drain.until))
            && |t.comp.posted| == |s.comp.posted| + 1 && t.comp.taken == s.comp.taken
            && CompletionInv(s.cap, t.comp, s.submitted, s.shmPhase)
  {
    DrainFindsNext(s);
    CompletionAfterPost(s.cap, s.comp, s.submitted, s.shmPhase, EngineEntry(s.sqHead, s.sq[s.drain.at].cid, step.o));
  }

  lemma {:induction false} OneMorePosted(s: State, comp: Run)
    requires Inv(s) && InRange(s) && s.drain.Draining? && s.drain.at != s.drain.until
    requires CompletionInv(s.cap, comp, s.submitted, s.shmPhase)
    requires |comp.posted| == |s.comp.posted| + 1 && comp.taken == s.comp.taken
    ensures Inv(s.(comp := comp, drain := Draining(Next(s.drain.at, s.cap), s.drain.until)))
  {
    var done, read := |s.comp.posted|, |s.notes.consumed|;
    DrainFindsNext(s);
    MarksAfterPost(s.cap, s.notes.accepted, read, s.marks, done, s.forwarded);
    EngineAfterPost(s.cap, s.sqHead, s.released, done, s.forwarded, s.drain, s.notes.consumer, read, s.marks);
  }

  lemma {:induction false} DrainOneStep(s: State, step: Step)
    requires Inv(s) && InRange(s) && Enabled(s, step) && step.DrainOne?
    ensures Inv(Apply(s, step))
  {
    DrainOneLeaves(s, step);
    OneMorePosted(s, Apply(s, step).comp);
  }

  lemma {:induction false} DrainEdgeStep(s: State, step: Step)
    requires Inv(s) && InRange(s) && Enabled(s, step) && (step.DrainStart? || step.DrainEnd?)
    ensures Inv(Apply(s, step))
  {
    var done, mark := |s.comp.posted|, s.marks[|s.notes.consumed|];
    if step.DrainEnd? && done < mark {
      SlotsDiffer(done, mark, s.cap);
    }
  }

  lemma {:induction false} StepKeepsInv(s: State, step: Step)
    requires Inv(s) && InRange(s) && Enabled(s, step)
    ensures Inv(Apply(s, step))
  {
    match step
    case HostWrites(_) => WriteStep(s, step);
    case HostLooking => LookStep(s, step);
    case PushAdmin => PushStep(s, step);
    case PushOther(_) => PushStep(s, step);
    case ProducerMoves(_) => ProducerStep(s, step);
    case ConsumerMoves(_) => ConsumerStep(s, step);
    case DrainOne(_) => DrainOneStep(s, step);
    case DrainStart => DrainEdgeStep(s, step);
    case DrainEnd => DrainEdgeStep(s, step);
    case HostRings => PollStep(s, step);
    case ServerReady(_) => PollStep(s, step);
    case Poll => PollStep(s, step);
    case PollDone => PollStep(s, step);
  }

  // ---------- runs ----------

  ghost predicate Runs(s: State, steps: seq<Step>, t: State)
    decreases |steps|
  {
    if steps == [] then s == t
    else InRange(s) && Enabled(s, steps[0]) && Runs(Apply(s, steps[0]), steps[1..], t)
  }

  lemma {:induction false} RunsCons(s: State, steps: seq<Step>, t: State)
    requires steps != [] && InRange(s) && Enabled(s, steps[0]) && Runs(Apply(s, steps[0]), steps[1..], t)
    ensures Runs(s, steps, t)
  {
  }

  lemma {:induction false} RunKeepsInv(s: State, steps: seq<Step>, t: State)
    requires Inv(s) && Runs(s, steps, t)
    ensures Inv(t) && InRange(t) && t.cap == s.cap
    decreases |steps|
  {
    if steps != [] {
      StepKeepsInv(s, steps[0]);
      RunKeepsInv(Apply(s, steps[0]), steps[1..], t);
    } else {
      InvInRange(s);
    }
  }

  function Cids(es: seq<Completion>): seq<u16> { seq(|es|, i requires 0 <= i < |es| => es[i].cid) }

  function CommandIds(cs: seq<Command>): seq<u16> { seq(|cs|, i requires 0 <= i < |cs| => cs[i].cid) }

  /** In every run, whatever is dropped and however the memory accesses interleave: the completions
      posted are those of the first commands forwarded, one each, in submission order; and what the
      host has taken by the phase tag is exactly what was posted, in order. */
  lemma {:induction false} CompletionsInOrder(cap: nat, size: nat, steps: seq<Step>, s: State)
    requires 2 <= cap <= 0x1_0000 && size >= 2 && Runs(Init(cap, size), steps, s)
    ensures |s.comp.posted| <= s.forwarded <= |s.submitted|
    ensures Cids(s.comp.posted) == CommandIds(s.submitted[..|s.comp.posted|])
    ensures |s.comp.taken| <= |s.comp.posted|
    ensures Cids(s.comp.taken) == CommandIds(s.submitted[..|s.comp.taken|])
  {
    InitInv(cap, size);
    RunKeepsInv(Init(cap, size), steps, s);
  }

  /** The entry reports the outcome: DW0 as given, the second word and the queue id zero, and type and code side
      by side above the phase bit. */
  predicate Reports(e: Completion, o: Outcome)
  {
    && e.dw0 == o.dw0 && e.dw1 == 0 && e.sqid == 0
    && (o.sct < 8 ==>
          e.status / 2 == 256 * o.sct + o.sc && StatusCodeType(e.status) == o.sct && StatusCode(e.status) == o.sc)
  }

  lemma {:induction false} MadeStatus(sct: u8, sc: u8, phase: bool)
    requires sct < 8
    ensures MakeStatus(sct, sc, phase) == Bit(phase) + 2 * sc + 512 * sct
    ensures StampStatus(MakeStatus(sct, sc, false), phase) == MakeStatus(sct, sc, phase)
  {
    assert MakeStatus(sct, sc, false) % 2 == 0 by {
      assert MakeStatus(sct, sc, false) == 2 * (sc + 256 * sct);
    }
  }

  lemma {:induction false} WordReports(e: Completion, o: Outcome, phase: bool)
    requires e.dw0 == o.dw0 && e.dw1 == 0 && e.sqid == 0
    requires o.sct < 8 ==> e.status == Bit(phase) + 2 * o.sc + 512 * o.sct
    ensures Reports(e, o)
  {
    if o.sct < 8 {
      WordParts(Bit(phase), o.sc, o.sct);
    }
  }

  lemma {:induction false} EntryReports(sqHead: nat, cid: u16, o: Outcome, phase: bool)
    ensures Reports(EngineEntry(sqHead, cid, o), o) && Reports(Stamp(EngineEntry(sqHead, cid, o), phase), o)
  {
    if o.sct < 8 {
      MadeStatus(o.sct, o.sc, false);
      MadeStatus(o.sct, o.sc, phase);
    }
    WordReports(EngineEntry(sqHead, cid, o), o, false);
    WordReports(Stamp(EngineEntry(sqHead, cid, o), phase), o, phase);
  }

  ghost predicate AllReport(es: seq<Completion>, os: seq<Outcome>)
  {
    |es| == |os| && forall k :: 0 <= k < |es| ==> Reports(es[k], os[k])
  }

  /** What the handlers returned, in the order of a run's steps. */
  function OutcomesOf(steps: seq<Step>): seq<Outcome>
  {
    if steps == [] then []
    else (if steps[0].DrainOne? then [steps[0].o] else []) + OutcomesOf(steps[1..])
  }

  lemma {:induction false} StepReports(s: State, step: Step, os: seq<Outcome>)
    requires InRange(s) && Enabled(s, step) && AllReport(s.comp.posted, os)
    ensures AllReport(Apply(s, step).comp.posted, os + OutcomesOf([step]))
  {
    if step.DrainOne? {
      EntryReports(s.sqHead, s.sq[s.drain.at].cid, step.o, false);
    }
  }

  lemma {:induction false} OutcomesSplit(os: seq<Outcome>, steps: seq<Step>)
    requires steps != []
    ensures (os + OutcomesOf([steps[0]])) + OutcomesOf(steps[1..]) == os + OutcomesOf(steps)
  {
    assert [steps[0]][1..] == [];
    assert OutcomesOf([steps[0]]) == (if steps[0].DrainOne? then [steps[0].o] else []);
  }

  lemma {:induction false} RunReports(s: State, steps: seq<Step>, t: State, os: seq<Outcome>)
    requires Runs(s, steps, t) && AllReport(s.comp.posted, os)
    ensures AllReport(t.comp.posted, os + OutcomesOf(steps))
    decreases |steps|
  {
    if steps == [] {
      assert os + OutcomesOf(steps) == os;
    } else {
      StepReports(s, steps[0], os);
      OutcomesSplit(os, steps);
      RunReports(Apply(s, steps[0]), steps[1..], t, os + OutcomesOf([steps[0]]));
    }
  }

  lemma {:induction false} StampReports(e: Completion, o: Outcome, phase: bool)
    requires Reports(e, o)
    ensures Reports(Stamp(e, phase), o)
  {
    var a, b := e.status, StampStatus(e.status, phase);
    assert a / 2 == b / 2 && a / 512 == b / 512;
  }

  /** In every run the host takes the outcomes in order: its k-th completion has the CID of the k-th command
      submitted, and the DW0, the type and the code of the k-th outcome the handlers returned, with the
      phase the host expects there. */
  lemma {:induction false} OutcomesInOrder(cap: nat, size: nat, steps: seq<Step>, s: State, k: nat)
    requires 2 <= cap <= 0x1_0000 && size >= 2 && Runs(Init(cap, size), steps, s)
    ensures |s.comp.taken| <= |OutcomesOf(steps)| == |s.comp.posted| <= |s.submitted|
    ensures k < |s.comp.taken| ==>
              var e := s.comp.taken[k];
              && e.cid == s.submitted[k].cid && Reports(e, OutcomesOf(steps)[k])
              && (e.status % 2 == 1 <==> ExpectedPhase(k, cap))
  {
    InitInv(cap, size);
    RunKeepsInv(Init(cap, size), steps, s);
    RunReports(Init(cap, size), steps, s, []);
    assert [] + OutcomesOf(steps) == OutcomesOf(steps);
    if k < |s.comp.taken| {
      StampReports(s.comp.posted[k], OutcomesOf(steps)[k], ExpectedPhase(k, cap));
    }
  }

  /** A notification that has been read is done: every command forwarded before it was accepted has its
      completion. A dropped notification only delays its commands to the next one accepted. */
  lemma {:induction false} ReadNotificationsAreServed(cap: nat, size: nat, steps: seq<Step>, s: State, i: nat)
    requires 2 <= cap <= 0x1_0000 && size >= 2 && Runs(Init(cap, size), steps, s)
    requires i < |s.notes.consumed|
    ensures |s.notes.consumed| <= |s.notes.accepted| == |s.marks|
    ensures IsAdmin(s.notes.consumed[i]) ==> s.marks[i] <= |s.comp.posted|
    ensures IsAdmin(s.notes.consumed[i]) && s.marks[i] == s.forwarded ==> |s.comp.posted| == s.forwarded
  {
    InitInv(cap, size);
    RunKeepsInv(Init(cap, size), steps, s);
  }

  // ---------- what is left behind ----------

  /** What has been released was asked for by an admin notification read so far. */
  ghost predicate ReleasedBy(accepted: seq<N.Entry>, marks: seq<nat>, released: nat, read: nat)
  {
    released == 0 || exists i :: 0 <= i < read && Asks(accepted, marks, i, released)
  }

  /** The i-th accepted notification is an admin one, accepted when n commands had been forwarded. */
  predicate Asks(accepted: seq<N.Entry>, marks: seq<nat>, i: nat, n: nat)
  {
    i < |accepted| && i < |marks| && IsAdmin(accepted[i]) && marks[i] == n
  }

  ghost predicate Asked(s: State)
  {
    ReleasedBy(s.notes.accepted, s.marks, s.released, |s.notes.consumed| + (if s.drain.Drained? then 1 else 0))
  }

  lemma {:induction false} AskedAfterEnd(s: State)
    requires Inv(s) && InRange(s) && Enabled(s, DrainEnd)
    ensures Asked(Apply(s, DrainEnd))
  {
    StepKeepsInv(s, DrainEnd);
    var read := |s.notes.consumed|;
    assert s.notes.accepted[read] == s.notes.consumer.got;
    assert Asks(s.notes.accepted, s.marks, read, Apply(s, DrainEnd).released);
  }

  lemma {:induction false} AskedPersists(a: seq<N.Entry>, m: seq<nat>, released: nat, read: nat,
                                         a': seq<N.Entry>, m': seq<nat>, read': nat)
    requires ReleasedBy(a, m, released, read) && a <= a' && m <= m' && read <= read'
    ensures ReleasedBy(a', m', released, read')
  {
    if released != 0 {
      var i :| 0 <= i < read && Asks(a, m, i, released);
      assert Asks(a', m', i, released);
    }
  }

  lemma {:induction false} HistoryGrows(s: State, step: Step)
    requires InRange(s) && Enabled(s, step) && !step.DrainEnd?
    ensures var t := Apply(s, step);
            && s.notes.accepted <= t.notes.accepted && s.marks <= t.marks && t.released == s.released
            && |s.notes.consumed| + (if s.drain.Drained? then 1 else 0)
               <= |t.notes.consumed| + (if t.drain.Drained? then 1 else 0)
  {
  }

  lemma {:induction false} StepKeepsAsked(s: State, step: Step)
    requires Inv(s) && InRange(s) && Enabled(s, step) && Asked(s)
    ensures Asked(Apply(s, step))
  {
    if step.DrainEnd? {
      AskedAfterEnd(s);
    } else {
      var t := Apply(s, step);
      HistoryGrows(s, step);
      AskedPersists(s.notes.accepted, s.marks, s.released, |s.notes.consumed| + (if s.drain.Drained? then 1 else 0),
                    t.notes.accepted, t.marks, |t.notes.consumed| + (if t.drain.Drained? then 1 else 0));
    }
  }

  lemma {:induction false} RunKeepsAsked(s: State, steps: seq<Step>, t: State)
    requires Inv(s) && Asked(s) && Runs(s, steps, t)
    ensures Asked(t)
    decreases |steps|
  {
    if steps != [] {
      StepKeepsInv(s, steps[0]);
      StepKeepsAsked(s, steps[0]);
      RunKeepsAsked(Apply(s, steps[0]), steps[1..], t);
    }
  }

  /** Forwarded commands are stranded exactly when the notification of the last forward was dropped: with the
      ring read empty and no drain under way, every forwarded command has its completion if and only if
      an admin notification was accepted since the last of them was forwarded. */
  lemma {:induction false} StrandedExactly(cap: nat, size: nat, steps: seq<Step>, s: State)
    requires 2 <= cap <= 0x1_0000 && size >= 2 && Runs(Init(cap, size), steps, s)
    requires |s.notes.consumed| == |s.notes.accepted| && s.drain.NotDraining?
    ensures |s.comp.posted| == s.forwarded <==>
              s.forwarded == 0 || exists i: nat :: Asks(s.notes.accepted, s.marks, i, s.forwarded)
  {
    InitInv(cap, size);
    RunKeepsInv(Init(cap, size), steps, s);
    RunKeepsAsked(Init(cap, size), steps, s);
  }

  /** The driver stands where no doorbell rung so far will be forwarded. */
  ghost predicate Overlooked(s: State, rung: nat, forwarded: nat)
  {
    && s.rung == s.seen == rung && s.forwarded == forwarded
    && !s.kernel.Forwarding? && (s.kernel.Notifying? ==> s.kernel.count == rung)
  }

  lemma {:induction false} StaysOverlooked(s: State, step: Step, rung: nat, forwarded: nat)
    requires Inv(s) && InRange(s) && Enabled(s, step) && Overlooked(s, rung, forwarded) && !step.HostRings?
    ensures Overlooked(Apply(s, step), rung, forwarded)
  {
  }

  lemma {:induction false} RunStaysOverlooked(s: State, steps: seq<Step>, t: State, rung: nat, forwarded: nat)
    requires Inv(s) && Runs(s, steps, t) && Overlooked(s, rung, forwarded)
    requires forall i :: 0 <= i < |steps| ==> !steps[i].HostRings?
    ensures Overlooked(t, rung, forwarded)
    decreases |steps|
  {
    if steps != [] {
      StaysOverlooked(s, steps[0], rung, forwarded);
      StepKeepsInv(s, steps[0]);
      RunStaysOverlooked(Apply(s, steps[0]), steps[1..], t, rung, forwarded);
    }
  }

  /** A doorbell polled while the server is not ready is remembered as seen and forgotten: whatever follows,
      the server becoming ready included, nothing is forwarded until the host rings again. */
  lemma {:induction false} ForgottenUntilNextDoorbell(s: State, steps: seq<Step>, t: State)
    requires Inv(s) && InRange(s) && Enabled(s, Poll) && !s.userReady && Runs(Apply(s, Poll), steps, t)
    requires forall i :: 0 <= i < |steps| ==> !steps[i].HostRings?
    ensures t.forwarded == s.forwarded && t.rung == s.rung
  {
    StepKeepsInv(s, Poll);
    RunStaysOverlooked(Apply(s, Poll), steps, t, s.rung, s.forwarded);
  }

  // ---------- the crash ----------

  /** The admin queue as the abort reads it, and the entries it posts. */
  function Abandoned(s: State): (q: Sq)
    requires InRange(s)
    ensures q.Valid()
  {
    Sq(s.sq, s.sqHead, s.sqTail)
  }

  /** The abort: with nothing pending it writes nothing; otherwise the phase it starts from is the one in
      shared memory, not the engine's. */
  function Crash(s: State): (r: Run)
    requires InRange(s)
    ensures r.q.Valid()
  {
    var es := AbortAll(Abandoned(s), 0);
    if es == [] then s.comp
    else Run(PutAll(s.comp.q.(phase := s.shmPhase), es), s.comp.posted + es, s.comp.taken)
  }

  lemma {:induction false} AbandonedCount(s: State)
    requires Inv(s) && InRange(s)
    ensures s.released <= s.forwarded <= |s.submitted|
    ensures |AbortAll(Abandoned(s), 0)| == Abandoned(s).Pending() == s.forwarded - s.released
  {
    DistIsDifference(s.released, s.forwarded, s.cap);
  }

  lemma {:induction false} AbandonedAt(s: State, k: nat)
    requires Inv(s) && InRange(s) && s.released + k < s.forwarded <= |s.submitted|
    ensures PendingAt(Abandoned(s), k) == s.submitted[s.released + k]
  {
    SlotSum(s.released, k, s.cap);
  }

  lemma {:induction false} AbandonedCid(s: State, k: nat)
    requires Inv(s) && InRange(s) && s.released + k < s.forwarded <= |s.submitted|
    ensures k < |AbortAll(Abandoned(s), 0)|
    ensures Cids(AbortAll(Abandoned(s), 0))[k] == CommandIds(s.submitted[s.released..s.forwarded])[k]
  {
    AbandonedCount(s);
    AbandonedAt(s, k);
  }

  lemma {:induction false} SameCids(a: seq<u16>, b: seq<u16>)
    requires |a| == |b| && forall k :: 0 <= k < |a| ==> a[k] == b[k]
    ensures a == b
  {
  }

  /** The abort finds every forwarded command whose slot has not been released, in order. */
  lemma {:induction false} AbandonedCommands(s: State)
    requires Inv(s) && InRange(s)
    ensures s.released <= s.forwarded <= |s.submitted|
    ensures Cids(AbortAll(Abandoned(s), 0)) == CommandIds(s.submitted[s.released..s.forwarded])
  {
    AbandonedCount(s);
    var a, b := Cids(AbortAll(Abandoned(s), 0)), CommandIds(s.submitted[s.released..s.forwarded]);
    forall k | 0 <= k < |a|
      ensures a[k] == b[k]
    {
      AbandonedCid(s, k);
    }
    SameCids(a, b);
  }

  /** The counts of a crash: what the abort adds is what was forwarded and not released. */
  lemma {:induction false} CrashCounts(s: State)
    requires Inv(s) && InRange(s)
    ensures s.released <= |s.comp.posted| <= s.forwarded <= |s.submitted| < s.released + s.cap
    ensures |AbortAll(Abandoned(s), 0)| == s.forwarded - s.released
    ensures |Crash(s).posted| == |s.comp.posted| + s.forwarded - s.released
  {
    AbandonedCount(s);
  }

  /** In shared memory: the submission queue's head has met the completion queue's tail. */
  lemma {:induction false} HeadMeetsTail(s: State)
    requires Inv(s) && InRange(s)
    ensures s.sqHead == s.comp.q.tail <==> |s.comp.posted| == s.released
  {
    CrashCounts(s);
    PutAllTail(Fresh(s.cap), s.comp.posted);
    if s.released < |s.comp.posted| {
      SlotsDiffer(s.released, |s.comp.posted|, s.cap);
    }
  }

  lemma {:induction false} CidsSplit(a: seq<Completion>, b: seq<Completion>, cs: seq<Command>, n: nat, m: nat)
    requires n <= m <= |cs|
    ensures Cids(a + b) == Cids(a) + Cids(b)
    ensures CommandIds(cs[..m]) == CommandIds(cs[..n]) + CommandIds(cs[n..m])
  {
  }

  lemma {:induction false} CidsFirst(s: State)
    requires Inv(s)
    ensures |s.comp.posted| <= |s.submitted|
    ensures Cids(s.comp.posted) == CommandIds(s.submitted[..|s.comp.posted|])
  {
  }

  lemma {:induction false} CrashCids(s: State)
    requires Inv(s) && InRange(s) && |s.comp.posted| == s.released
    ensures s.forwarded <= |s.submitted|
    ensures Cids(Crash(s).posted) == CommandIds(s.submitted[..s.forwarded])
  {
    AbandonedCommands(s);
    CidsFirst(s);
    var es := AbortAll(Abandoned(s), 0);
    assert Crash(s).posted == s.comp.posted + es;
    CidsSplit(s.comp.posted, es, s.submitted, s.released, s.forwarded);
  }

  /** The abort leaves exactly as many completions as forwarded commands if and only if AdminSQ.Head equals
      AdminCQ.Tail, that is, the engine had published its head since its last completion; they are then
      those of the forwarded commands in submission order. A crash between two drains is such a one;
      a crash inside a drain makes the abort post again for each command already completed. */
  lemma {:induction false} CrashCompletesEachOnce(cap: nat, size: nat, steps: seq<Step>, s: State)
    requires 2 <= cap <= 0x1_0000 && size >= 2 && Runs(Init(cap, size), steps, s) && InRange(s)
    requires s.kernel.Resting?
    ensures |Crash(s).posted| == s.forwarded <==> s.sqHead == s.comp.q.tail
    ensures |s.comp.posted| == s.released <==> s.sqHead == s.comp.q.tail
    ensures s.drain.NotDraining? ==> s.sqHead == s.comp.q.tail
    ensures s.released <= |s.comp.posted| && s.forwarded <= |s.submitted|
    ensures s.sqHead == s.comp.q.tail ==> Cids(Crash(s).posted) == CommandIds(s.submitted[..s.forwarded])
  {
    InitInv(cap, size);
    RunKeepsInv(Init(cap, size), steps, s);
    CrashCounts(s);
    HeadMeetsTail(s);
    if |s.comp.posted| == s.released {
      CrashCids(s);
    }
  }

  /** After an even number of laps the phase in shared memory is the engine's. */
  lemma {:induction false} CrashOnEvenLap(s: State)
    requires Inv(s) && InRange(s) && Even(Lap(|s.comp.posted|, s.cap))
    ensures Crash(s).q == PutAll(Fresh(s.cap), Crash(s).posted)
    ensures s.released < s.forwarded ==> HostSees(Crash(s).q.ring, |s.comp.posted|)
  {
    var es, done := AbortAll(Abandoned(s), 0), |s.comp.posted|;
    CrashCounts(s);
    PutAllTail(Fresh(s.cap), s.comp.posted);
    assert s.comp.q.(phase := s.shmPhase) == s.comp.q;
    PutAllConcat(Fresh(s.cap), s.comp.posted, es);
    PhaseScan(s.cap, s.comp.posted + es, done);
  }

  /** After an odd number it is not. */
  lemma {:induction false} CrashOnOddLap(s: State)
    requires Inv(s) && InRange(s) && !Even(Lap(|s.comp.posted|, s.cap)) && s.released < s.forwarded
    ensures !HostSees(Crash(s).q.ring, |s.comp.posted|)
    ensures !HostInStep(s.cap, Crash(s))
  {
    var q, es, done := s.comp.q, AbortAll(Abandoned(s), 0), |s.comp.posted|;
    CrashCounts(s);
    PutAllTail(Fresh(s.cap), s.comp.posted);
    SmallCount(q.tail, s.cap);
    PutAllStored(q.(phase := s.shmPhase), es, 0);
    if HostInStep(s.cap, Crash(s)) {
      PhaseScan(s.cap, s.comp.posted + es, done);
    }
  }

  /** Whether the host finds them is another matter. The engine never writes AdminCQ.Phase, so the abort
      stamps as if the ring had not wrapped: wherever the engine crashed, with commands pending, the host
      sees the abort's first completion if and only if the engine had gone round the queue an even
      number of times. It stays in step with the queue if, besides, all of them fit. */
  lemma {:induction false} CrashVisibility(cap: nat, size: nat, steps: seq<Step>, s: State)
    requires 2 <= cap <= 0x1_0000 && size >= 2 && Runs(Init(cap, size), steps, s) && InRange(s)
    requires s.kernel.Resting? && s.released < s.forwarded
    ensures |Crash(s).q.ring| == cap
    ensures HostSees(Crash(s).q.ring, |s.comp.posted|) <==> Even(|s.comp.posted| / cap)
    ensures HostInStep(cap, Crash(s)) <==>
              Even(|s.comp.posted| / cap) && |s.comp.posted| + s.forwarded - s.released <= |s.comp.taken| + cap
    ensures s.drain.NotDraining? ==> |s.comp.posted| == s.released
    ensures s.drain.NotDraining? ==> |s.comp.posted| + s.forwarded - s.released <= |s.comp.taken| + cap
  {
    InitInv(cap, size);
    RunKeepsInv(Init(cap, size), steps, s);
    SlotIsMod(|s.comp.posted|, cap);
    CrashCounts(s);
    if Even(|s.comp.posted| / cap) {
      CrashOnEvenLap(s);
    } else {
      CrashOnOddLap(s);
    }
  }

  lemma {:induction false} HostTakesCids(cap: nat, r: Run, n: nat)
    requires HostInStep(cap, r) && n == |r.posted| - |r.taken|
    ensures Cids(After(r, Looks(n)).taken) == Cids(r.posted)
  {
    HostTakesAll(cap, r, n);
  }

  lemma {:induction false} HostTakesTheRest(s: State)
    requires Inv(s) && InRange(s) && |s.comp.posted| == s.released && HostInStep(s.cap, Crash(s))
    ensures |s.comp.taken| <= s.forwarded <= |s.submitted|
    ensures Cids(After(Crash(s), Looks(s.forwarded - |s.comp.taken|)).taken) == CommandIds(s.submitted[..s.forwarded])
  {
    CrashCounts(s);
    CrashCids(s);
    HostTakesCids(s.cap, Crash(s), s.forwarded - |s.comp.taken|);
  }

  lemma {:induction false} HostMissesTheRest(s: State)
    requires InRange(s) && |s.comp.taken| <= s.released < s.forwarded <= |s.submitted|
    requires !HostSees(Crash(s).q.ring, s.released)
    ensures Cids(After(Crash(s), Looks(s.forwarded - |s.comp.taken|)).taken) != CommandIds(s.submitted[..s.forwarded])
  {
    var n := s.forwarded - |s.comp.taken|;
    HostStuck(Crash(s), s.released, n);
    assert |Cids(After(Crash(s), Looks(n)).taken)| <= s.released;
    assert |CommandIds(s.submitted[..s.forwarded])| == s.forwarded;
  }

  /** Taken together: after a crash between drains the host ends up with one completion for every forwarded
      command, in submission order, some from the engine and the rest from the abort, found by the phase
      tag alone, if and only if the engine had made an even number of laps or nothing was pending. */
  lemma {:induction false} HostSurvivesCrash(cap: nat, size: nat, steps: seq<Step>, s: State)
    requires 2 <= cap <= 0x1_0000 && size >= 2 && Runs(Init(cap, size), steps, s) && InRange(s)
    requires s.kernel.Resting? && s.drain.NotDraining?
    ensures |s.comp.taken| <= s.forwarded <= |s.submitted|
    ensures Cids(After(Crash(s), Looks(s.forwarded - |s.comp.taken|)).taken) == CommandIds(s.submitted[..s.forwarded])
            <==> Even(s.released / cap) || s.released == s.forwarded
  {
    InitInv(cap, size);
    RunKeepsInv(Init(cap, size), steps, s);
    CrashCounts(s);
    SlotIsMod(s.released, cap);
    if s.released == s.forwarded {
      NothingAbandoned(s);
      HostTakesTheRest(s);
    } else if Even(s.released / cap) {
      CrashOnEvenLap(s);
      HostTakesTheRest(s);
    } else {
      CrashOnOddLap(s);
      HostMissesTheRest(s);
    }
  }

  lemma {:induction false} NothingAbandoned(s: State)
    requires Inv(s) && InRange(s) && s.released == s.forwarded
    ensures Crash(s) == s.comp
  {
    CrashCounts(s);
    assert AbortAll(Abandoned(s), 0) == [];
  }
}

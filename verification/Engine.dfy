/** The server's command engine: one poll of the notification ring, with the drain of the admin queue. */
module Engine {
  import opened NvmeTypes
  import opened RingArith
  import opened CompletionRing
  import opened Queues
  import N = NotifyRing
  import opened AdminProtocol

  /** What the admin command handlers make of the n-th command: result and status word. */
  type Handlers = (nat, Command) -> (u32, u16)

  predicate KnownOpcode(opc: u8)
  {
    opc in {0x00, 0x01, 0x02, 0x04, 0x05, 0x06, 0x08, 0x09, 0x0A, 0x18}
  }

  /** The outcome the engine posts: the handler's status word taken apart, or Invalid Opcode. */
  function OutcomeOf(h: Handlers, n: nat, cmd: Command): Outcome
  {
    if KnownOpcode(cmd.opc)
    then Outcome(h(n, cmd).0, StatusCodeType(h(n, cmd).1), StatusCode(h(n, cmd).1))
    else Outcome(0, 0, 1)
  }

  /** The completions of a drain that starts with n commands already processed. */
  function DrainEntries(h: Handlers, n: nat, q: Sq, count: nat): (es: seq<Completion>)
    requires q.Valid()
    ensures |es| == count
  {
    seq(count, (k: nat) => EngineEntry(q.head, PendingAt(q, k).cid, OutcomeOf(h, n + k, PendingAt(q, k))))
  }

  /** What a poll works on: the admin queue's head, the completion queue with the engine's phase, and
      the number of commands processed. */
  datatype Progress = Progress(head: nat, cq: Cq, processed: nat)

  /** One admin notification: every command up to its index is completed and released. */
  function Served(h: Handlers, slots: seq<Command>, p: Progress, index: nat): (r: Progress)
    requires p.head < |slots| && index < |slots| && p.cq.Valid()
    ensures r.head == index && r.cq.Valid() && |r.cq.ring| == |p.cq.ring|
  {
    var q := Sq(slots, p.head, index);
    Progress(index, PutAll(p.cq, DrainEntries(h, p.processed, q, q.Pending())), p.processed + q.Pending())
  }

  ghost predicate InBounds(notes: seq<N.Entry>, c: nat)
  {
    forall i :: 0 <= i < |notes| && IsAdmin(notes[i]) ==> notes[i].index < c
  }

  /** The notifications in order; those of other queues find no queue and do nothing. */
  function PollAll(h: Handlers, slots: seq<Command>, p: Progress, notes: seq<N.Entry>): (r: Progress)
    requires p.head < |slots| && p.cq.Valid() && InBounds(notes, |slots|)
    ensures r.head < |slots| && r.cq.Valid() && |r.cq.ring| == |p.cq.ring|
  {
    if notes == [] then p
    else
      var last := notes[|notes| - 1];
      var before := PollAll(h, slots, p, notes[..|notes| - 1]);
      if IsAdmin(last) then Served(h, slots, before, last.index) else before
  }

  lemma {:induction false} PollAllSnoc(h: Handlers, slots: seq<Command>, p: Progress, notes: seq<N.Entry>, i: nat)
    requires p.head < |slots| && p.cq.Valid() && InBounds(notes, |slots|) && i < |notes|
    ensures InBounds(notes[..i], |slots|) && InBounds(notes[..i + 1], |slots|)
    ensures PollAll(h, slots, p, notes[..i + 1]) ==
            var before := PollAll(h, slots, p, notes[..i]);
            if IsAdmin(notes[i]) then Served(h, slots, before, notes[i].index) else before
  {
    assert notes[..i + 1][..i] == notes[..i];
  }

  /** The entries between the ring's two indices. */
  function Outstanding(entries: seq<N.Entry>, head: nat, tail: nat): (notes: seq<N.Entry>)
    requires head < |entries| && tail < |entries|
    ensures |notes| == Dist(head, tail, |entries|)
  {
    seq(Dist(head, tail, |entries|), (k: nat) => entries[SlotAfter(head, k, |entries|)])
  }

  /** A ring's entry that is not at the tail is the next one outstanding. */
  lemma {:induction false} NextNote(entries: seq<N.Entry>, from: nat, tail: nat, i: nat, head: nat)
    requires from < |entries| && tail < |entries| && i <= Dist(from, tail, |entries|)
    requires head == SlotAfter(from, i, |entries|) && head != tail
    ensures i < Dist(from, tail, |entries|) && entries[head] == Outstanding(entries, from, tail)[i]
    ensures SlotAfter(from, i + 1, |entries|) == (head + 1) % |entries|
  {
    DistReaches(from, tail, |entries|);
    NextIsMod(head, |entries|);
  }

  lemma {:induction false} AllNotes(entries: seq<N.Entry>, from: nat, tail: nat, i: nat)
    requires from < |entries| && tail < |entries| && i <= Dist(from, tail, |entries|)
    requires tail == SlotAfter(from, i, |entries|)
    ensures i == Dist(from, tail, |entries|)
  {
    DistReaches(from, tail, |entries|);
    if i < Dist(from, tail, |entries|) {
      SlotsDiffer(from + i, from + Dist(from, tail, |entries|), |entries|);
    }
  }

  lemma {:induction false} EntriesOneMore(h: Handlers, n: nat, q: Sq, k: nat)
    requires q.Valid()
    ensures DrainEntries(h, n, q, k + 1) ==
            DrainEntries(h, n, q, k) + [EngineEntry(q.head, PendingAt(q, k).cid, OutcomeOf(h, n + k, PendingAt(q, k)))]
  {
  }

  /** One turn of the drain loop. */
  lemma {:induction false} DrainOneMore(h: Handlers, n: nat, q: Sq, before: Cq, k: nat, head: nat)
    requires q.Valid() && before.Valid() && k <= q.Pending() && head == Dropped(q, k).head && head != q.tail
    ensures k < q.Pending() && Dropped(q, k + 1).head == Next(head, |q.slots|)
    ensures PendingAt(q, k) == q.slots[head]
    ensures PutAll(before, DrainEntries(h, n, q, k + 1)) ==
            Put(PutAll(before, DrainEntries(h, n, q, k)),
                EngineEntry(q.head, q.slots[head].cid, OutcomeOf(h, n + k, q.slots[head])))
  {
    NotYetAll(q, k);
    DroppedOneMore(q, k);
    EntriesOneMore(h, n, q, k);
    assert DrainEntries(h, n, q, k + 1)[..k] == DrainEntries(h, n, q, k);
  }

  // ---------- what the completions hold ----------

  /** The entry answers the n-th command: its CID; for an opcode that has a handler the handler's DW0 and the
      type and code in its status word, eleven bits above the phase; for any other Invalid Opcode. */
  predicate Answers(h: Handlers, n: nat, cmd: Command, e: Completion)
  {
    && e.cid == cmd.cid && e.dw1 == 0 && e.sqid == 0
    && if cmd.opc in {0x00, 0x01, 0x02, 0x04, 0x05, 0x06, 0x08, 0x09, 0x0A, 0x18}
       then e.dw0 == h(n, cmd).0 && e.status / 2 == (h(n, cmd).1 / 2) % 0x800
       else e.dw0 == 0 && e.status / 2 == 1
  }

  lemma {:induction false} StatusTakenApart(status: u16)
    ensures MakeStatus(StatusCodeType(status), StatusCode(status), false) / 2 == (status / 2) % 0x800
  {
    var w := status / 2;
    assert status / 512 == w / 256;
    assert w % 0x800 == 256 * ((w / 256) % 8) + w % 256;
  }

  lemma {:induction false} EntryAnswers(h: Handlers, n: nat, cmd: Command, sqHead: nat)
    ensures Answers(h, n, cmd, EngineEntry(sqHead, cmd.cid, OutcomeOf(h, n, cmd)))
  {
    if KnownOpcode(cmd.opc) {
      StatusTakenApart(h(n, cmd).1);
    }
  }

  lemma {:induction false} StampAnswers(h: Handlers, n: nat, cmd: Command, e: Completion, phase: bool)
    requires Answers(h, n, cmd, e)
    ensures Answers(h, n, cmd, Stamp(e, phase))
  {
  }

  lemma {:induction false} PutAnswers(h: Handlers, n: nat, cmd: Command, sqHead: nat, cq: Cq)
    requires cq.Valid()
    ensures Answers(h, n, cmd, Put(cq, EngineEntry(sqHead, cmd.cid, OutcomeOf(h, n, cmd))).ring[cq.tail])
  {
    EntryAnswers(h, n, cmd, sqHead);
    StampAnswers(h, n, cmd, EngineEntry(sqHead, cmd.cid, OutcomeOf(h, n, cmd)), cq.phase);
  }

  /** After a drain the k-th command's completion stands in the k-th slot from the old tail, unless more than a
      lap was posted from it on: it answers that command, with the head the queue had published and the
      phase due there. */
  lemma {:induction false} DrainAnswers(h: Handlers, n: nat, q: Sq, cq: Cq, k: nat)
    requires q.Valid() && cq.Valid() && k < q.Pending() <= k + |cq.ring|
    ensures var e := PutAll(cq, DrainEntries(h, n, q, q.Pending())).ring[SlotAfter(cq.tail, k, |cq.ring|)];
            && Answers(h, n + k, q.slots[SlotAfter(q.head, k, |q.slots|)], e) && e.sqhd == q.head % 0x1_0000
            && (e.status % 2 == 1 <==> PhaseAfter(cq.phase, cq.tail, k, |cq.ring|))
  {
    var cmd, phase := PendingAt(q, k), PhaseAfter(cq.phase, cq.tail, k, |cq.ring|);
    PutAllStored(cq, DrainEntries(h, n, q, q.Pending()), k);
    EntryAnswers(h, n + k, cmd, q.head);
    StampAnswers(h, n + k, cmd, EngineEntry(q.head, cmd.cid, OutcomeOf(h, n + k, cmd)), phase);
  }

  /** Of the count commands from a head on, each has its answer in the ring, the k-th of them in the k-th slot from
      the tail, unless more than a lap was posted from it on. */
  ghost predicate Answered(h: Handlers, slots: seq<Command>, p: Progress, count: nat, ring: seq<Completion>)
  {
    && p.head < |slots| && |ring| == |p.cq.ring| > 0
    && forall k: nat :: k < count <= k + |ring| ==>
         Answers(h, p.processed + k, slots[SlotAfter(p.head, k, |slots|)], ring[SlotAfter(p.cq.tail, k, |ring|)])
  }

  lemma {:induction false} DrainAnswersAll(h: Handlers, n: nat, q: Sq, cq: Cq)
    requires q.Valid() && cq.Valid()
    ensures Answered(h, q.slots, Progress(q.head, cq, n), q.Pending(),
                     PutAll(cq, DrainEntries(h, n, q, q.Pending())).ring)
  {
    forall k: nat | k < q.Pending() <= k + |cq.ring|
      ensures Answers(h, n + k, q.slots[SlotAfter(q.head, k, |q.slots|)],
                      PutAll(cq, DrainEntries(h, n, q, q.Pending())).ring[SlotAfter(cq.tail, k, |cq.ring|)])
    {
      DrainAnswers(h, n, q, cq, k);
    }
  }

  /** All completions of a poll. */
  function PollEntries(h: Handlers, slots: seq<Command>, p: Progress, notes: seq<N.Entry>): (es: seq<Completion>)
    requires p.head < |slots| && p.cq.Valid() && InBounds(notes, |slots|)
  {
    if notes == [] then []
    else
      var last := notes[|notes| - 1];
      var before := PollAll(h, slots, p, notes[..|notes| - 1]);
      var es := PollEntries(h, slots, p, notes[..|notes| - 1]);
      if IsAdmin(last)
      then var q := Sq(slots, before.head, last.index); es + DrainEntries(h, before.processed, q, q.Pending())
      else es
  }

  /** A poll posts them one after the other, and its head moves on by one command each. */
  lemma {:induction false} PollPosts(h: Handlers, slots: seq<Command>, p: Progress, notes: seq<N.Entry>)
    requires p.head < |slots| && p.cq.Valid() && InBounds(notes, |slots|)
    ensures var r, es := PollAll(h, slots, p, notes), PollEntries(h, slots, p, notes);
            && r.cq == PutAll(p.cq, es) && r.processed == p.processed + |es|
            && r.head == SlotAfter(p.head, |es|, |slots|)
    decreases |notes|
  {
    if notes == [] {
      SmallCount(p.head, |slots|);
    } else {
      var last, init := notes[|notes| - 1], notes[..|notes| - 1];
      PollPosts(h, slots, p, init);
      if IsAdmin(last) {
        var before, es := PollAll(h, slots, p, init), PollEntries(h, slots, p, init);
        HeadMovesOn(slots, p.head, |es|, before.head, last.index);
        ServedPosts(h, slots, p.cq, before, es, last.index);
      }
    }
  }

  lemma {:induction false} HeadMovesOn(slots: seq<Command>, from: nat, n: nat, head: nat, index: nat)
    requires from < |slots| && head == SlotAfter(from, n, |slots|) && index < |slots|
    ensures index == SlotAfter(from, n + Sq(slots, head, index).Pending(), |slots|)
  {
    var q := Sq(slots, head, index);
    DroppedAll(q);
    SlotSum(from + n, q.Pending(), |slots|);
  }

  lemma {:induction false} ServedPosts(h: Handlers, slots: seq<Command>, cq: Cq, before: Progress,
                                       es: seq<Completion>, index: nat)
    requires cq.Valid() && index < |slots| && before.head < |slots| && before.cq == PutAll(cq, es)
    ensures var q := Sq(slots, before.head, index);
            var more := DrainEntries(h, before.processed, q, q.Pending());
            && Served(h, slots, before, index).cq == PutAll(cq, es + more)
            && Served(h, slots, before, index).processed == before.processed + |more| && |more| == q.Pending()
  {
    var q := Sq(slots, before.head, index);
    PutAllConcat(cq, es, DrainEntries(h, before.processed, q, q.Pending()));
  }

  /** The k-th of them answers the k-th command from the old head on. */
  lemma {:induction false} PollEntryAnswers(h: Handlers, slots: seq<Command>, p: Progress, notes: seq<N.Entry>, k: nat)
    requires p.head < |slots| && p.cq.Valid() && InBounds(notes, |slots|) && k < |PollEntries(h, slots, p, notes)|
    ensures Answers(h, p.processed + k, slots[SlotAfter(p.head, k, |slots|)], PollEntries(h, slots, p, notes)[k])
    decreases |notes|
  {
    var last, init := notes[|notes| - 1], notes[..|notes| - 1];
    var es := PollEntries(h, slots, p, init);
    if k < |es| {
      PollEntryAnswers(h, slots, p, init, k);
    } else {
      PollPosts(h, slots, p, init);
      var before := PollAll(h, slots, p, init);
      var q, j := Sq(slots, before.head, last.index), k - |es|;
      SlotSum(p.head + |es|, j, |slots|);
      EntryAnswers(h, before.processed + j, PendingAt(q, j), q.head);
    }
  }

  /** After a poll the completion of the k-th command from the old head stands in the k-th slot from the old
      tail, unless more than a lap was posted from it on, and answers that command. */
  lemma {:induction false} PollAnswers(h: Handlers, slots: seq<Command>, p: Progress, notes: seq<N.Entry>, k: nat)
    requires p.head < |slots| && p.cq.Valid() && InBounds(notes, |slots|)
    requires var r, c := PollAll(h, slots, p, notes), |p.cq.ring|;
             p.processed + k < r.processed <= p.processed + k + c
    ensures var e := PollAll(h, slots, p, notes).cq.ring[SlotAfter(p.cq.tail, k, |p.cq.ring|)];
            && Answers(h, p.processed + k, slots[SlotAfter(p.head, k, |slots|)], e)
            && (e.status % 2 == 1 <==> PhaseAfter(p.cq.phase, p.cq.tail, k, |p.cq.ring|))
  {
    PollPosts(h, slots, p, notes);
    var es, phase := PollEntries(h, slots, p, notes), PhaseAfter(p.cq.phase, p.cq.tail, k, |p.cq.ring|);
    PutAllStored(p.cq, es, k);
    PollEntryAnswers(h, slots, p, notes, k);
    StampAnswers(h, p.processed + k, slots[SlotAfter(p.head, k, |slots|)], es[k], phase);
  }

  lemma {:induction false} PollAnswersAll(h: Handlers, slots: seq<Command>, p: Progress, notes: seq<N.Entry>)
    requires p.head < |slots| && p.cq.Valid() && InBounds(notes, |slots|)
    ensures var r := PollAll(h, slots, p, notes);
            r.processed >= p.processed && Answered(h, slots, p, r.processed - p.processed, r.cq.ring)
  {
    PollPosts(h, slots, p, notes);
    var r := PollAll(h, slots, p, notes);
    forall k: nat | k < r.processed - p.processed <= k + |p.cq.ring|
      ensures Answers(h, p.processed + k, slots[SlotAfter(p.head, k, |slots|)],
                      r.cq.ring[SlotAfter(p.cq.tail, k, |p.cq.ring|)])
    {
      PollAnswers(h, slots, p, notes, k);
    }
  }

  // ---------- the drain as a run of the protocol ----------

  /** The state after k turns of a drain that began in s. */
  function DrainedBy(h: Handlers, s: State, k: nat): State
    requires InRange(s) && s.drain.Draining? && s.drain.until < s.cap && k <= Dist(s.sqHead, s.drain.until, s.cap)
  {
    var q := Sq(s.sq, s.sqHead, s.drain.until);
    var es := DrainEntries(h, |s.comp.posted|, q, k);
    s.(comp := Run(PutAll(s.comp.q, es), s.comp.posted + es, s.comp.taken),
       drain := Draining(Dropped(q, k).head, s.drain.until))
  }

  function DrainSteps(h: Handlers, s: State, k: nat): seq<Step>
    requires InRange(s) && s.drain.Draining? && s.drain.until < s.cap && k <= Dist(s.sqHead, s.drain.until, s.cap)
  {
    var q := Sq(s.sq, s.sqHead, s.drain.until);
    seq(q.Pending() - k, (j: nat) => DrainOne(OutcomeOf(h, |s.comp.posted| + k + j, PendingAt(q, k + j))))
  }

  lemma {:induction false} PostsOneMore(r: Run, es: seq<Completion>, e: Completion)
    requires r.q.Valid()
    ensures Happens(Run(PutAll(r.q, es), r.posted + es, r.taken), Posted(e)) ==
            Run(PutAll(r.q, es + [e]), r.posted + (es + [e]), r.taken)
  {
    assert (es + [e])[..|es|] == es;
    assert r.posted + (es + [e]) == (r.posted + es) + [e];
  }

  lemma {:induction false} CompletionTurn(h: Handlers, n: nat, q: Sq, r: Run, k: nat)
    requires q.Valid() && r.q.Valid() && k < q.Pending()
    ensures var es, es' := DrainEntries(h, n, q, k), DrainEntries(h, n, q, k + 1);
            var e := EngineEntry(q.head, PendingAt(q, k).cid, OutcomeOf(h, n + k, PendingAt(q, k)));
            Happens(Run(PutAll(r.q, es), r.posted + es, r.taken), Posted(e)) ==
            Run(PutAll(r.q, es'), r.posted + es', r.taken)
    ensures var head := Dropped(q, k).head;
            head != q.tail && q.slots[head] == PendingAt(q, k) && Next(head, |q.slots|) == Dropped(q, k + 1).head
  {
    DroppedOneMore(q, k);
    EntriesOneMore(h, n, q, k);
    PostsOneMore(r, DrainEntries(h, n, q, k),
                 EngineEntry(q.head, PendingAt(q, k).cid, OutcomeOf(h, n + k, PendingAt(q, k))));
  }

  lemma {:induction false} DrainTurn(h: Handlers, s: State, k: nat)
    requires InRange(s) && s.drain.Draining? && s.drain.until < s.cap && k < Dist(s.sqHead, s.drain.until, s.cap)
    ensures var q, d := Sq(s.sq, s.sqHead, s.drain.until), DrainedBy(h, s, k);
            var o := OutcomeOf(h, |s.comp.posted| + k, PendingAt(q, k));
            InRange(d) && Enabled(d, DrainOne(o)) && Apply(d, DrainOne(o)) == DrainedBy(h, s, k + 1)
  {
    CompletionTurn(h, |s.comp.posted|, Sq(s.sq, s.sqHead, s.drain.until), s.comp, k);
  }

  lemma {:induction false} StepsShift(h: Handlers, s: State, k: nat)
    requires InRange(s) && s.drain.Draining? && s.drain.until < s.cap && k < Dist(s.sqHead, s.drain.until, s.cap)
    ensures var q, steps := Sq(s.sq, s.sqHead, s.drain.until), DrainSteps(h, s, k);
            steps != [] && steps[0] == DrainOne(OutcomeOf(h, |s.comp.posted| + k, PendingAt(q, k)))
            && steps[1..] == DrainSteps(h, s, k + 1)
  {
    var a, b := DrainSteps(h, s, k)[1..], DrainSteps(h, s, k + 1);
    forall j: nat | j < |a|
      ensures a[j] == b[j]
    {
      assert k + (j + 1) == (k + 1) + j;
      assert |s.comp.posted| + k + (j + 1) == |s.comp.posted| + (k + 1) + j;
    }
  }

  lemma {:induction false} TurnRuns(h: Handlers, s: State, k: nat, t: State)
    requires InRange(s) && s.drain.Draining? && s.drain.until < s.cap && k < Dist(s.sqHead, s.drain.until, s.cap)
    requires Runs(DrainedBy(h, s, k + 1), DrainSteps(h, s, k + 1), t)
    ensures Runs(DrainedBy(h, s, k), DrainSteps(h, s, k), t)
  {
    DrainTurn(h, s, k);
    StepsShift(h, s, k);
    RunsCons(DrainedBy(h, s, k), DrainSteps(h, s, k), t);
  }

  lemma {:induction false} DrainEnds(h: Handlers, s: State)
    requires InRange(s) && s.drain.Draining? && s.drain.until < s.cap
    ensures DrainedBy(h, s, Dist(s.sqHead, s.drain.until, s.cap)).drain.at == s.drain.until
  {
    var q := Sq(s.sq, s.sqHead, s.drain.until);
    NotYetAll(q, q.Pending());
  }

  lemma {:induction false} NoTurnsLeft(h: Handlers, s: State)
    requires InRange(s) && s.drain.Draining? && s.drain.until < s.cap
    ensures var n := Dist(s.sqHead, s.drain.until, s.cap);
            Runs(DrainedBy(h, s, n), DrainSteps(h, s, n), DrainedBy(h, s, n))
  {
    assert DrainSteps(h, s, Dist(s.sqHead, s.drain.until, s.cap)) == [];
  }

  lemma {:induction false} RestRuns(h: Handlers, s: State, k: nat, t: State)
    requires InRange(s) && s.drain.Draining? && s.drain.until < s.cap && k <= Dist(s.sqHead, s.drain.until, s.cap)
    requires t == DrainedBy(h, s, Dist(s.sqHead, s.drain.until, s.cap))
    ensures Runs(DrainedBy(h, s, k), DrainSteps(h, s, k), t)
    decreases Dist(s.sqHead, s.drain.until, s.cap) - k
  {
    if k == Dist(s.sqHead, s.drain.until, s.cap) {
      NoTurnsLeft(h, s);
    } else {
      RestRuns(h, s, k + 1, t);
      TurnRuns(h, s, k, t);
    }
  }

  /** The method's drain is a run of the protocol's single steps: from its k-th turn on, completing the
      remaining commands one by one leads to the state the method's specification describes. */
  lemma {:induction false} DrainIsRun(h: Handlers, s: State, k: nat)
    requires InRange(s) && s.drain.Draining? && s.drain.until < s.cap && k <= Dist(s.sqHead, s.drain.until, s.cap)
    ensures var n := Dist(s.sqHead, s.drain.until, s.cap);
            && Runs(DrainedBy(h, s, k), DrainSteps(h, s, k), DrainedBy(h, s, n))
            && DrainedBy(h, s, n).drain.at == s.drain.until
  {
    DrainEnds(h, s);
    RestRuns(h, s, k, DrainedBy(h, s, Dist(s.sqHead, s.drain.until, s.cap)));
  }

  lemma {:induction false} InvalidOpcodeStatus(phase: bool)
    ensures StatusCodeType(MakeStatus(0, 1, phase)) == 0 && StatusCode(MakeStatus(0, 1, phase)) == 1
  {
    assert MakeStatus(0, 1, false) == 2 && MakeStatus(0, 1, true) == 3;
  }

  class CommandEngine {
    const ctl: Controller
    const ring: N.Ring
    const handlers: Handlers
    var adminCqPhase: bool
    var adminCommandsProcessed: nat
    var errors: nat
    var pollCount: nat

    constructor (ctl: Controller, ring: N.Ring, handlers: Handlers)
      ensures this.ctl == ctl && this.ring == ring && this.handlers == handlers
      ensures adminCqPhase && adminCommandsProcessed == 0
    {
      this.ctl, this.ring, this.handlers := ctl, ring, handlers;
      adminCqPhase, adminCommandsProcessed, errors, pollCount := true, 0, 0, 0;
    }

    ghost predicate Valid()
      reads this, ctl.sqs, ctl.cqs, ring
    {
      && ctl.sqs.Length > 0 && ctl.cqs.Length > 0 && ctl.sqs as object != ctl.cqs
      && ring.Valid() && ring.entries as object != ctl.sqs && ring.entries as object != ctl.cqs
      && ctl.sqs[0].Usable() && ctl.cqs[0].Usable()
    }

    /** The admin completion queue with the engine's own phase. */
    function View(): Cq
      requires ctl.cqs.Length > 0
      reads this, ctl.cqs
    {
      Cq(ctl.cqs[0].ring, ctl.cqs[0].tail, adminCqPhase)
    }

    function Now(): Progress
      requires ctl.sqs.Length > 0 && ctl.cqs.Length > 0
      reads this, ctl.sqs, ctl.cqs
    {
      Progress(ctl.sqs[0].head, View(), adminCommandsProcessed)
    }

    /** AdminCQ.Phase is not written; nothing checks for a full queue. */
    method PostAdminCompletion(cid: u16, o: Outcome)
      requires Valid()
      modifies this`adminCqPhase, this`adminCommandsProcessed, ctl.cqs
      ensures Valid()
      ensures View() == Put(old(View()), EngineEntry(ctl.sqs[0].head, cid, o))
      ensures var e := ctl.cqs[0].ring[old(ctl.cqs[0].tail)];
              && e.cid == cid && Reports(e, o) && e.sqhd == ctl.sqs[0].head % 0x1_0000
              && (e.status % 2 == 1 <==> old(adminCqPhase))
      ensures adminCommandsProcessed == old(adminCommandsProcessed) + 1
      ensures ctl.cqs[0].phase == old(ctl.cqs[0].phase)
      ensures forall j :: 1 <= j < ctl.cqs.Length ==> ctl.cqs[j] == old(ctl.cqs[j])
    {
      EntryReports(ctl.sqs[0].head, cid, o, adminCqPhase);
      var tail, phase := ctl.Store(0, ctl.cqs[0].tail, adminCqPhase, EngineEntry(ctl.sqs[0].head, cid, o));
      adminCqPhase := phase;
      ctl.cqs[0] := ctl.cqs[0].(tail := tail);
      adminCommandsProcessed := adminCommandsProcessed + 1;
    }

    /** The opcode switch; the status word is taken apart again for the post. */
    method Dispatch(cmd: Command) returns (o: Outcome)
      modifies this`errors
      ensures o == OutcomeOf(handlers, adminCommandsProcessed, cmd)
      ensures errors == old(errors) + (if KnownOpcode(cmd.opc) then 0 else 1)
    {
      var result: u32, status: u16;
      if KnownOpcode(cmd.opc) {
        var answer := handlers(adminCommandsProcessed, cmd);
        result, status := answer.0, answer.1;
      } else {
        result, status := 0, MakeStatus(0, 1, adminCqPhase);
        errors := errors + 1;
        InvalidOpcodeStatus(adminCqPhase);
      }
      o := Outcome(result, StatusCodeType(status), StatusCode(status));
    }

    method ProcessAdminCommand(cmd: Command)
      requires Valid()
      modifies this`adminCqPhase, this`adminCommandsProcessed, this`errors, ctl.cqs
      ensures Valid()
      ensures View() == Put(old(View()), EngineEntry(ctl.sqs[0].head, cmd.cid,
                                                     OutcomeOf(handlers, old(adminCommandsProcessed), cmd)))
      ensures Answers(handlers, old(adminCommandsProcessed), cmd, ctl.cqs[0].ring[old(ctl.cqs[0].tail)])
      ensures adminCommandsProcessed == old(adminCommandsProcessed) + 1
      ensures ctl.cqs[0].phase == old(ctl.cqs[0].phase)
    {
      ghost var n, cq := adminCommandsProcessed, View();
      var o := Dispatch(cmd);
      PostAdminCompletion(cmd.cid, o);
      PutAnswers(handlers, n, cmd, ctl.sqs[0].head, cq);
    }

    /** One turn of the inner loop: the command at sqHead is completed. */
    method CompleteNext(sqHead: nat, ghost q: Sq, ghost cq: Cq, ghost n: nat, ghost count: nat) returns (next: nat)
      requires Valid() && q.Valid() && cq.Valid() && q.slots == ctl.sqs[0].slots && q.head == ctl.sqs[0].head
      requires count <= q.Pending() && sqHead == Dropped(q, count).head && sqHead != q.tail
      requires View() == PutAll(cq, DrainEntries(handlers, n, q, count)) && adminCommandsProcessed == n + count
      modifies this`adminCqPhase, this`adminCommandsProcessed, this`errors, ctl.cqs
      ensures Valid() && count < q.Pending() && next == Dropped(q, count + 1).head
      ensures View() == PutAll(cq, DrainEntries(handlers, n, q, count + 1))
      ensures adminCommandsProcessed == n + count + 1 && ctl.cqs[0].phase == old(ctl.cqs[0].phase)
    {
      DrainOneMore(handlers, n, q, cq, count, sqHead);
      NextIsMod(sqHead, |q.slots|);
      ProcessAdminCommand(ctl.sqs[0].slots[sqHead]);
      next := (sqHead + 1) % |ctl.sqs[0].slots|;
    }

    /** The inner loop: commands from the published head to the index, then the head is published. */
    method DrainAdmin(index: nat) returns (count: nat)
      requires Valid() && index < |ctl.sqs[0].slots|
      modifies this`adminCqPhase, this`adminCommandsProcessed, this`errors, ctl.sqs, ctl.cqs
      ensures Valid() && ctl.sqs[0] == old(ctl.sqs[0]).(head := index)
      ensures Now() == Served(handlers, old(ctl.sqs[0].slots), old(Now()), index)
      ensures count == Dist(old(ctl.sqs[0].head), index, |ctl.sqs[0].slots|)
      ensures Answered(handlers, old(ctl.sqs[0].slots), old(Now()), count, ctl.cqs[0].ring)
      ensures ctl.cqs[0].phase == old(ctl.cqs[0].phase)
    {
      ghost var q, cq, n := Sq(ctl.sqs[0].slots, ctl.sqs[0].head, index), View(), adminCommandsProcessed;
      var sqHead, sqCap := ctl.sqs[0].head, |ctl.sqs[0].slots|;
      count := 0;
      SmallCount(sqHead, sqCap);
      while sqHead != index
        invariant Valid() && unchanged(ctl.sqs)
        invariant count <= q.Pending() && sqHead == Dropped(q, count).head
        invariant View() == PutAll(cq, DrainEntries(handlers, n, q, count))
        invariant adminCommandsProcessed == n + count && ctl.cqs[0].phase == old(ctl.cqs[0].phase)
        decreases q.Pending() - count
      {
        sqHead := CompleteNext(sqHead, q, cq, n, count);
        count := count + 1;
      }
      NotYetAll(q, count);
      DrainAnswersAll(handlers, n, q, cq);
      ctl.sqs[0] := ctl.sqs[0].(head := sqHead);
    }

    /** One notification: only those of the admin submission queue lead to work. */
    method Consume(entry: N.Entry) returns (count: nat)
      requires Valid() && (IsAdmin(entry) ==> entry.index < |ctl.sqs[0].slots|)
      modifies this`adminCqPhase, this`adminCommandsProcessed, this`errors, ctl.sqs, ctl.cqs
      ensures Valid() && ctl.sqs[0] == old(ctl.sqs[0]).(head := ctl.sqs[0].head)
      ensures Now() == if IsAdmin(entry) then Served(handlers, old(ctl.sqs[0].slots), old(Now()), entry.index)
                       else old(Now())
      ensures count == adminCommandsProcessed - old(adminCommandsProcessed)
      ensures ctl.cqs[0].phase == old(ctl.cqs[0].phase)
    {
      count := 0;
      if entry.kind == 0 && entry.queueId == 0 {
        count := DrainAdmin(entry.index);
      }
    }

    /** One turn of the outer loop. */
    method ServeNext(entry: N.Entry, ghost was: Progress, ghost slots: seq<Command>,
                     ghost notes: seq<N.Entry>, ghost i: nat)
      returns (count: nat)
      requires Valid() && slots == ctl.sqs[0].slots && was.head < |slots| && was.cq.Valid()
      requires i < |notes| && entry == notes[i] && InBounds(notes, |slots|) && InBounds(notes[..i], |slots|)
      requires Now() == PollAll(handlers, slots, was, notes[..i])
      modifies this`adminCqPhase, this`adminCommandsProcessed, this`errors, ctl.sqs, ctl.cqs
      ensures Valid() && ctl.sqs[0] == old(ctl.sqs[0]).(head := ctl.sqs[0].head)
      ensures InBounds(notes[..i + 1], |slots|) && Now() == PollAll(handlers, slots, was, notes[..i + 1])
      ensures count == adminCommandsProcessed - old(adminCommandsProcessed)
      ensures ctl.cqs[0].phase == old(ctl.cqs[0].phase)
    {
      PollAllSnoc(handlers, slots, was, notes, i);
      count := Consume(entry);
    }

    /** Everything outstanding at the snapshot of the tail is served, then the ring's head is published. The
        completions posted answer the commands from the old head on, in order. */
    method Poll() returns (processed: nat)
      requires Valid() && InBounds(Outstanding(ring.entries[..], ring.head, ring.tail), |ctl.sqs[0].slots|)
      modifies this, ring`head, ctl.sqs, ctl.cqs
      ensures Valid() && ring.head == ring.tail
      ensures Now() == PollAll(handlers, old(ctl.sqs[0].slots), old(Now()),
                               Outstanding(old(ring.entries[..]), old(ring.head), ring.tail))
      ensures processed == adminCommandsProcessed - old(adminCommandsProcessed)
      ensures Answered(handlers, old(ctl.sqs[0].slots), old(Now()), processed, ctl.cqs[0].ring)
      ensures ctl.sqs[0].slots == old(ctl.sqs[0].slots) && ctl.sqs[0].tail == old(ctl.sqs[0].tail)
      ensures ctl.cqs[0].phase == old(ctl.cqs[0].phase) && pollCount == old(pollCount) + 1
    {
      PollAnswersAll(handlers, ctl.sqs[0].slots, Now(), Outstanding(ring.entries[..], ring.head, ring.tail));
      var head;
      processed, head := ServeOutstanding();
      ring.head := head;
      pollCount := pollCount + 1;
    }

    /** The outer loop. */
    method ServeOutstanding() returns (processed: nat, head: nat)
      requires Valid() && InBounds(Outstanding(ring.entries[..], ring.head, ring.tail), |ctl.sqs[0].slots|)
      modifies this`adminCqPhase, this`adminCommandsProcessed, this`errors, ctl.sqs, ctl.cqs
      ensures Valid() && head == ring.tail
      ensures Now() == PollAll(handlers, old(ctl.sqs[0].slots), old(Now()),
                               Outstanding(ring.entries[..], ring.head, ring.tail))
      ensures processed == adminCommandsProcessed - old(adminCommandsProcessed)
      ensures ctl.sqs[0].slots == old(ctl.sqs[0].slots) && ctl.sqs[0].tail == old(ctl.sqs[0].tail)
      ensures ctl.cqs[0].phase == old(ctl.cqs[0].phase)
    {
      var tail, size := ring.tail, ring.entries.Length;
      head := ring.head;
      ghost var notes, was, slots := Outstanding(ring.entries[..], head, tail), Now(), ctl.sqs[0].slots;
      processed := 0;
      ghost var i := 0;
      SmallCount(head, size);
      while head != tail
        invariant Valid() && i <= |notes| && head == SlotAfter(ring.head, i, size)
        invariant InBounds(notes[..i], |slots|) && Now() == PollAll(handlers, slots, was, notes[..i])
        invariant processed == adminCommandsProcessed - old(adminCommandsProcessed)
        invariant ctl.sqs[0] == old(ctl.sqs[0]).(head := ctl.sqs[0].head)
        invariant ctl.cqs[0].phase == old(ctl.cqs[0].phase)
        decreases |notes| - i
      {
        NextNote(ring.entries[..], ring.head, tail, i, head);
        var count := ServeNext(ring.entries[head], was, slots, notes, i);
        processed := processed + count;
        head := (head + 1) % size;
        i := i + 1;
      }
      AllNotes(ring.entries[..], ring.head, tail, i);
      assert notes[..i] == notes;
    }
  }
}

/** Runs of the admin protocol that exist: from any quiet state the next command is submitted,
    forwarded, notified, drained, completed and taken. So the good outcomes can be reached, and so can
    the two crashes in which a completion is posted twice or is not seen by the host. */
module AdminProgress {
  import opened NvmeTypes
  import opened RingArith
  import opened CompletionRing
  import opened AdminProtocol
  import UserForward
  import N = NotifyRing

  lemma {:induction false} RunsAppend(s: State, a: seq<Step>, t: State, b: seq<Step>, u: State)
    requires Runs(s, a, t) && Runs(t, b, u)
    ensures Runs(s, a + b, u)
    decreases |a|
  {
    if a == [] {
      assert a + b == b;
    } else {
      RunsAppend(Apply(s, a[0]), a[1..], t, b, u);
      assert (a + b)[0] == a[0] && (a + b)[1..] == a[1..] + b;
    }
  }

  lemma {:induction false} RunsSingle(t: State, step: Step)
    requires InRange(t) && Enabled(t, step)
    ensures Runs(t, [step], Apply(t, step))
  {
    assert [step][1..] == [];
    assert Runs(Apply(t, step), [], Apply(t, step));
  }

  lemma {:induction false} RunsOneMore(s: State, a: seq<Step>, t: State, step: Step)
    requires Inv(s) && Runs(s, a, t) && InRange(t) && Enabled(t, step)
    ensures Runs(s, a + [step], Apply(t, step)) && Inv(Apply(t, step)) && InRange(Apply(t, step))
  {
    RunKeepsInv(s, a, t);
    StepKeepsInv(t, step);
    InvInRange(Apply(t, step));
    RunsSingle(t, step);
    RunsAppend(s, a, t, [step], Apply(t, step));
  }

  predicate RingEmpty(s: State)
  {
    s.notes.producer.Idle? && s.notes.consumer.Waiting? && |s.notes.accepted| == |s.notes.consumed|
  }

  /** n commands have gone all the way, and nothing is under way. */
  ghost predicate Quiet(s: State, n: nat)
  {
    && Inv(s) && RingEmpty(s) && s.kernel.Resting? && s.drain.NotDraining? && s.userReady
    && |s.submitted| == s.rung == s.forwarded == s.seen == s.released == n
    && |s.comp.posted| == |s.comp.taken| == n
  }

  /** Command n has been forwarded: its doorbell is in the shared tail, the notification is not pushed. */
  ghost predicate InForward(s: State, n: nat)
  {
    && Inv(s) && RingEmpty(s) && s.kernel == Forwarding(n + 1) && s.drain.NotDraining? && s.userReady
    && |s.submitted| == s.rung == s.forwarded == n + 1 && s.released == n
    && |s.comp.posted| == |s.comp.taken| == n
  }

  /** The notification is accepted, and the driver has left. */
  ghost predicate Notified(s: State, n: nat)
  {
    && Inv(s) && s.kernel.Resting? && s.drain.NotDraining? && s.userReady
    && s.notes.producer.Idle? && s.notes.consumer.Waiting?
    && s.notes.accepted == s.notes.consumed + [N.Entry(0, 0, Slot(n + 1, s.cap))]
    && |s.submitted| == s.rung == s.forwarded == s.seen == n + 1 && s.released == n
    && |s.comp.posted| == |s.comp.taken| == n
  }

  /** The engine has read the notification. */
  ghost predicate HasRead(s: State, n: nat)
  {
    && Inv(s) && s.kernel.Resting? && s.userReady
    && s.notes.producer.Idle? && s.notes.consumer.Draining? && s.notes.consumer.fields == 3
    && s.notes.consumer.got == N.Entry(0, 0, Slot(n + 1, s.cap))
    && s.notes.accepted == s.notes.consumed + [s.notes.consumer.got] && s.notes.snapshot == |s.notes.accepted|
    && |s.submitted| == s.rung == s.forwarded == s.seen == n + 1 && |s.comp.taken| == n
  }

  lemma {:induction false} Forwards(s: State, n: nat, cmd: Command) returns (steps: seq<Step>, t: State)
    requires Quiet(s, n)
    ensures Runs(s, steps, t) && InForward(t, n) && t.submitted == s.submitted + [cmd] && t.cap == s.cap
  {
    InvInRange(s);
    assert Runs(s, [], s);
    RunsOneMore(s, [], s, HostWrites(cmd));
    var a := Apply(s, HostWrites(cmd));
    RunsOneMore(s, [] + [HostWrites(cmd)], a, HostRings);
    var b := Apply(a, HostRings);
    SlotsDiffer(n, n + 1, s.cap);
    RunsOneMore(s, [] + [HostWrites(cmd)] + [HostRings], b, Poll);
    steps, t := [] + [HostWrites(cmd)] + [HostRings] + [Poll], Apply(b, Poll);
  }

  /** k of the notification's three fields are stored. */
  ghost predicate Storing(s: State, n: nat, k: nat)
  {
    && Inv(s) && s.kernel == Notifying(n + 1) && s.drain.NotDraining? && s.userReady
    && s.notes.producer.Filling? && s.notes.producer.written == k <= 3
    && s.notes.producer.entry == N.Entry(0, 0, Slot(n + 1, s.cap))
    && s.notes.consumer.Waiting? && s.notes.accepted == s.notes.consumed
    && |s.submitted| == s.rung == s.forwarded == n + 1 && s.released == n
    && |s.comp.posted| == |s.comp.taken| == n
  }

  lemma {:induction false} BeginsPush(s: State, n: nat)
    requires InForward(s, n)
    ensures InRange(s) && Enabled(s, PushAdmin) && Storing(Apply(s, PushAdmin), n, 0)
  {
    InvInRange(s);
    N.DropExactlyWhenFull(s.notes);
    StepKeepsInv(s, PushAdmin);
  }

  lemma {:induction false} StoresField(s: State, n: nat, k: nat)
    requires Storing(s, n, k) && k < 3
    ensures InRange(s) && Enabled(s, ProducerMoves(N.WriteField))
    ensures Storing(Apply(s, ProducerMoves(N.WriteField)), n, k + 1)
  {
    InvInRange(s);
    StepKeepsInv(s, ProducerMoves(N.WriteField));
  }

  lemma {:induction false} Publishes(s: State, n: nat)
    requires Storing(s, n, 3)
    ensures InRange(s) && Enabled(s, ProducerMoves(N.PublishTail))
    ensures var u := Apply(s, ProducerMoves(N.PublishTail));
            && InRange(u) && Enabled(u, PollDone) && Notified(Apply(u, PollDone), n)
  {
    InvInRange(s);
    StepKeepsInv(s, ProducerMoves(N.PublishTail));
    var u := Apply(s, ProducerMoves(N.PublishTail));
    InvInRange(u);
    StepKeepsInv(u, PollDone);
  }

  /** The push of the notification, one store at a time. */
  lemma {:induction false} Notifies(s: State, n: nat) returns (steps: seq<Step>, t: State)
    requires InForward(s, n)
    ensures Runs(s, steps, t) && Notified(t, n) && t.submitted == s.submitted && t.cap == s.cap
  {
    BeginsPush(s, n);
    assert Runs(s, [], s);
    RunsOneMore(s, [], s, PushAdmin);
    t, steps := Apply(s, PushAdmin), [] + [PushAdmin];
    var k := 0;
    while k < 3
      invariant 0 <= k <= 3 && Runs(s, steps, t) && Storing(t, n, k)
      invariant t.submitted == s.submitted && t.cap == s.cap
    {
      StoresField(t, n, k);
      RunsOneMore(s, steps, t, ProducerMoves(N.WriteField));
      t, steps, k := Apply(t, ProducerMoves(N.WriteField)), steps + [ProducerMoves(N.WriteField)], k + 1;
    }
    Publishes(t, n);
    RunsOneMore(s, steps, t, ProducerMoves(N.PublishTail));
    t, steps := Apply(t, ProducerMoves(N.PublishTail)), steps + [ProducerMoves(N.PublishTail)];
    RunsOneMore(s, steps, t, PollDone);
    t, steps := Apply(t, PollDone), steps + [PollDone];
  }

  /** k of the notification's three fields are loaded. */
  ghost predicate Loading(s: State, n: nat, k: nat)
  {
    && Inv(s) && s.kernel.Resting? && s.drain.NotDraining? && s.userReady
    && s.notes.producer.Idle? && s.notes.consumer.Draining? && s.notes.consumer.fields == k <= 3
    && s.notes.consumer.cur != s.notes.consumer.stop
    && s.notes.accepted == s.notes.consumed + [N.Entry(0, 0, Slot(n + 1, s.cap))]
    && |s.submitted| == s.rung == s.forwarded == s.seen == n + 1 && s.released == n
    && |s.comp.posted| == |s.comp.taken| == n
  }

  lemma {:induction false} Snapshots(s: State, n: nat)
    requires Notified(s, n)
    ensures InRange(s) && Enabled(s, ConsumerMoves(N.Snapshot))
    ensures Loading(Apply(s, ConsumerMoves(N.Snapshot)), n, 0)
  {
    InvInRange(s);
    SlotsDiffer(|s.notes.consumed|, |s.notes.accepted|, s.notes.size);
    StepKeepsInv(s, ConsumerMoves(N.Snapshot));
  }

  lemma {:induction false} LoadsField(s: State, n: nat, k: nat)
    requires Loading(s, n, k) && k < 3
    ensures InRange(s) && Enabled(s, ConsumerMoves(N.ReadField))
    ensures Loading(Apply(s, ConsumerMoves(N.ReadField)), n, k + 1)
  {
    InvInRange(s);
    StepKeepsInv(s, ConsumerMoves(N.ReadField));
  }

  lemma {:induction false} Loaded(s: State, n: nat)
    requires Loading(s, n, 3)
    ensures HasRead(s, n)
  {
    assert s.notes.accepted[|s.notes.consumed|] == N.Entry(0, 0, Slot(n + 1, s.cap));
  }

  /** The engine takes its snapshot and loads the three fields. */
  lemma {:induction false} Reads(s: State, n: nat) returns (steps: seq<Step>, t: State)
    requires Notified(s, n)
    ensures Runs(s, steps, t) && HasRead(t, n) && t.submitted == s.submitted && t.cap == s.cap
    ensures t.drain.NotDraining? && t.released == n && t.comp == s.comp
  {
    Snapshots(s, n);
    assert Runs(s, [], s);
    RunsOneMore(s, [], s, ConsumerMoves(N.Snapshot));
    t, steps := Apply(s, ConsumerMoves(N.Snapshot)), [] + [ConsumerMoves(N.Snapshot)];
    var k := 0;
    while k < 3
      invariant 0 <= k <= 3 && Runs(s, steps, t) && Loading(t, n, k)
      invariant t.submitted == s.submitted && t.cap == s.cap && t.comp == s.comp
    {
      LoadsField(t, n, k);
      RunsOneMore(s, steps, t, ConsumerMoves(N.ReadField));
      t, steps, k := Apply(t, ConsumerMoves(N.ReadField)), steps + [ConsumerMoves(N.ReadField)], k + 1;
    }
    Loaded(t, n);
  }

  /** The drain as far as the completion, before the head is published. */
  lemma {:induction false} Completes(s: State, n: nat, o: Outcome) returns (steps: seq<Step>, t: State)
    requires HasRead(s, n) && s.drain.NotDraining? && s.released == n && |s.comp.posted| == n
    ensures Runs(s, steps, t) && HasRead(t, n) && t.submitted == s.submitted && t.cap == s.cap
    ensures t.drain.Draining? && t.drain.at == t.drain.until && t.released == n && |t.comp.posted| == n + 1
  {
    InvInRange(s);
    assert Runs(s, [], s);
    RunsOneMore(s, [], s, DrainStart);
    var a := Apply(s, DrainStart);
    SlotsDiffer(n, n + 1, s.cap);
    RunsOneMore(s, [] + [DrainStart], a, DrainOne(o));
    steps, t := [] + [DrainStart] + [DrainOne(o)], Apply(a, DrainOne(o));
  }

  /** The command is done and its notification released; the completion waits for the host. */
  ghost predicate Waiting(s: State, n: nat)
  {
    && Inv(s) && RingEmpty(s) && s.kernel.Resting? && s.drain.NotDraining? && s.userReady
    && |s.submitted| == s.rung == s.forwarded == s.seen == s.released == |s.comp.posted| == n + 1
    && |s.comp.taken| == n
  }

  /** Between the drain's end and the release of the notification: read, or already advanced past. */
  ghost predicate Releasing(s: State, n: nat, advanced: bool)
  {
    && Inv(s) && s.kernel.Resting? && s.userReady
    && s.notes.producer.Idle? && s.notes.consumer.Draining? && s.notes.snapshot == |s.notes.accepted|
    && |s.submitted| == s.rung == s.forwarded == s.seen == s.released == |s.comp.posted| == n + 1
    && |s.comp.taken| == n
    && (if advanced
        then s.drain.NotDraining? && s.notes.consumer.fields == 0 && |s.notes.accepted| == |s.notes.consumed|
        else s.drain.Drained? && s.notes.consumer.fields == 3 && |s.notes.accepted| == |s.notes.consumed| + 1)
  }

  lemma {:induction false} EndsDrain(s: State, n: nat)
    requires HasRead(s, n) && s.drain.Draining? && s.drain.at == s.drain.until
    requires s.released == n && |s.comp.posted| == n + 1
    ensures InRange(s) && Enabled(s, DrainEnd) && Releasing(Apply(s, DrainEnd), n, false)
  {
    InvInRange(s);
    StepKeepsInv(s, DrainEnd);
  }

  lemma {:induction false} AdvancesPast(s: State, n: nat)
    requires Releasing(s, n, false)
    ensures InRange(s) && Enabled(s, ConsumerMoves(N.Advance))
    ensures Releasing(Apply(s, ConsumerMoves(N.Advance)), n, true)
  {
    InvInRange(s);
    StepKeepsInv(s, ConsumerMoves(N.Advance));
  }

  lemma {:induction false} PublishesHead(s: State, n: nat)
    requires Releasing(s, n, true)
    ensures InRange(s) && Enabled(s, ConsumerMoves(N.PublishHead))
    ensures Waiting(Apply(s, ConsumerMoves(N.PublishHead)), n)
  {
    InvInRange(s);
    StepKeepsInv(s, ConsumerMoves(N.PublishHead));
  }

  lemma {:induction false} Releases(s: State, n: nat) returns (steps: seq<Step>, t: State)
    requires HasRead(s, n) && s.drain.Draining? && s.drain.at == s.drain.until
    requires s.released == n && |s.comp.posted| == n + 1
    ensures Runs(s, steps, t) && Waiting(t, n) && t.submitted == s.submitted && t.cap == s.cap
  {
    assert Runs(s, [], s);
    EndsDrain(s, n);
    RunsOneMore(s, [], s, DrainEnd);
    var a := Apply(s, DrainEnd);
    AdvancesPast(a, n);
    RunsOneMore(s, [] + [DrainEnd], a, ConsumerMoves(N.Advance));
    var b := Apply(a, ConsumerMoves(N.Advance));
    PublishesHead(b, n);
    RunsOneMore(s, [] + [DrainEnd] + [ConsumerMoves(N.Advance)], b, ConsumerMoves(N.PublishHead));
    t := Apply(b, ConsumerMoves(N.PublishHead));
    steps := [] + [DrainEnd] + [ConsumerMoves(N.Advance)] + [ConsumerMoves(N.PublishHead)];
  }

  lemma {:induction false} HostFinds(s: State, n: nat)
    requires Waiting(s, n)
    ensures InRange(s) && Quiet(Apply(s, HostLooking), n + 1)
  {
    InvInRange(s);
    PhaseScan(s.cap, s.comp.posted, n);
    StepKeepsInv(s, HostLooking);
  }

  /** The head is published, the notification released, and the host takes the completion. */
  lemma {:induction false} Finishes(s: State, n: nat) returns (steps: seq<Step>, t: State)
    requires HasRead(s, n) && s.drain.Draining? && s.drain.at == s.drain.until
    requires s.released == n && |s.comp.posted| == n + 1
    ensures Runs(s, steps, t) && Quiet(t, n + 1) && t.submitted == s.submitted && t.cap == s.cap
  {
    var run, c := Releases(s, n);
    HostFinds(c, n);
    RunsOneMore(s, run, c, HostLooking);
    steps, t := run + [HostLooking], Apply(c, HostLooking);
  }

  /** From any quiet state the next command can be carried through to the host. */
  lemma {:induction false} ServesNext(s: State, n: nat, cmd: Command, o: Outcome) returns (steps: seq<Step>, t: State)
    requires Quiet(s, n)
    ensures Runs(s, steps, t) && Quiet(t, n + 1) && t.submitted == s.submitted + [cmd] && t.cap == s.cap
  {
    var s1, t1 := Forwards(s, n, cmd);
    var s2, t2 := Notifies(t1, n);
    var s3, t3 := Reads(t2, n);
    var s4, t4 := Completes(t3, n, o);
    var s5, t5 := Finishes(t4, n);
    RunsAppend(s, s1, t1, s2, t2);
    RunsAppend(s, s1 + s2, t2, s3, t3);
    RunsAppend(s, s1 + s2 + s3, t3, s4, t4);
    RunsAppend(s, s1 + s2 + s3 + s4, t4, s5, t5);
    steps, t := s1 + s2 + s3 + s4 + s5, t5;
  }

  lemma {:induction false} Starts(cap: nat, size: nat)
    requires 2 <= cap <= 0x1_0000 && size >= 2
    ensures Inv(Init(cap, size)) && InRange(Init(cap, size))
    ensures Quiet(Apply(Init(cap, size), ServerReady(true)), 0)
  {
    InitInv(cap, size);
    StepKeepsInv(Init(cap, size), ServerReady(true));
  }

  /** Any sequence of commands can be carried through from the start. */
  lemma {:induction false} ServesAll(cap: nat, size: nat, cmds: seq<Command>) returns (steps: seq<Step>, t: State)
    requires 2 <= cap <= 0x1_0000 && size >= 2
    ensures Runs(Init(cap, size), steps, t) && Quiet(t, |cmds|) && t.submitted == cmds && t.cap == cap
    decreases |cmds|
  {
    var s := Init(cap, size);
    if cmds == [] {
      Starts(cap, size);
      assert Runs(s, [], s);
      RunsOneMore(s, [], s, ServerReady(true));
      steps, t := [] + [ServerReady(true)], Apply(s, ServerReady(true));
    } else {
      var last := |cmds| - 1;
      var before, u := ServesAll(cap, size, cmds[..last]);
      var more, v := ServesNext(u, last, cmds[last], Outcome(0, 0, 0));
      RunsAppend(s, before, u, more, v);
      steps, t := before + more, v;
    }
  }

  /** For every queue size there is a run in which the engine has gone round the completion queue once
      and crashes with a command pending; the abort completes that command, and the host does not
      see it. */
  lemma {:induction false} CrashCanHideACompletion(cap: nat, size: nat) returns (steps: seq<Step>, s: State)
    requires 2 <= cap <= 0x1_0000 && size >= 2
    ensures Runs(Init(cap, size), steps, s) && InRange(s) && s.kernel.Resting? && s.drain.NotDraining?
    ensures |Crash(s).posted| == |s.submitted| == cap + 1 && |Crash(s).taken| == cap
    ensures |Crash(s).q.ring| == cap && !HostSees(Crash(s).q.ring, cap)
  {
    var before, u := ServesAll(cap, size, seq(cap, _ => ZERO_COMMAND));
    var s1, t1 := Forwards(u, cap, ZERO_COMMAND);
    var s2, t2 := Notifies(t1, cap);
    RunsAppend(Init(cap, size), before, u, s1, t1);
    RunsAppend(Init(cap, size), before + s1, t1, s2, t2);
    steps, s := before + s1 + s2, t2;
    InvInRange(s);
    CrashCompletesEachOnce(cap, size, steps, s);
    CrashVisibility(cap, size, steps, s);
    DivModUnique(cap, cap, 1, 0);
  }

  /** A crash after the only command's completion and before the publication of the head. */
  lemma {:induction false} CompletesAgain(s: State)
    requires HasRead(s, 0) && s.released == 0 && |s.comp.posted| == 1 && InRange(s)
    ensures Cids(Crash(s).posted) == [s.submitted[0].cid, s.submitted[0].cid]
  {
    AbandonedCommands(s);
    var es := UserForward.AbortAll(Abandoned(s), 0);
    assert |es| == |Cids(es)| == 1 && Cids(es)[0] == CommandIds(s.submitted[0..1])[0];
    assert s.comp.posted[0].cid == s.submitted[0].cid;
    assert Crash(s).posted == [s.comp.posted[0], es[0]];
  }

  /** And there is a run in which it crashes between posting a completion and publishing its head; the
      abort completes that command again. */
  lemma {:induction false} CrashCanCompleteTwice(cap: nat, size: nat) returns (steps: seq<Step>, s: State)
    requires 2 <= cap <= 0x1_0000 && size >= 2
    ensures Runs(Init(cap, size), steps, s) && InRange(s) && s.kernel.Resting?
    ensures |s.submitted| == 1
    ensures Cids(Crash(s).posted) == [s.submitted[0].cid, s.submitted[0].cid]
  {
    var before, u := ServesAll(cap, size, []);
    var s1, t1 := Forwards(u, 0, ZERO_COMMAND);
    var s2, t2 := Notifies(t1, 0);
    var s3, t3 := Reads(t2, 0);
    var s4, t4 := Completes(t3, 0, Outcome(0, 0, 0));
    RunsAppend(Init(cap, size), before, u, s1, t1);
    RunsAppend(Init(cap, size), before + s1, t1, s2, t2);
    RunsAppend(Init(cap, size), before + s1 + s2, t2, s3, t3);
    RunsAppend(Init(cap, size), before + s1 + s2 + s3, t3, s4, t4);
    steps, s := before + s1 + s2 + s3 + s4, t4;
    InvInRange(s);
    CompletesAgain(s);
  }
}

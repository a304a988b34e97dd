/** The engine left to itself in the admin protocol: every notification it has been sent is served within a
    bounded number of its own steps, and its poll method is such a run. */
module EngineProgress {
  import opened NvmeTypes
  import opened RingArith
  import opened CompletionRing
  import opened Queues
  import opened AdminProtocol
  import opened AdminProgress
  import opened Engine
  import N = NotifyRing

  predicate EngineStep(step: Step)
  {
    step.ConsumerMoves? || step.DrainStart? || step.DrainOne? || step.DrainEnd?
  }

  predicate AllEngine(steps: seq<Step>)
  {
    forall i :: 0 <= i < |steps| ==> EngineStep(steps[i])
  }

  // ----- The measure -----

  /** How far the consumer is from its next entry: publishing the head, taking a snapshot, loading the fields. */
  function Stage(c: N.Consumer): (r: nat)
    ensures r <= 5
  {
    match c
    case Waiting => 4
    case Draining(cur, stop, fields, _) =>
      if fields == 0 && cur == stop then 5 else if fields <= 3 then 3 - fields else 0
  }

  /** How far the drain is from its end. */
  function DrainRank(d: Drain, cap: nat): (r: nat)
    requires cap > 0
    ensures r <= cap + 1
  {
    match d
    case NotDraining => cap + 1
    case Draining(at, until) => if at < cap && until < cap then Dist(at, until, cap) + 1 else 0
    case Drained => 0
  }

  function Times(a: nat, w: nat): nat { a * w }

  /** An upper bound of the engine's steps until notification i is read. */
  function Remaining(s: State, i: nat): (r: nat)
    requires s.cap > 0 && |s.notes.consumed| <= i
  {
    var w := s.cap + 2;
    Times(i - |s.notes.consumed|, 6 * w) + Times(Stage(s.notes.consumer), w) + DrainRank(s.drain, s.cap)
  }

  /** The three parts of the bound, in order of weight. */
  predicate Descends(s: State, t: State)
    requires s.cap == t.cap > 0
  {
    || |t.notes.consumed| == |s.notes.consumed| + 1
    || (&& |t.notes.consumed| == |s.notes.consumed|
        && (|| Stage(t.notes.consumer) < Stage(s.notes.consumer)
            || (Stage(t.notes.consumer) == Stage(s.notes.consumer)
                && DrainRank(t.drain, t.cap) < DrainRank(s.drain, s.cap))))
  }

  lemma {:induction false} ConsumerDescends(s: State, step: Step)
    requires Inv(s) && InRange(s) && Enabled(s, step) && step.ConsumerMoves?
    requires |s.notes.consumed| < |s.notes.accepted|
    ensures Descends(s, Apply(s, step))
  {
    if step.c.Snapshot? {
      SlotsDiffer(|s.notes.consumed|, |s.notes.accepted|, s.notes.size);
    }
  }

  lemma {:induction false} DrainDescends(s: State, step: Step)
    requires Inv(s) && InRange(s) && Enabled(s, step) && (step.DrainStart? || step.DrainOne? || step.DrainEnd?)
    ensures Descends(s, Apply(s, step))
  {
    if step.DrainOne? {
      DistReaches(s.drain.at, s.drain.until, s.cap);
    }
  }

  lemma {:induction false} EngineDescends(s: State, step: Step)
    requires Inv(s) && InRange(s) && Enabled(s, step) && EngineStep(step)
    requires |s.notes.consumed| < |s.notes.accepted|
    ensures Descends(s, Apply(s, step))
    ensures var t := Apply(s, step);
            t.notes.accepted == s.notes.accepted && t.marks == s.marks && t.forwarded == s.forwarded && t.cap == s.cap
  {
    if step.ConsumerMoves? {
      ConsumerDescends(s, step);
    } else {
      DrainDescends(s, step);
    }
  }

  lemma {:induction false} Distributes(b: nat, d: nat, w: nat)
    ensures (b + 1 + d) * w == b * w + w + d * w
  {
  }

  lemma {:induction false} Weights(a: nat, b: nat, w: nat)
    requires b < a
    ensures Times(b, w) + w <= Times(a, w)
  {
    Distributes(b, a - b - 1, w);
    assert Times(a - b - 1, w) >= 0;
  }

  lemma {:induction false} RemainingDrops(s: State, t: State, i: nat)
    requires s.cap == t.cap > 0 && Descends(s, t) && |s.notes.consumed| <= |t.notes.consumed| <= i
    ensures Remaining(t, i) < Remaining(s, i)
  {
    var w := s.cap + 2;
    var a, b := Stage(s.notes.consumer), Stage(t.notes.consumer);
    if |t.notes.consumed| > |s.notes.consumed| {
      Weights(i - |s.notes.consumed|, i - |t.notes.consumed|, 6 * w);
      Weights(6, b, w);
    } else if b < a {
      Weights(a, b, w);
    }
  }

  /** One engine step while notification i is unread. */
  lemma {:induction false} StepBound(s: State, step: Step, i: nat)
    requires Inv(s) && InRange(s) && Enabled(s, step) && EngineStep(step)
    requires |s.notes.consumed| <= i < |s.notes.accepted|
    ensures var u := Apply(s, step);
            && Inv(u) && InRange(u) && u.cap == s.cap > 0 && |s.notes.consumed| <= |u.notes.consumed|
            && u.notes.accepted == s.notes.accepted && u.marks == s.marks && u.forwarded == s.forwarded
            && (|u.notes.consumed| <= i ==> Remaining(u, i) < Remaining(s, i))
  {
    EngineDescends(s, step);
    StepKeepsInv(s, step);
    var u := Apply(s, step);
    InvInRange(u);
    if |u.notes.consumed| <= i {
      RemainingDrops(s, u, i);
    }
  }

  lemma {:induction false} ConsumedGrows(s: State, steps: seq<Step>, t: State)
    requires Runs(s, steps, t)
    ensures |s.notes.consumed| <= |t.notes.consumed|
    decreases |steps|
  {
    if steps != [] {
      ConsumedGrows(Apply(s, steps[0]), steps[1..], t);
    }
  }

  /** From every reachable state: as long as a notification is unread, a run of engine steps alone is no longer
      than the bound. The engine cannot spin. */
  lemma {:induction false} EngineRunsAreBounded(s: State, steps: seq<Step>, t: State, i: nat)
    requires Inv(s) && Runs(s, steps, t) && AllEngine(steps)
    requires |t.notes.consumed| <= i < |s.notes.accepted|
    ensures |s.notes.consumed| <= i && s.cap > 0
    ensures |steps| <= Remaining(s, i)
    decreases |steps|
  {
    ConsumedGrows(s, steps, t);
    if steps != [] {
      InvInRange(s);
      var u := Apply(s, steps[0]);
      assert EngineStep(steps[0]);
      StepBound(s, steps[0], i);
      ConsumedGrows(u, steps[1..], t);
      EngineRunsAreBounded(u, steps[1..], t, i);
    }
  }

  // ----- It can always go on -----

  /** The engine's next step; o is what the handler answers if a command is due. */
  function NextStep(s: State, o: Outcome): Step
  {
    match s.drain
    case Draining(at, until) => if at != until then DrainOne(o) else DrainEnd
    case Drained => ConsumerMoves(N.Advance)
    case NotDraining =>
      match s.notes.consumer
      case Waiting => ConsumerMoves(N.Snapshot)
      case Draining(cur, stop, fields, got) =>
        if fields == 3 then (if IsAdmin(got) then DrainStart else ConsumerMoves(N.Advance))
        else if cur != stop then ConsumerMoves(N.ReadField)
        else ConsumerMoves(N.PublishHead)
  }

  lemma {:induction false} EngineNeverStuck(s: State, o: Outcome)
    requires Inv(s) && InRange(s)
    ensures EngineStep(NextStep(s, o)) && Enabled(s, NextStep(s, o))
  {
    if s.drain.NotDraining? && s.notes.consumer.Draining? {
      FieldsMeanUnread(s);
    }
  }

  lemma {:induction false} FieldsMeanUnread(s: State)
    requires Inv(s) && s.notes.consumer.Draining?
    ensures s.notes.consumer.cur == s.notes.consumer.stop ==> s.notes.consumer.fields == 0
  {
    if s.notes.consumer.fields > 0 {
      SlotsDiffer(|s.notes.consumed|, s.notes.snapshot, s.notes.size);
    }
  }

  lemma {:induction false} RunsFirst(s: State, step: Step, rest: seq<Step>, t: State)
    requires InRange(s) && Enabled(s, step) && Runs(Apply(s, step), rest, t)
    ensures Runs(s, [step] + rest, t)
  {
    assert ([step] + rest)[1..] == rest;
    RunsCons(s, [step] + rest, t);
  }

  lemma {:induction false} ServesFrom(s: State, i: nat, o: Outcome) returns (steps: seq<Step>, t: State)
    requires Inv(s) && InRange(s) && |s.notes.consumed| <= i < |s.notes.accepted| && s.cap > 0
    ensures Runs(s, steps, t) && AllEngine(steps) && i < |t.notes.consumed|
    ensures t.notes.accepted == s.notes.accepted && t.marks == s.marks && t.forwarded == s.forwarded
    decreases Remaining(s, i)
  {
    var step := NextStep(s, o);
    EngineNeverStuck(s, o);
    StepBound(s, step, i);
    var u := Apply(s, step);
    if i < |u.notes.consumed| {
      RunsSingle(s, step);
      steps, t := [step], u;
    } else {
      var rest;
      rest, t := ServesFrom(u, i, o);
      RunsFirst(s, step, rest, t);
      steps := [step] + rest;
    }
  }

  /** From every reachable state and for every notification accepted, engine steps alone lead to a state in
      which it is read and, if it is an admin one, every command forwarded before it has its completion. */
  lemma {:induction false} EngineServes(cap: nat, size: nat, before: seq<Step>, s: State, i: nat, o: Outcome)
    returns (steps: seq<Step>, t: State)
    requires 2 <= cap <= 0x1_0000 && size >= 2 && Runs(Init(cap, size), before, s) && i < |s.notes.accepted|
    ensures Runs(s, steps, t) && AllEngine(steps) && i < |t.notes.consumed|
    ensures |s.marks| == |s.notes.accepted|
    ensures IsAdmin(s.notes.accepted[i]) ==> s.marks[i] <= |t.comp.posted|
  {
    InitInv(cap, size);
    RunKeepsInv(Init(cap, size), before, s);
    if i < |s.notes.consumed| {
      steps, t := [], s;
    } else {
      steps, t := ServesFrom(s, i, o);
      RunKeepsInv(s, steps, t);
    }
  }

  // ----- Runs of the engine -----

  /** A run of engine steps between states of the protocol. */
  ghost predicate Leads(s: State, steps: seq<Step>, t: State)
  {
    Inv(s) && Runs(s, steps, t) && AllEngine(steps) && Inv(t) && InRange(t)
  }

  lemma {:induction false} LeadsNowhere(s: State)
    requires Inv(s) && InRange(s)
    ensures Leads(s, [], s)
  {
  }

  lemma {:induction false} LeadsOneMore(s: State, steps: seq<Step>, t: State, step: Step)
    requires Leads(s, steps, t) && Enabled(t, step) && EngineStep(step)
    ensures Leads(s, steps + [step], Apply(t, step))
  {
    RunsOneMore(s, steps, t, step);
  }

  lemma {:induction false} LeadsOn(s: State, a: seq<Step>, t: State, b: seq<Step>, u: State)
    requires Leads(s, a, t) && Leads(t, b, u)
    ensures Leads(s, a + b, u)
  {
    RunsAppend(s, a, t, b, u);
  }

  // ----- The poll method -----

  /** What the engine's method works on, as the protocol's state has it. */
  function ProgressOf(s: State): Progress { Progress(s.sqHead, s.comp.q, |s.comp.posted|) }

  /** Inside a poll, between two notifications. */
  ghost predicate Between(s: State)
  {
    && Inv(s) && InRange(s) && s.drain.NotDraining?
    && s.notes.consumer.Draining? && s.notes.consumer.fields == 0
    && s.notes.snapshot == |s.notes.accepted|
  }

  /** The state with k of the fields of the notification at hand loaded. */
  function WithLoaded(s: State, k: nat, got: N.Entry): State
    requires s.notes.consumer.Draining?
  {
    s.(notes := s.notes.(consumer := s.notes.consumer.(fields := k, got := got)))
  }

  lemma {:induction false} LoadsOne(s: State, k: nat, got: N.Entry)
    requires Between(s) && |s.notes.consumed| < |s.notes.accepted| && k < 3
    ensures var t := WithLoaded(s, k, got);
            InRange(t) && Enabled(t, ConsumerMoves(N.ReadField))
            && Apply(t, ConsumerMoves(N.ReadField)).notes.consumer.Draining?
            && Apply(t, ConsumerMoves(N.ReadField)) ==
               WithLoaded(s, k + 1, Apply(t, ConsumerMoves(N.ReadField)).notes.consumer.got)
  {
    SlotsDiffer(|s.notes.consumed|, |s.notes.accepted|, s.notes.size);
  }

  lemma {:induction false} LoadedWhole(s: State, got: N.Entry)
    requires Between(s) && |s.notes.consumed| < |s.notes.accepted| && Inv(WithLoaded(s, 3, got))
    ensures got == s.notes.accepted[|s.notes.consumed|]
  {
  }

  lemma {:induction false} LoadsThree(s: State) returns (steps: seq<Step>)
    requires Between(s) && |s.notes.consumed| < |s.notes.accepted|
    ensures Leads(s, steps, WithLoaded(s, 3, s.notes.accepted[|s.notes.consumed|]))
  {
    LeadsNowhere(s);
    var got := s.notes.consumer.got;
    assert s == WithLoaded(s, 0, got);
    steps := [];
    var k := 0;
    while k < 3
      invariant 0 <= k <= 3 && Leads(s, steps, WithLoaded(s, k, got))
    {
      LoadsOne(s, k, got);
      LeadsOneMore(s, steps, WithLoaded(s, k, got), ConsumerMoves(N.ReadField));
      got := Apply(WithLoaded(s, k, got), ConsumerMoves(N.ReadField)).notes.consumer.got;
      steps, k := steps + [ConsumerMoves(N.ReadField)], k + 1;
    }
    LoadedWhole(s, got);
  }

  /** An admin notification is loaded. */
  ghost predicate AdminLoaded(s: State)
  {
    && Inv(s) && InRange(s) && s.drain.NotDraining?
    && s.notes.consumer.Draining? && s.notes.consumer.fields == 3 && IsAdmin(s.notes.consumer.got)
  }

  /** The drain begins. */
  lemma {:induction false} DrainBegins(h: Handlers, s: State)
    requires AdminLoaded(s)
    ensures Enabled(s, DrainStart) && s.notes.consumer.got.index < |s.sq| == s.cap
    ensures var a := Apply(s, DrainStart);
            && a == s.(drain := Draining(s.sqHead, s.notes.consumer.got.index)) && InRange(a)
            && DrainedBy(h, a, 0) == a
  {
    var a := Apply(s, DrainStart);
    SmallCount(a.sqHead, a.cap);
    assert a.comp.posted + [] == a.comp.posted;
  }

  /** The commands one by one. */
  lemma {:induction false} DrainGoes(h: Handlers, a: State) returns (u: State)
    requires Inv(a) && InRange(a) && a.drain.Draining? && a.drain.until < a.cap && DrainedBy(h, a, 0) == a
    ensures u == DrainedBy(h, a, Dist(a.sqHead, a.drain.until, a.cap)) && u.drain.at == a.drain.until
    ensures Leads(a, DrainSteps(h, a, 0), u)
  {
    DrainIsRun(h, a, 0);
    u := DrainedBy(h, a, Dist(a.sqHead, a.drain.until, a.cap));
    RunKeepsInv(a, DrainSteps(h, a, 0), u);
  }

  /** The head is published. */
  lemma {:induction false} DrainFinishes(h: Handlers, a: State, u: State)
    requires InRange(a) && a.drain.Draining? && a.drain.until < a.cap && InRange(u)
    requires u == DrainedBy(h, a, Dist(a.sqHead, a.drain.until, a.cap)) && u.drain.at == a.drain.until
    ensures Enabled(u, DrainEnd)
    ensures var t := Apply(u, DrainEnd);
            && t.drain.Drained? && t.notes == a.notes && t.sq == a.sq
            && ProgressOf(t) == Served(h, a.sq, ProgressOf(a), a.drain.until)
  {
  }

  lemma {:induction false} DrainsLoaded(h: Handlers, s: State) returns (steps: seq<Step>, t: State)
    requires AdminLoaded(s)
    ensures Leads(s, steps, t) && t.drain.Drained? && t.notes == s.notes && t.sq == s.sq
    ensures s.notes.consumer.got.index < |s.sq|
    ensures ProgressOf(t) == Served(h, s.sq, ProgressOf(s), s.notes.consumer.got.index)
  {
    DrainBegins(h, s);
    LeadsNowhere(s);
    LeadsOneMore(s, [], s, DrainStart);
    var a := Apply(s, DrainStart);
    var u := DrainGoes(h, a);
    LeadsOn(s, [] + [DrainStart], a, DrainSteps(h, a, 0), u);
    DrainFinishes(h, a, u);
    LeadsOneMore(s, [] + [DrainStart] + DrainSteps(h, a, 0), u, DrainEnd);
    steps, t := [] + [DrainStart] + DrainSteps(h, a, 0) + [DrainEnd], Apply(u, DrainEnd);
  }

  /** The loop passes on from a notification that needs nothing more. */
  lemma {:induction false} PassesOn(s: State)
    requires Inv(s) && InRange(s) && s.notes.consumer.Draining? && s.notes.consumer.fields == 3
    requires if IsAdmin(s.notes.consumer.got) then s.drain.Drained? else s.drain.NotDraining?
    requires s.notes.snapshot == |s.notes.accepted|
    ensures Enabled(s, ConsumerMoves(N.Advance))
    ensures var t := Apply(s, ConsumerMoves(N.Advance));
            && Between(t) && t.notes.accepted == s.notes.accepted && t.notes.tail == s.notes.tail && t.sq == s.sq
            && t.notes.consumed == s.notes.consumed + [s.notes.consumer.got] && ProgressOf(t) == ProgressOf(s)
  {
    StepKeepsInv(s, ConsumerMoves(N.Advance));
    InvInRange(Apply(s, ConsumerMoves(N.Advance)));
  }

  /** One turn of the poll's loop. */
  lemma {:induction false} NoteIsRun(h: Handlers, s: State) returns (steps: seq<Step>, t: State)
    requires Between(s) && |s.notes.consumed| < |s.notes.accepted|
    ensures Leads(s, steps, t) && Between(t)
    ensures t.notes.accepted == s.notes.accepted && t.notes.tail == s.notes.tail && t.sq == s.sq
    ensures var e := s.notes.accepted[|s.notes.consumed|];
            && t.notes.consumed == s.notes.consumed + [e]
            && (IsAdmin(e) ==> e.index < |s.sq|)
            && ProgressOf(t) == if IsAdmin(e) then Served(h, s.sq, ProgressOf(s), e.index) else ProgressOf(s)
  {
    var e := s.notes.accepted[|s.notes.consumed|];
    var first := LoadsThree(s);
    var r := WithLoaded(s, 3, e);
    if IsAdmin(e) {
      var more, u := DrainsLoaded(h, r);
      LeadsOn(s, first, r, more, u);
      PassesOn(u);
      LeadsOneMore(s, first + more, u, ConsumerMoves(N.Advance));
      steps, t := first + more + [ConsumerMoves(N.Advance)], Apply(u, ConsumerMoves(N.Advance));
    } else {
      PassesOn(r);
      LeadsOneMore(s, first, r, ConsumerMoves(N.Advance));
      steps, t := first + [ConsumerMoves(N.Advance)], Apply(r, ConsumerMoves(N.Advance));
    }
  }

  lemma {:induction false} NotesInBounds(s: State, a: nat)
    requires Inv(s) && a <= |s.notes.accepted|
    ensures InBounds(s.notes.accepted[a..], |s.sq|)
  {
  }

  /** The progress made from p on by the notifications from a on that have been read. */
  ghost predicate ServedSince(h: Handlers, s: State, p: Progress, a: nat)
  {
    && a <= |s.notes.consumed| <= |s.notes.accepted| && p.head < |s.sq| && p.cq.Valid()
    && InBounds(s.notes.accepted[a..|s.notes.consumed|], |s.sq|)
    && ProgressOf(s) == PollAll(h, s.sq, p, s.notes.accepted[a..|s.notes.consumed|])
  }

  lemma {:induction false} ServesOneMore(h: Handlers, s: State, u: State, p: Progress, a: nat)
    requires ServedSince(h, s, p, a) && |s.notes.consumed| < |s.notes.accepted|
    requires InBounds(s.notes.accepted[a..], |s.sq|)
    requires u.notes.accepted == s.notes.accepted && u.sq == s.sq && |u.notes.consumed| == |s.notes.consumed| + 1
    requires var e := s.notes.accepted[|s.notes.consumed|];
             && (IsAdmin(e) ==> e.index < |s.sq| && s.sqHead < |s.sq| && s.comp.q.Valid())
             && ProgressOf(u) == if IsAdmin(e) then Served(h, s.sq, ProgressOf(s), e.index) else ProgressOf(s)
    ensures ServedSince(h, u, p, a)
  {
    var notes, n := s.notes.accepted[a..], |s.notes.consumed| - a;
    PollAllSnoc(h, s.sq, p, notes, n);
    assert notes[..n] == s.notes.accepted[a..|s.notes.consumed|];
    assert notes[..n + 1] == s.notes.accepted[a..|u.notes.consumed|];
  }

  /** The rest of the poll's loop. */
  lemma {:induction false} LoopIsRun(h: Handlers, s: State, p: Progress, a: nat) returns (steps: seq<Step>, t: State)
    requires Between(s) && ServedSince(h, s, p, a)
    ensures Leads(s, steps, t) && Between(t) && ServedSince(h, t, p, a)
    ensures t.notes.accepted == s.notes.accepted && t.notes.tail == s.notes.tail && t.sq == s.sq
    ensures |t.notes.consumed| == |t.notes.accepted|
    decreases |s.notes.accepted| - |s.notes.consumed|
  {
    if |s.notes.consumed| == |s.notes.accepted| {
      LeadsNowhere(s);
      steps, t := [], s;
    } else {
      NotesInBounds(s, a);
      var first, u := NoteIsRun(h, s);
      ServesOneMore(h, s, u, p, a);
      var rest;
      rest, t := LoopIsRun(h, u, p, a);
      LeadsOn(s, first, u, rest, t);
      steps := first + rest;
    }
  }

  lemma {:induction false} PollBegins(h: Handlers, s: State)
    requires Inv(s) && InRange(s) && s.notes.consumer.Waiting?
    ensures Enabled(s, ConsumerMoves(N.Snapshot))
    ensures var u := Apply(s, ConsumerMoves(N.Snapshot));
            && Between(u) && ServedSince(h, u, ProgressOf(s), |s.notes.consumed|)
            && u.notes.accepted == s.notes.accepted && u.notes.tail == s.notes.tail && u.sq == s.sq
  {
    StepKeepsInv(s, ConsumerMoves(N.Snapshot));
    var u, a := Apply(s, ConsumerMoves(N.Snapshot)), |s.notes.consumed|;
    InvInRange(u);
    assert u.notes.accepted[a..a] == [];
  }

  lemma {:induction false} PollEnds(s: State)
    requires Between(s) && |s.notes.consumed| == |s.notes.accepted|
    ensures Enabled(s, ConsumerMoves(N.PublishHead))
    ensures var t := Apply(s, ConsumerMoves(N.PublishHead));
            && t.notes.consumer.Waiting? && t.notes.head == t.notes.tail == s.notes.tail
            && t.notes.accepted == s.notes.accepted && t.notes.consumed == s.notes.consumed
            && ProgressOf(t) == ProgressOf(s)
  {
  }

  /** The poll up to the publication of the ring's head. */
  lemma {:induction false} PollBody(h: Handlers, s: State) returns (steps: seq<Step>, v: State)
    requires Inv(s) && InRange(s) && s.notes.consumer.Waiting?
    ensures Leads(s, steps, v) && Between(v) && ServedSince(h, v, ProgressOf(s), |s.notes.consumed|)
    ensures v.notes.accepted == s.notes.accepted && v.notes.tail == s.notes.tail && v.sq == s.sq
    ensures |v.notes.consumed| == |v.notes.accepted|
  {
    LeadsNowhere(s);
    PollBegins(h, s);
    LeadsOneMore(s, [], s, ConsumerMoves(N.Snapshot));
    var u := Apply(s, ConsumerMoves(N.Snapshot));
    var more;
    more, v := LoopIsRun(h, u, ProgressOf(s), |s.notes.consumed|);
    LeadsOn(s, [] + [ConsumerMoves(N.Snapshot)], u, more, v);
    steps := [] + [ConsumerMoves(N.Snapshot)] + more;
  }

  lemma {:induction false} ServedAll(h: Handlers, v: State, p: Progress, a: nat)
    requires ServedSince(h, v, p, a) && |v.notes.consumed| == |v.notes.accepted|
    ensures InBounds(v.notes.accepted[a..], |v.sq|)
    ensures ProgressOf(v) == PollAll(h, v.sq, p, v.notes.accepted[a..])
  {
    assert v.notes.accepted[a..|v.notes.consumed|] == v.notes.accepted[a..];
  }

  /** The poll method as a whole is a run of the protocol's single engine steps: from a waiting engine to a
      waiting engine, every accepted notification read, the ring's head at its tail, and the queues as the
      method's contract says. */
  lemma {:induction false} PollIsRun(h: Handlers, s: State) returns (steps: seq<Step>, t: State)
    requires Inv(s) && InRange(s) && s.notes.consumer.Waiting?
    ensures Leads(s, steps, t) && t.notes.consumer.Waiting?
    ensures |t.notes.consumed| == |t.notes.accepted| && t.notes.accepted == s.notes.accepted
    ensures t.notes.head == t.notes.tail == s.notes.tail
    ensures |s.notes.consumed| <= |s.notes.accepted| && InBounds(s.notes.accepted[|s.notes.consumed|..], |s.sq|)
    ensures ProgressOf(t) == PollAll(h, s.sq, ProgressOf(s), s.notes.accepted[|s.notes.consumed|..])
  {
    var body, v := PollBody(h, s);
    ServedAll(h, v, ProgressOf(s), |s.notes.consumed|);
    PollEnds(v);
    LeadsOneMore(s, body, v, ConsumerMoves(N.PublishHead));
    steps, t := body + [ConsumerMoves(N.PublishHead)], Apply(v, ConsumerMoves(N.PublishHead));
  }

  lemma {:induction false} OutstandingCount(n: N.State)
    requires N.Inv(n) && n.consumer.Waiting?
    ensures |n.consumed| <= |n.accepted|
    ensures Dist(n.head, n.tail, n.size) == |n.accepted| - |n.consumed|
  {
    DistIsDifference(|n.consumed|, |n.accepted|, n.size);
  }

  lemma {:induction false} OutstandingAt(n: N.State, k: nat)
    requires N.Inv(n) && n.consumer.Waiting? && |n.consumed| + k < |n.accepted|
    ensures n.entries[SlotAfter(n.head, k, n.size)] == n.accepted[|n.consumed| + k]
  {
    SlotSum(|n.consumed|, k, n.size);
  }

  /** The notifications it reads are those the method takes from the ring between head and tail. */
  lemma {:induction false} OutstandingAreUnread(n: N.State)
    requires N.Inv(n) && n.consumer.Waiting?
    ensures |n.consumed| <= |n.accepted|
    ensures Outstanding(n.entries, n.head, n.tail) == n.accepted[|n.consumed|..]
  {
    OutstandingCount(n);
    var out, rest := Outstanding(n.entries, n.head, n.tail), n.accepted[|n.consumed|..];
    forall k | 0 <= k < |out|
      ensures out[k] == rest[k]
    {
      OutstandingAt(n, k);
    }
  }
}

/** The bus's list of virtual controllers. The lock is released between reserving a place and inserting
    the built controller, so creates and deletes interleave. */
module Controllers {
  import opened NvmeTypes

  datatype BusStatus = Success | Collision | InsufficientResources | NotFound | BuildFailed

  /** The list, the counter ChildDeviceCount, the creates between their two critical sections, and how
      many ids NextControllerId has given out. */
  datatype State = State(list: seq<u32>, count: nat, building: seq<u32>, issued: nat, max: nat)

  datatype Step =
    | Reserve(id: u32)          // first critical section of a create
    | ReserveNext               // the same, for the id the atomic counter gives
    | Insert(k: nat)            // the k-th pending create was built and is inserted
    | RollBack(k: nat)          // the k-th pending create failed
    | Delete(id: u32)

  function Init(max: nat): State { State([], 0, [], 0, max) }

  /** NextControllerId starts at 1 and wraps at 32 bits. */
  function NextId(issued: nat): (id: u32) { (issued + 1) % 0x1_0000_0000 }

  predicate Enabled(s: State, step: Step)
  {
    (step.Insert? || step.RollBack? ==> step.k < |s.building|)
  }

  function Without(s: seq<u32>, k: nat): (r: seq<u32>)
    requires k < |s|
    ensures |r| == |s| - 1
    ensures forall i :: 0 <= i < |r| ==> r[i] == s[if i < k then i else i + 1]
  {
    s[..k] + s[k + 1..]
  }

  /** The first position of id, or the length. */
  function Find(s: seq<u32>, id: u32): (k: nat)
    ensures k <= |s|
    ensures k < |s| ==> s[k] == id
    ensures forall i :: 0 <= i < k ==> s[i] != id
  {
    if s == [] then 0 else if s[0] == id then 0 else 1 + Find(s[1..], id)
  }

  function Reserved(s: State, id: u32): (State, BusStatus)
  {
    if id in s.list then (s, Collision)
    else if s.count >= s.max then (s, InsufficientResources)
    else (s.(count := s.count + 1, building := s.building + [id]), Success)
  }

  function Deleted(s: State, id: u32): (State, BusStatus)
  {
    var k := Find(s.list, id);
    if k == |s.list| then (s, NotFound)
    else (s.(list := Without(s.list, k), count := if s.count > 0 then s.count - 1 else 0), Success)
  }

  function Apply(s: State, step: Step): State
    requires Enabled(s, step)
  {
    match step
    case Reserve(id) => Reserved(s, id).0
    case ReserveNext => Reserved(s, NextId(s.issued)).0.(issued := s.issued + 1)
    case Insert(k) => s.(list := s.list + [s.building[k]], building := Without(s.building, k))
    case RollBack(k) => s.(count := if s.count > 0 then s.count - 1 else 0, building := Without(s.building, k))
    case Delete(id) => Deleted(s, id).0
  }

  ghost predicate Counted(s: State) { s.count == |s.list| + |s.building| <= s.max }

  ghost predicate Distinct(s: seq<u32>) { forall i, j :: 0 <= i < j < |s| ==> s[i] != s[j] }

  /** No id is held twice, listed or pending. */
  ghost predicate NoTwice(s: State)
  {
    && Distinct(s.list) && Distinct(s.building)
    && (forall i, j :: 0 <= i < |s.list| && 0 <= j < |s.building| ==> s.list[i] != s.building[j])
  }

  /** All ids held have been given out by the counter. */
  ghost predicate IdsIssued(s: State)
  {
    && (forall i :: 0 <= i < |s.list| ==> 1 <= s.list[i] <= s.issued)
    && (forall i :: 0 <= i < |s.building| ==> 1 <= s.building[i] <= s.issued)
  }

  lemma {:induction false} StepKeepsCount(s: State, step: Step)
    requires Counted(s) && Enabled(s, step)
    ensures Counted(Apply(s, step))
  {
  }

  ghost predicate Runs(s: State, steps: seq<Step>, t: State)
    decreases |steps|
  {
    if steps == [] then s == t else Enabled(s, steps[0]) && Runs(Apply(s, steps[0]), steps[1..], t)
  }

  lemma {:induction false} RunKeepsCount(s: State, steps: seq<Step>, t: State)
    requires Counted(s) && Runs(s, steps, t)
    ensures Counted(t) && t.max == s.max
    decreases |steps|
  {
    if steps != [] {
      StepKeepsCount(s, steps[0]);
      RunKeepsCount(Apply(s, steps[0]), steps[1..], t);
    }
  }

  /** In every interleaving ChildDeviceCount is the listed controllers plus the creates in flight, and
      never exceeds the maximum. */
  lemma {:induction false} CountIsExact(max: nat, steps: seq<Step>, t: State)
    requires Runs(Init(max), steps, t)
    ensures t.count == |t.list| + |t.building| <= max
  {
    RunKeepsCount(Init(max), steps, t);
  }

  // ---------- duplicate ids ----------

  lemma {:induction false} InsertKeepsNoTwice(s: State, k: nat)
    requires NoTwice(s) && k < |s.building|
    ensures NoTwice(Apply(s, Insert(k)))
  {
  }

  lemma {:induction false} RollBackKeepsNoTwice(s: State, k: nat)
    requires NoTwice(s) && k < |s.building|
    ensures NoTwice(Apply(s, RollBack(k)))
  {
  }

  lemma {:induction false} DeleteKeepsNoTwice(s: State, id: u32)
    requires NoTwice(s)
    ensures NoTwice(Apply(s, Delete(id)))
  {
  }

  /** The driver looks through the list but cannot see creates in flight: a reservation it accepts keeps
      ids single if and only if no create in flight holds that id. */
  lemma {:induction false} ReserveKeepsExactly(s: State, id: u32)
    requires NoTwice(s) && Reserved(s, id).1.Success?
    ensures NoTwice(Reserved(s, id).0) <==> id !in s.building
  {
    var b := Reserved(s, id).0.building;
    if id in s.building {
      var i :| 0 <= i < |s.building| && s.building[i] == id;
      assert b[i] == b[|b| - 1];
    }
  }

  /** The id a step reserves, if it reserves one and the driver accepts it. */
  predicate Takes(s: State, step: Step, id: u32)
  {
    && Reserved(s, id).1.Success?
    && (step == Reserve(id) || (step.ReserveNext? && id == NextId(s.issued)))
  }

  ghost predicate TakesFree(s: State, step: Step)
  {
    forall id: u32 :: Takes(s, step, id) ==> id !in s.building
  }

  lemma {:induction false} StepKeepsNoTwice(s: State, step: Step)
    requires NoTwice(s) && Enabled(s, step)
    ensures NoTwice(Apply(s, step)) <==> TakesFree(s, step)
  {
    match step
    case Reserve(id) => TakeKeepsExactly(s, step, id);
    case ReserveNext => TakeKeepsExactly(s, step, NextId(s.issued));
    case Insert(k) => InsertKeepsNoTwice(s, k);
    case RollBack(k) => RollBackKeepsNoTwice(s, k);
    case Delete(id) => DeleteKeepsNoTwice(s, id);
  }

  lemma {:induction false} TakeKeepsExactly(s: State, step: Step, id: u32)
    requires NoTwice(s) && (step == Reserve(id) || (step.ReserveNext? && id == NextId(s.issued)))
    ensures NoTwice(Apply(s, step)) <==> TakesFree(s, step)
  {
    if Reserved(s, id).1.Success? {
      assert Takes(s, step, id);
      ReserveKeepsExactly(s, id);
    }
  }

  ghost predicate NeverTwice(s: State, steps: seq<Step>)
    decreases |steps|
  {
    NoTwice(s) && (steps != [] && Enabled(s, steps[0]) ==> NeverTwice(Apply(s, steps[0]), steps[1..]))
  }

  ghost predicate AlwaysTakesFree(s: State, steps: seq<Step>)
    decreases |steps|
  {
    steps != [] && Enabled(s, steps[0]) ==>
      TakesFree(s, steps[0]) && AlwaysTakesFree(Apply(s, steps[0]), steps[1..])
  }

  /** Over any run of interleaved creates and deletes, with ids from anywhere, no id is ever held twice if
      and only if no accepted reservation names the id of a create still in flight. */
  lemma {:induction false} CheckSufficesExactly(s: State, steps: seq<Step>, t: State)
    requires NoTwice(s) && Runs(s, steps, t)
    ensures NeverTwice(s, steps) <==> AlwaysTakesFree(s, steps)
    ensures NeverTwice(s, steps) ==> Distinct(t.list)
    decreases |steps|
  {
    if steps != [] {
      StepKeepsNoTwice(s, steps[0]);
      var u := Apply(s, steps[0]);
      if NoTwice(u) {
        CheckSufficesExactly(u, steps[1..], t);
      }
    }
  }

  // ---------- ids from the counter ----------

  ghost predicate FromCounter(steps: seq<Step>) { forall i :: 0 <= i < |steps| ==> !steps[i].Reserve? }

  lemma {:induction false} StepKeepsIssued(s: State, step: Step)
    requires IdsIssued(s) && Enabled(s, step) && !step.Reserve? && s.issued < 0xFFFF_FFFF
    ensures IdsIssued(Apply(s, step)) && s.issued <= Apply(s, step).issued <= s.issued + 1
    ensures TakesFree(s, step)
  {
    assert NextId(s.issued) == s.issued + 1;
  }

  lemma {:induction false} RunTakesFree(s: State, steps: seq<Step>, t: State)
    requires IdsIssued(s) && Runs(s, steps, t) && FromCounter(steps) && s.issued + |steps| <= 0xFFFF_FFFF
    ensures AlwaysTakesFree(s, steps)
    decreases |steps|
  {
    if steps != [] {
      StepKeepsIssued(s, steps[0]);
      RunTakesFree(Apply(s, steps[0]), steps[1..], t);
    }
  }

  /** With every id from the atomic counter, and before the counter can wrap, the list never holds an id
      twice, however creates and deletes interleave. */
  lemma {:induction false} NoDuplicateIds(max: nat, steps: seq<Step>, t: State)
    requires Runs(Init(max), steps, t) && FromCounter(steps) && |steps| <= 0xFFFF_FFFF
    ensures Distinct(t.list)
  {
    RunTakesFree(Init(max), steps, t);
    CheckSufficesExactly(Init(max), steps, t);
  }

  // ---------- the counter wraps ----------

  lemma {:induction false} RunsAppend(s: State, a: seq<Step>, t: State, b: seq<Step>, u: State)
    requires Runs(s, a, t) && Runs(t, b, u)
    ensures Runs(s, a + b, u)
    decreases |a|
  {
    if a == [] {
      assert a + b == b;
    } else {
      RunsAppend(Apply(s, a[0]), a[1..], t, b, u);
      assert (a + b)[0] == a[0] && (a + b)[1..] == a[1..] + b;
    }
  }

  lemma {:induction false} RunsOneMore(s: State, a: seq<Step>, t: State, step: Step)
    requires Runs(s, a, t) && Enabled(t, step)
    ensures Runs(s, a + [step], Apply(t, step))
  {
    assert [step][1..] == [];
    assert Runs(Apply(t, step), [], Apply(t, step));
    assert Runs(t, [step], Apply(t, step));
    RunsAppend(s, a, t, [step], Apply(t, step));
  }

  /** One create in flight, holding id 1. */
  function OneInFlight(max: nat, issued: nat): State { State([], 1, [1], issued, max) }

  /** While it is in flight, n further creates are begun and rolled back. */
  lemma {:induction false} OthersFail(max: nat, n: nat) returns (steps: seq<Step>)
    requires max >= 2
    ensures Runs(Init(max), steps, OneInFlight(max, n + 1)) && FromCounter(steps)
    decreases n
  {
    if n == 0 {
      assert Runs(Init(max), [], Init(max));
      assert NextId(0) == 1;
      RunsOneMore(Init(max), [], Init(max), ReserveNext);
      steps := [] + [ReserveNext];
    } else {
      var before := OthersFail(max, n - 1);
      var s, id := OneInFlight(max, n), NextId(n);
      RunsOneMore(Init(max), before, s, ReserveNext);
      var t := Apply(s, ReserveNext);
      assert t == State([], 2, [1, id], n + 1, max);
      RunsOneMore(Init(max), before + [ReserveNext], t, RollBack(1));
      assert Without([1, id], 1) == [1];
      steps := before + [ReserveNext] + [RollBack(1)];
    }
  }

  lemma {:induction false} InsertsFirst(list: seq<u32>, id: u32, rest: seq<u32>, issued: nat, max: nat)
    ensures Apply(State(list, 2, [id] + rest, issued, max), Insert(0)) == State(list + [id], 2, rest, issued, max)
  {
    assert Without([id] + rest, 0) == rest;
  }

  /** Past the wrap it can: a create that stays in flight while the counter goes round once lets its own
      id be reserved again, and both are listed. */
  lemma {:induction false} WrappedCounterListsTwice(max: nat) returns (steps: seq<Step>, t: State)
    requires max >= 2
    ensures Runs(Init(max), steps, t) && FromCounter(steps) && t.list == [1, 1]
  {
    var round := 0x1_0000_0000;
    steps := OthersFail(max, round - 1);
    t := OneInFlight(max, round);
    assert NextId(round) == 1;
    RunsOneMore(Init(max), steps, t, ReserveNext);
    steps, t := steps + [ReserveNext], State([], 2, [1] + [1], round + 1, max);
    InsertsFirst([], 1, [1], round + 1, max);
    RunsOneMore(Init(max), steps, t, Insert(0));
    steps, t := steps + [Insert(0)], State([] + [1], 2, [1], round + 1, max);
    assert [1] + [] == [1];
    InsertsFirst([] + [1], 1, [], round + 1, max);
    RunsOneMore(Init(max), steps, t, Insert(0));
    steps, t := steps + [Insert(0)], State([] + [1] + [1], 2, [], round + 1, max);
  }

  /** The bus: each method is one critical section. */
  class Bus {
    var childDevices: seq<u32>
    var childDeviceCount: nat
    const maxControllers: nat
    ghost var building: seq<u32>
    ghost var issued: nat

    constructor (max: nat)
      ensures Now() == Init(max)
    {
      childDevices, childDeviceCount, maxControllers := [], 0, max;
      building, issued := [], 0;
    }

    ghost function Now(): State
      reads this
    {
      State(childDevices, childDeviceCount, building, issued, maxControllers)
    }

    method ReserveController(id: u32) returns (status: BusStatus)
      modifies this
      ensures (Now(), status) == Reserved(old(Now()), id)
      ensures status == if id in old(childDevices) then Collision
                        else if old(childDeviceCount) >= maxControllers then InsufficientResources else Success
      ensures childDevices == old(childDevices)
      ensures childDeviceCount == old(childDeviceCount) + (if status.Success? then 1 else 0)
    {
      var i := 0;
      while i < |childDevices|
        invariant i <= |childDevices| && id !in childDevices[..i]
      {
        if childDevices[i] == id {
          return Collision;
        }
        i := i + 1;
      }
      assert childDevices[..i] == childDevices;
      if childDeviceCount >= maxControllers {
        return InsufficientResources;
      }
      childDeviceCount := childDeviceCount + 1;
      building := building + [id];
      return Success;
    }

    method InsertController(id: u32, ghost k: nat)
      requires k < |building| && building[k] == id
      modifies this
      ensures Now() == Apply(old(Now()), Insert(k))
      ensures childDevices == old(childDevices) + [id] && childDeviceCount == old(childDeviceCount)
    {
      childDevices := childDevices + [id];
      building := Without(building, k);
    }

    method RollBackController(ghost k: nat)
      requires k < |building| && Counted(Now())
      modifies this
      ensures Now() == Apply(old(Now()), RollBack(k))
      ensures childDevices == old(childDevices) && childDeviceCount == old(childDeviceCount) - 1
    {
      childDeviceCount := childDeviceCount - 1;
      building := Without(building, k);
    }

    method DeleteController(id: u32) returns (status: BusStatus)
      requires Counted(Now())
      modifies this
      ensures (Now(), status) == Deleted(old(Now()), id)
      ensures status == if id in old(childDevices) then Success else NotFound
      ensures status.Success? ==>
                var was := old(childDevices);
                var k := Find(was, id);
                k < |was| && childDevices == was[..k] + was[k + 1..] && childDeviceCount == old(childDeviceCount) - 1
      ensures !status.Success? ==> childDevices == old(childDevices) && childDeviceCount == old(childDeviceCount)
    {
      var i := 0;
      while i < |childDevices|
        invariant i <= |childDevices| && Now() == old(Now())
        invariant forall j :: 0 <= j < i ==> childDevices[j] != id
      {
        if childDevices[i] == id {
          assert Find(childDevices, id) == i;
          childDevices := childDevices[..i] + childDevices[i + 1..];
          childDeviceCount := childDeviceCount - 1;
          return Success;
        }
        i := i + 1;
      }
      return NotFound;
    }
  }
}

/** A controller's namespace table. */
module Namespaces {
  import opened NvmeTypes
  import RingArith
  import opened History

  const MAX_CAPACITY: nat := 0x1000_0000_0000   // 16 TB
  const FLAG_ENABLED: u32 := 1
  const FLAG_READONLY: u32 := 2
  const FLAG_SPARSE: u32 := 4

  datatype Namespace = Namespace(nsid: nat, active: bool, readOnly: bool, thin: bool,
                                 blockSize: nat, totalBlocks: nat, totalBytes: nat)

  const BLANK := Namespace(0, false, false, false, 0, 0, 0)

  datatype NsStatus = Success | InvalidParameter | IntegerOverflow | QuotaExceeded | StorageFailed | NotFound

  /** Config.BlockSize 0 stands for 512. */
  function BlockSizeOf(requested: u32): (bs: nat)
    ensures bs != 0
  {
    if requested != 0 then requested else 512
  }

  predicate FlagSet(flags: u32, bit: u32)
    requires bit > 0
  {
    (flags / bit) % 2 == 1
  }

  // ---------- the capacity check ----------

  /** The product in 64 bits. */
  function Product64(blocks: u64, blockSize: nat): (p: u64) { (blocks * blockSize) % U64 }

  function CapacityStatus(blocks: u64, blockSize: nat): NsStatus
    requires blockSize != 0
  {
    if Product64(blocks, blockSize) / blockSize != blocks then IntegerOverflow
    else if Product64(blocks, blockSize) > MAX_CAPACITY then InvalidParameter
    else Success
  }

  lemma {:induction false} DivideBack(blocks: u64, blockSize: nat)
    requires blockSize != 0
    ensures Product64(blocks, blockSize) / blockSize == blocks <==> blocks * blockSize < U64
  {
    var w := Product64(blocks, blockSize);
    if blocks * blockSize < U64 {
      RingArith.DivModUnique(w, blockSize, blocks, 0);
    } else {
      assert w / blockSize * blockSize <= w;
    }
  }

  /** Wrapped product, divide-back test and cap together accept a capacity exactly when the true product
      is at most 16 TB, and report an overflow exactly when it does not fit 64 bits. */
  lemma {:induction false} CapacityCheckExact(blocks: u64, blockSize: nat)
    requires blockSize != 0
    ensures CapacityStatus(blocks, blockSize).Success? <==> blocks * blockSize <= MAX_CAPACITY
    ensures CapacityStatus(blocks, blockSize).IntegerOverflow? <==> blocks * blockSize >= U64
    ensures CapacityStatus(blocks, blockSize) in {Success, IntegerOverflow, InvalidParameter}
  {
    DivideBack(blocks, blockSize);
  }

  // ---------- the table ----------

  datatype Table = Table(slots: seq<Namespace>, count: nat)

  function Blanks(n: nat): (r: seq<Namespace>)
    ensures |r| == n && forall i :: 0 <= i < n ==> r[i] == BLANK
  {
    seq(n, _ => BLANK)
  }

  const NO_NAMESPACES := Table(Blanks(MAX_NAMESPACES), 0)

  datatype Request =
    | Create(blockSize: u32, totalBlocks: u64, flags: u32, storageOk: bool)
    | Delete(nsid: u32)

  /** The first inactive slot, or the length. */
  function FirstFree(slots: seq<Namespace>): (k: nat)
    ensures k <= |slots|
    ensures k < |slots| ==> !slots[k].active
    ensures forall i :: 0 <= i < k ==> slots[i].active
  {
    if slots == [] then 0 else if !slots[0].active then 0 else 1 + FirstFree(slots[1..])
  }

  function Made(k: nat, c: Request): Namespace
    requires c.Create?
  {
    var bs := BlockSizeOf(c.blockSize);
    Namespace(k + 1, c.storageOk, FlagSet(c.flags, FLAG_READONLY), FlagSet(c.flags, FLAG_SPARSE), bs, c.totalBlocks,
              Product64(c.totalBlocks, bs))
  }

  function Execute(t: Table, c: Request): (Table, NsStatus)
    requires |t.slots| == MAX_NAMESPACES
  {
    match c
    case Create(blockSize, totalBlocks, flags, storageOk) =>
      var bs := BlockSizeOf(blockSize);
      if blockSize != 0 && blockSize != 512 && blockSize != 4096 then (t, InvalidParameter)
      else if totalBlocks == 0 then (t, InvalidParameter)
      else if !CapacityStatus(totalBlocks, bs).Success? then (t, CapacityStatus(totalBlocks, bs))
      else if t.count >= MAX_NAMESPACES then (t, QuotaExceeded)
      else
        var k := FirstFree(t.slots);
        if k == MAX_NAMESPACES then (t, QuotaExceeded)
        else (Table(t.slots[k := Made(k, c)], t.count + Flag(storageOk)), if storageOk then Success else StorageFailed)
    case Delete(nsid) =>
      if nsid == 0 || nsid > MAX_NAMESPACES then (t, InvalidParameter)
      else if !t.slots[nsid - 1].active then (t, NotFound)
      else (Table(t.slots[nsid - 1 := t.slots[nsid - 1].(active := false)],
                  if t.count > 0 then t.count - 1 else 0), Success)
  }

  function Flag(b: bool): (n: nat) { if b then 1 else 0 }

  function ActiveCount(slots: seq<Namespace>): (n: nat)
  {
    if slots == [] then 0 else ActiveCount(slots[..|slots| - 1]) + Flag(slots[|slots| - 1].active)
  }

  predicate WellMade(ns: Namespace, k: nat)
  {
    ns.active ==>
      && ns.nsid == k + 1 && (ns.blockSize == 512 || ns.blockSize == 4096) && ns.totalBlocks > 0
      && ns.totalBytes == ns.totalBlocks * ns.blockSize <= MAX_CAPACITY
  }

  ghost predicate Sound(t: Table)
  {
    && |t.slots| == MAX_NAMESPACES && t.count == ActiveCount(t.slots)
    && forall k :: 0 <= k < MAX_NAMESPACES ==> WellMade(t.slots[k], k)
  }

  lemma {:induction false} CountAfterUpdate(slots: seq<Namespace>, k: nat, ns: Namespace)
    requires k < |slots|
    ensures ActiveCount(slots[k := ns]) == ActiveCount(slots) - Flag(slots[k].active) + Flag(ns.active)
    decreases |slots|
  {
    var n := |slots| - 1;
    if k < n {
      assert slots[k := ns][..n] == slots[..n][k := ns];
      CountAfterUpdate(slots[..n], k, ns);
    } else {
      assert slots[k := ns][..n] == slots[..n];
    }
  }

  lemma {:induction false} FullExactlyAtLength(slots: seq<Namespace>)
    ensures ActiveCount(slots) <= |slots|
    ensures ActiveCount(slots) == |slots| <==> forall i :: 0 <= i < |slots| ==> slots[i].active
    decreases |slots|
  {
    if slots != [] {
      FullExactlyAtLength(slots[..|slots| - 1]);
    }
  }

  lemma {:induction false} ExecuteKeepsSound(t: Table, c: Request)
    requires Sound(t)
    ensures Sound(Execute(t, c).0)
  {
    if c.Create? {
      var k, bs := FirstFree(t.slots), BlockSizeOf(c.blockSize);
      CapacityCheckExact(c.totalBlocks, bs);
      if Execute(t, c).0 != t {
        CountAfterUpdate(t.slots, k, Made(k, c));
      }
    } else if Execute(t, c).0 != t {
      CountAfterUpdate(t.slots, c.nsid - 1, t.slots[c.nsid - 1].(active := false));
    }
  }

  function RunAll(t: Table, cs: seq<Request>): (r: Table)
    requires |t.slots| == MAX_NAMESPACES
    ensures |r.slots| == MAX_NAMESPACES
  {
    if cs == [] then t else Execute(RunAll(t, cs[..|cs| - 1]), cs[|cs| - 1]).0
  }

  /** Over any run of creates and deletes NamespaceCount is the number of active slots, and active slot k
      holds NSID k + 1, a legal block size and an exact byte count within the cap. */
  lemma {:induction false} RunKeepsSound(cs: seq<Request>)
    ensures Sound(RunAll(NO_NAMESPACES, cs))
    decreases |cs|
  {
    if cs == [] {
      NoneActive(NO_NAMESPACES.slots);
    } else {
      RunKeepsSound(cs[..|cs| - 1]);
      ExecuteKeepsSound(RunAll(NO_NAMESPACES, cs[..|cs| - 1]), cs[|cs| - 1]);
    }
  }

  lemma {:induction false} NoneActive(slots: seq<Namespace>)
    requires forall i :: 0 <= i < |slots| ==> !slots[i].active
    ensures ActiveCount(slots) == 0
    decreases |slots|
  {
    if slots != [] {
      NoneActive(slots[..|slots| - 1]);
    }
  }

  /** In a sound table a create of a legal size within the cap is refused exactly when all sixteen
      namespaces are active: the search that follows the quota check always finds a slot. */
  lemma {:induction false} CreateRefusedExactlyWhenFull(t: Table, c: Request)
    requires Sound(t) && c.Create? && c.storageOk && c.totalBlocks > 0 && c.blockSize in {0, 512, 4096}
    requires c.totalBlocks * BlockSizeOf(c.blockSize) <= MAX_CAPACITY
    ensures Execute(t, c).1 ==
            (if forall i :: 0 <= i < MAX_NAMESPACES ==> t.slots[i].active then QuotaExceeded else Success)
  {
    CapacityCheckExact(c.totalBlocks, BlockSizeOf(c.blockSize));
    FullExactlyAtLength(t.slots);
  }

  // ---------- what a run's history says ----------

  /** What a namespace was asked to be. */
  datatype Shape = Shape(blockSize: nat, totalBlocks: nat, readOnly: bool, thin: bool)

  /** The k-th request of the run made namespace nsid in this shape: block size 0 stands for 512, bit 1 of the
      flags for read-only and bit 2 for thin. */
  predicate Creates(cs: seq<Request>, k: nat, nsid: nat, d: Shape)
    requires k < |cs|
  {
    var before := RunAll(NO_NAMESPACES, cs[..k]);
    && cs[k].Create? && Execute(before, cs[k]).1.Success? && FirstFree(before.slots) + 1 == nsid
    && MadeAs(cs[k], d)
  }

  predicate MadeAs(c: Request, d: Shape)
    requires c.Create?
  {
    var flags: int := c.flags;
    && d.blockSize == (if c.blockSize == 0 then 512 else c.blockSize) && d.totalBlocks == c.totalBlocks
    && d.readOnly == ((flags / 2) % 2 == 1) && d.thin == ((flags / 4) % 2 == 1)
  }

  predicate Deletes(cs: seq<Request>, k: nat, nsid: nat)
    requires k < |cs|
  {
    cs[k].Delete? && cs[k].nsid == nsid && Execute(RunAll(NO_NAMESPACES, cs[..k]), cs[k]).1.Success?
  }

  function Creations(cs: seq<Request>, nsid: nat, d: Shape): (made: seq<bool>)
    ensures |made| == |cs|
  {
    seq(|cs|, (k: nat) requires k < |cs| => Creates(cs, k, nsid, d))
  }

  function Deletions(cs: seq<Request>, nsid: nat): (gone: seq<bool>)
    ensures |gone| == |cs|
  {
    seq(|cs|, (k: nat) requires k < |cs| => Deletes(cs, k, nsid))
  }

  /** The run created namespace nsid in this shape and has not deleted it since. */
  ghost predicate Live(cs: seq<Request>, nsid: nat, d: Shape)
  {
    Standing(Creations(cs, nsid, d), Deletions(cs, nsid))
  }

  /** The table says the same. */
  predicate Recorded(t: Table, nsid: nat, d: Shape)
    requires |t.slots| == MAX_NAMESPACES && 1 <= nsid <= MAX_NAMESPACES
  {
    var ns := t.slots[nsid - 1];
    ns.active && Shape(ns.blockSize, ns.totalBlocks, ns.readOnly, ns.thin) == d
  }

  lemma {:induction false} ExecuteRecords(t: Table, c: Request, nsid: nat, d: Shape)
    requires |t.slots| == MAX_NAMESPACES && 1 <= nsid <= MAX_NAMESPACES
    ensures var done := Execute(t, c).1.Success?;
            Recorded(Execute(t, c).0, nsid, d) <==>
              || (done && c.Create? && FirstFree(t.slots) + 1 == nsid && MadeAs(c, d))
              || (Recorded(t, nsid, d) && !(done && c.Delete? && c.nsid == nsid))
  {
  }

  lemma {:induction false} PrefixSame(cs: seq<Request>, n: nat, nsid: nat, d: Shape)
    requires n <= |cs|
    ensures Creations(cs[..n], nsid, d) == Creations(cs, nsid, d)[..n]
    ensures Deletions(cs[..n], nsid) == Deletions(cs, nsid)[..n]
  {
    forall k: nat | k < n
      ensures Creates(cs[..n], k, nsid, d) == Creates(cs, k, nsid, d)
      ensures Deletes(cs[..n], k, nsid) == Deletes(cs, k, nsid)
    {
      assert cs[..n][..k] == cs[..k];
    }
  }

  /** After any run a namespace is active, with its size and flags, exactly when the run created it with them and
      has not deleted it since. */
  lemma {:induction false} TableIsHistory(cs: seq<Request>, nsid: nat, d: Shape)
    requires 1 <= nsid <= MAX_NAMESPACES
    ensures Recorded(RunAll(NO_NAMESPACES, cs), nsid, d) <==> Live(cs, nsid, d)
    decreases |cs|
  {
    if cs != [] {
      var n := |cs| - 1;
      TableIsHistory(cs[..n], nsid, d);
      ExecuteRecords(RunAll(NO_NAMESPACES, cs[..n]), cs[n], nsid, d);
      PrefixSame(cs, n, nsid, d);
      StandingStep(Creations(cs, nsid, d), Deletions(cs, nsid));
    }
  }

  /** What a create answers: the sizes first, then room, then the storage. */
  lemma {:induction false} CreateAnswers(t: Table, c: Request)
    requires Sound(t) && c.Create?
    ensures var bs: int := if c.blockSize == 0 then 512 else c.blockSize;
            Execute(t, c).1 ==
            if c.blockSize !in {0, 512, 4096} || c.totalBlocks == 0 then InvalidParameter
            else if c.totalBlocks * bs >= U64 then IntegerOverflow
            else if c.totalBlocks * bs > 0x1000_0000_0000 then InvalidParameter
            else if t.count == 16 then QuotaExceeded
            else if c.storageOk then Success else StorageFailed
  {
    FullExactlyAtLength(t.slots);
    CapacityCheckExact(c.totalBlocks, BlockSizeOf(c.blockSize));
  }

  /** On success the lowest free NSID is taken, and its slot is the only one that changes. */
  lemma {:induction false} CreateFills(t: Table, c: Request)
    requires Sound(t) && c.Create? && Execute(t, c).1.Success?
    ensures var k, t' := FirstFree(t.slots), Execute(t, c).0;
            && k < MAX_NAMESPACES && t'.count == t.count + 1 && t'.slots == t.slots[k := t'.slots[k]]
            && t'.slots[k].active && t'.slots[k].nsid == k + 1
            && MadeAs(c, Shape(t'.slots[k].blockSize, t'.slots[k].totalBlocks, t'.slots[k].readOnly, t'.slots[k].thin))
  {
    FullExactlyAtLength(t.slots);
  }

  // ---------- listing ----------

  datatype Info = Info(nsid: nat, flags: nat, totalBlocks: nat, blockSize: nat)

  function InfoOf(ns: Namespace): Info
  {
    Info(ns.nsid, FLAG_ENABLED + (if ns.readOnly then FLAG_READONLY else 0) + (if ns.thin then FLAG_SPARSE else 0),
         ns.totalBlocks, ns.blockSize)
  }

  /** The active slots in order. */
  function Listed(slots: seq<Namespace>): seq<Info>
  {
    if slots == [] then []
    else Listed(slots[..|slots| - 1]) + (if slots[|slots| - 1].active then [InfoOf(slots[|slots| - 1])] else [])
  }

  predicate Lists(slots: seq<Namespace>, e: Info)
  {
    && 1 <= e.nsid <= |slots| && slots[e.nsid - 1].active
    && e.totalBlocks == slots[e.nsid - 1].totalBlocks && e.blockSize == slots[e.nsid - 1].blockSize
    && e.flags == 1 + (if slots[e.nsid - 1].readOnly then 2 else 0) + (if slots[e.nsid - 1].thin then 4 else 0)
  }

  lemma {:induction false} ListingEntries(slots: seq<Namespace>)
    requires forall k :: 0 <= k < |slots| ==> WellMade(slots[k], k)
    ensures |Listed(slots)| == ActiveCount(slots)
    ensures forall a :: 0 <= a < |Listed(slots)| ==> Lists(slots, Listed(slots)[a])
    decreases |slots|
  {
    if slots != [] {
      var n := |slots| - 1;
      var before := Listed(slots[..n]);
      assert WellMade(slots[n], n);
      ListingEntries(slots[..n]);
      forall a | 0 <= a < |Listed(slots)|
        ensures Lists(slots, Listed(slots)[a])
      {
        if a < |before| {
          assert Listed(slots)[a] == before[a] && Lists(slots[..n], before[a]);
        }
      }
    }
  }

  /** A listing has NamespaceCount entries, each an active namespace, by ascending NSID. */
  lemma {:induction false} ListingSorted(slots: seq<Namespace>)
    requires forall k :: 0 <= k < |slots| ==> WellMade(slots[k], k)
    ensures var l := Listed(slots);
            && |l| == ActiveCount(slots)
            && (forall a :: 0 <= a < |l| ==> Lists(slots, l[a]))
            && (forall a, b :: 0 <= a < b < |l| ==> l[a].nsid < l[b].nsid)
    decreases |slots|
  {
    ListingEntries(slots);
    if slots != [] {
      var n, l := |slots| - 1, Listed(slots);
      var before := Listed(slots[..n]);
      assert WellMade(slots[n], n);
      ListingSorted(slots[..n]);
      forall a, b | 0 <= a < b < |l|
        ensures l[a].nsid < l[b].nsid
      {
        assert l[a] == before[a] && Lists(slots[..n], before[a]);
        if b < |before| {
          assert l[b] == before[b];
        } else {
          assert l[b] == InfoOf(slots[n]);
        }
      }
    }
  }

  /** And every active namespace is in it. */
  lemma {:induction false} ListingComplete(slots: seq<Namespace>, k: nat)
    requires (forall i :: 0 <= i < |slots| ==> WellMade(slots[i], i)) && k < |slots| && slots[k].active
    ensures exists a :: 0 <= a < |Listed(slots)| && Listed(slots)[a].nsid == k + 1
    decreases |slots|
  {
    var n := |slots| - 1;
    var before := Listed(slots[..n]);
    if k < n {
      ListingComplete(slots[..n], k);
      var a :| 0 <= a < |before| && before[a].nsid == k + 1;
      assert Listed(slots)[a] == before[a];
    } else {
      assert WellMade(slots[n], n) && Listed(slots)[|before|] == InfoOf(slots[n]);
    }
  }

  // ---------- the driver ----------

  class NamespaceTable {
    const slots: array<Namespace>
    var count: nat

    constructor ()
      ensures Valid() && State() == NO_NAMESPACES && fresh(slots)
    {
      slots := new Namespace[MAX_NAMESPACES](_ => BLANK);
      count := 0;
      new;
      assert slots[..] == NO_NAMESPACES.slots;
      NoneActive(slots[..]);
    }

    function State(): Table
      reads this, slots
    {
      Table(slots[..], count)
    }

    ghost predicate Valid()
      reads this, slots
    {
      slots.Length == MAX_NAMESPACES && Sound(State())
    }

    method CreateNamespace(blockSize: u32, totalBlocks: u64, flags: u32, storageOk: bool)
      returns (status: NsStatus, nsid: nat)
      requires Valid()
      modifies this, slots
      ensures Valid() && (State(), status) == Execute(old(State()), Create(blockSize, totalBlocks, flags, storageOk))
      ensures status.Success? ==>
                && 1 <= nsid <= MAX_NAMESPACES && !old(slots[nsid - 1]).active && slots[nsid - 1].active
                && (forall i :: 0 <= i < nsid - 1 ==> slots[i].active)
                && (forall i :: 0 <= i < MAX_NAMESPACES && i != nsid - 1 ==> slots[i] == old(slots[i]))
                && slots[nsid - 1].totalBlocks == totalBlocks && count == old(count) + 1
                && slots[nsid - 1].blockSize == if blockSize == 0 then 512 else blockSize
      ensures status == if blockSize !in {0, 512, 4096} || totalBlocks == 0 then InvalidParameter
                        else if totalBlocks * (if blockSize == 0 then 512 else blockSize) >= U64 then IntegerOverflow
                        else if totalBlocks * (if blockSize == 0 then 512 else blockSize) > 0x1000_0000_0000
                        then InvalidParameter
                        else if old(count) == 16 then QuotaExceeded
                        else if storageOk then Success else StorageFailed
    {
      ghost var c := Create(blockSize, totalBlocks, flags, storageOk);
      CreateAnswers(State(), c);
      ExecuteKeepsSound(State(), c);
      nsid := 0;
      if blockSize != 0 && blockSize != 512 && blockSize != 4096 {
        return InvalidParameter, nsid;
      }
      if totalBlocks == 0 {
        return InvalidParameter, nsid;
      }
      var bs := if blockSize != 0 then blockSize else 512;
      status := CheckCapacity(totalBlocks, bs);
      if !status.Success? {
        return;
      }
      if count >= MAX_NAMESPACES {
        return QuotaExceeded, nsid;
      }
      var i := FindFree();
      if i == MAX_NAMESPACES {
        return QuotaExceeded, nsid;
      }
      var made := Fill(i, bs, totalBlocks, flags, storageOk, c);
      if !made {
        return StorageFailed, nsid;
      }
      return Success, i + 1;
    }

    /** The slot is filled in before the storage is created, and marked active after. */
    method Fill(i: nat, bs: nat, totalBlocks: u64, flags: u32, storageOk: bool, ghost c: Request) returns (made: bool)
      requires i < slots.Length && c.Create? && bs == BlockSizeOf(c.blockSize)
      requires c == Create(c.blockSize, totalBlocks, flags, storageOk)
      modifies this, slots
      ensures made == storageOk && slots[..] == old(slots[..])[i := Made(i, c)]
      ensures count == old(count) + Flag(storageOk)
    {
      slots[i] := Namespace(i + 1, false, FlagSet(flags, FLAG_READONLY), FlagSet(flags, FLAG_SPARSE), bs, totalBlocks,
                            Product64(totalBlocks, bs));
      if !storageOk {
        return false;
      }
      slots[i] := slots[i].(active := true);
      count := count + 1;
      made := true;
    }

    /** The product is divided back before it is compared with the cap. */
    method CheckCapacity(totalBlocks: u64, bs: nat) returns (status: NsStatus)
      requires bs != 0
      ensures status == CapacityStatus(totalBlocks, bs)
    {
      var totalCapacity := Product64(totalBlocks, bs);
      if totalCapacity / bs != totalBlocks {
        return IntegerOverflow;
      }
      if totalCapacity > MAX_CAPACITY {
        return InvalidParameter;
      }
      status := Success;
    }

    method FindFree() returns (i: nat)
      requires slots.Length == MAX_NAMESPACES
      ensures i == FirstFree(slots[..])
    {
      i := 0;
      while i < MAX_NAMESPACES && slots[i].active
        invariant i <= MAX_NAMESPACES && forall j :: 0 <= j < i ==> slots[j].active
      {
        i := i + 1;
      }
    }

    method DeleteNamespace(nsid: u32) returns (status: NsStatus)
      requires Valid()
      modifies this, slots
      ensures Valid() && (State(), status) == Execute(old(State()), Delete(nsid))
      ensures status == if nsid == 0 || nsid > 16 then InvalidParameter
                        else if !old(slots[nsid - 1]).active then NotFound else Success
      ensures status.Success? ==>
                && !slots[nsid - 1].active && count == old(count) - 1
                && forall i :: 0 <= i < MAX_NAMESPACES && i != nsid - 1 ==> slots[i] == old(slots[i])
      ensures !status.Success? ==> count == old(count) && slots[..] == old(slots[..])
    {
      ExecuteKeepsSound(State(), Delete(nsid));
      if nsid == 0 || nsid > MAX_NAMESPACES {
        return InvalidParameter;
      }
      if !slots[nsid - 1].active {
        return NotFound;
      }
      ghost var was := slots[..];
      CountAfterUpdate(was, nsid - 1, was[nsid - 1].(active := false));
      slots[nsid - 1] := slots[nsid - 1].(active := false);
      assert slots[..] == was[nsid - 1 := slots[nsid - 1]];
      count := count - 1;
      return Success;
    }

    method ListNamespaces() returns (infos: seq<Info>)
      requires Valid()
      ensures infos == Listed(slots[..]) && |infos| == count
      ensures forall a :: 0 <= a < |infos| ==> Lists(slots[..], infos[a])
    {
      infos := [];
      var i := 0;
      while i < MAX_NAMESPACES && |infos| < MAX_NAMESPACES
        invariant i <= MAX_NAMESPACES && |infos| <= i && infos == Listed(slots[..i])
      {
        assert slots[..i + 1][..i] == slots[..i];
        if slots[i].active {
          infos := infos + [InfoOf(slots[i])];
        }
        i := i + 1;
      }
      assert slots[..i] == slots[..];
      ListingSorted(slots[..]);
    }
  }
}

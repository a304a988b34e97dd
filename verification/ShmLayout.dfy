/** Where the queues lie in shared memory: the slabs the driver hands out when a queue is created
    (vnvme/queue.c) and the regions of the header's map (include/vnvme_common.h). */
module ShmLayout {
  import opened NvmeTypes
  import opened Bytes

  const SQ_ENTRY: nat := 64
  const CQ_ENTRY: nat := 16
  const DESCRIPTOR: nat := 32
  const PAGE: nat := 4096

  /** The driver's layout: descriptors, then for each queue index its SQ slab and its CQ slab. */
  datatype Layout = Layout(descriptors: nat, count: nat, depth: nat) {
    function Slabs(): nat { descriptors + count * 2 * DESCRIPTOR }

    function Pair(): nat { depth * SQ_ENTRY + depth * CQ_ENTRY }

    function SqOffset(i: nat): nat { Slabs() + i * Pair() }

    function CqOffset(i: nat): nat { SqOffset(i) + depth * SQ_ENTRY }

    function End(): nat { Slabs() + count * Pair() }
  }

  /** The submission or completion slab of a queue index. */
  datatype Slab = Slab(index: nat, isCq: bool)

  function EntrySize(s: Slab): nat { if s.isCq then CQ_ENTRY else SQ_ENTRY }

  function Start(l: Layout, s: Slab): nat
  {
    if s.isCq then l.CqOffset(s.index) else l.SqOffset(s.index)
  }

  /** Where a queue of the given size ends; its slab has room for depth entries. */
  function Extent(l: Layout, s: Slab, size: nat): nat { Start(l, s) + size * EntrySize(s) }

  lemma {:induction false} SizeBound(a: nat, b: nat, e: nat)
    requires a <= b
    ensures a * e <= b * e
  {
    assert b * e == a * e + (b - a) * e;
  }

  lemma {:induction false} OneMore(i: nat, p: nat)
    ensures (i + 1) * p == i * p + p
  {
  }

  lemma {:induction false} Wider(i: nat, a: nat, b: nat)
    requires a <= b
    ensures i * a <= i * b
    ensures i * a == i * b <==> i == 0 || a == b
  {
    assert i * b == i * a + i * (b - a);
    if i > 0 && a < b {
      assert i * (b - a) == (b - a) + (i - 1) * (b - a);
    }
  }

  lemma {:induction false} PairsApart(l: Layout, i: nat, j: nat)
    requires i < j
    ensures l.SqOffset(i) + l.Pair() <= l.SqOffset(j)
  {
    OneMore(i, l.Pair());
    SizeBound(i + 1, j, l.Pair());
  }

  predicate Apart(a: nat, aEnd: nat, b: nat, bEnd: nat) { aEnd <= b || bEnd <= a }

  /** Queues no larger than the depth lie in slabs that do not overlap. */
  lemma {:induction false} SlabsApart(l: Layout, s: Slab, sSize: nat, t: Slab, tSize: nat)
    requires s != t && sSize <= l.depth && tSize <= l.depth
    ensures Apart(Start(l, s), Extent(l, s, sSize), Start(l, t), Extent(l, t, tSize))
  {
    SizeBound(sSize, l.depth, EntrySize(s));
    SizeBound(tSize, l.depth, EntrySize(t));
    if s.index < t.index {
      PairsApart(l, s.index, t.index);
    } else if t.index < s.index {
      PairsApart(l, t.index, s.index);
    }
  }

  /** They also lie behind the descriptors and before the end of the last pair. */
  lemma {:induction false} SlabsInside(l: Layout, s: Slab, size: nat)
    requires s.index < l.count && size <= l.depth
    ensures l.descriptors + l.count * 2 * DESCRIPTOR <= Start(l, s)
    ensures Extent(l, s, size) <= l.End()
  {
    SizeBound(size, l.depth, EntrySize(s));
    OneMore(s.index, l.Pair());
    SizeBound(s.index + 1, l.count, l.Pair());
  }

  /** The bytes cleared for a new queue of a given size meet no other queue's slab. */
  ghost predicate ClearsOnlyItsOwn(l: Layout, s: Slab, size: nat)
  {
    forall t: Slab :: t != s && t.index < l.count ==>
      Apart(Start(l, s), Extent(l, s, size), Start(l, t), Extent(l, t, l.depth))
  }

  /** The slab that begins where slab s ends. */
  function Following(s: Slab): Slab
  {
    if s.isCq then Slab(s.index + 1, false) else Slab(s.index, true)
  }

  lemma {:induction false} FollowingStarts(l: Layout, s: Slab)
    ensures Start(l, Following(s)) == Extent(l, s, l.depth)
  {
    OneMore(s.index, l.Pair());
  }

  /** Creation does not compare the queue size with the depth. Clearing the new queue leaves all others
      alone exactly when its size is at most the depth, or no slab lies behind it. */
  lemma {:induction false} ClearingExact(l: Layout, s: Slab, size: nat)
    requires s.index < l.count && l.depth > 0
    ensures ClearsOnlyItsOwn(l, s, size) <==> size <= l.depth || Following(s).index == l.count
  {
    if size <= l.depth {
      forall t: Slab | t != s && t.index < l.count
        ensures Apart(Start(l, s), Extent(l, s, size), Start(l, t), Extent(l, t, l.depth))
      {
        SlabsApart(l, s, size, t, l.depth);
      }
    } else if Following(s).index == l.count {
      forall t: Slab | t != s && t.index < l.count
        ensures Apart(Start(l, s), Extent(l, s, size), Start(l, t), Extent(l, t, l.depth))
      {
        SlabsApart(l, s, 0, t, l.depth);
        LastStartsBehind(l, s, t);
      }
    } else {
      OverrunsFollowing(l, s, size);
    }
  }

  lemma {:induction false} LastStartsBehind(l: Layout, s: Slab, t: Slab)
    requires s.isCq && s.index + 1 == l.count && t != s && t.index < l.count
    ensures Extent(l, t, l.depth) <= Start(l, s)
  {
    if t.index < s.index {
      PairsApart(l, t.index, s.index);
    }
  }

  lemma {:induction false} OverrunsFollowing(l: Layout, s: Slab, size: nat)
    requires s.index < l.count && Following(s).index < l.count && 0 < l.depth < size
    ensures !ClearsOnlyItsOwn(l, s, size)
  {
    var t := Following(s);
    FollowingStarts(l, s);
    SizeBound(l.depth + 1, size, EntrySize(s));
    OneMore(l.depth, EntrySize(s));
    assert Start(l, t) < Extent(l, s, size);
    assert Extent(l, t, l.depth) > Start(l, t) >= Start(l, s);
    assert !Apart(Start(l, s), Extent(l, s, size), Start(l, t), Extent(l, t, l.depth));
  }

  /** The clearing at creation. */
  method ClearSlab(shm: array<u8>, l: Layout, s: Slab, size: nat)
    requires Extent(l, s, size) <= shm.Length
    modifies shm
    ensures shm[..] == Poke(old(shm[..]), Start(l, s), Zeros(size * EntrySize(s)))
  {
    ZeroMemory(shm, Start(l, s), size * EntrySize(s));
  }

  /** Creating a queue within the depth keeps every byte of every other queue. */
  lemma {:induction false} CreationSparesOthers(l: Layout, shm: seq<u8>, s: Slab, size: nat, t: Slab)
    requires s != t && size <= l.depth && Extent(l, s, size) <= |shm| && Extent(l, t, l.depth) <= |shm|
    ensures var after := Poke(shm, Start(l, s), Zeros(size * EntrySize(s)));
            Peek(after, Start(l, t), l.depth * EntrySize(t)) == Peek(shm, Start(l, t), l.depth * EntrySize(t))
  {
    SlabsApart(l, s, size, t, l.depth);
  }

  // ----- The header's map -----

  function Align(x: nat): (r: nat)
    ensures x <= r < x + PAGE && r % PAGE == 0
  {
    (x + PAGE - 1) / PAGE * PAGE
  }

  const SHM_SIZE: nat := 64 * 1024 * 1024
  const DATA_BUFFER_SIZE: nat := 60 * 1024 * 1024
  const CONTROL_BLOCK_SIZE: nat := 4096
  const ADMIN_DEPTH: nat := 64
  const IO_DEPTH: nat := 256
  /** Two cache lines of indices and 256 entries of 8 bytes. */
  const RING_BYTES: nat := 64 + 64 + 256 * 8

  /** The map for any queue count and depths. */
  datatype Map = Map(adminDepth: nat, ioDepth: nat, queues: nat, ring: nat) {
    function NotifyRing(): nat { CONTROL_BLOCK_SIZE }
    function AdminSq(): nat { NotifyRing() + Align(ring) }
    function AdminCq(): nat { AdminSq() + Align(adminDepth * SQ_ENTRY) }
    function Descriptors(): nat { AdminCq() + Align(adminDepth * CQ_ENTRY) }
    function IoQueues(): nat { Descriptors() + Align(queues * 2 * DESCRIPTOR) }
    function SqBytes(): nat { Align(ioDepth * SQ_ENTRY) }
    function CqBytes(): nat { Align(ioDepth * CQ_ENTRY) }
    function IoSq(n: nat): nat { IoQueues() + n * (SqBytes() + CqBytes()) }
    function IoCq(n: nat): nat { IoSq(n) + SqBytes() }
    function DataBuffer(): nat { IoQueues() + queues * (SqBytes() + CqBytes()) }

    /** What the driver allots from: the same descriptors, slabs that are not rounded to pages. */
    function Driver(): Layout { Layout(Descriptors(), queues, ioDepth) }
  }

  const ACTUAL := Map(ADMIN_DEPTH, IO_DEPTH, MAX_IO_QUEUES, RING_BYTES)

  /** In the header's map a queue of the full depth stays clear of the next one, and the last of the
      data buffer. */
  lemma {:induction false} HeaderMapApart(m: Map, i: nat)
    requires i < m.queues
    ensures m.IoQueues() <= m.IoSq(i)
    ensures m.IoSq(i) + m.ioDepth * SQ_ENTRY <= m.IoCq(i)
    ensures m.IoCq(i) + m.ioDepth * CQ_ENTRY <= (if i + 1 < m.queues then m.IoSq(i + 1) else m.DataBuffer())
    ensures m.Descriptors() + m.queues * 2 * DESCRIPTOR <= m.IoSq(i)
  {
    var p := m.SqBytes() + m.CqBytes();
    OneMore(i, p);
    assert i + 1 == m.queues ==> m.DataBuffer() == m.IoQueues() + (i + 1) * p;
  }

  lemma {:induction false} PairFits(m: Map)
    ensures m.Driver().End() <= m.DataBuffer()
  {
    Wider(m.queues, m.Driver().Pair(), m.SqBytes() + m.CqBytes());
  }

  /** The driver's slabs never reach the data buffer, although its offsets are not the header's. */
  lemma {:induction false} SlabsBelowData(m: Map, s: Slab, size: nat)
    requires s.index < m.queues && size <= m.ioDepth
    ensures m.Descriptors() + m.queues * 2 * DESCRIPTOR <= Start(m.Driver(), s)
    ensures Extent(m.Driver(), s, size) <= m.DataBuffer()
  {
    PairFits(m);
    SlabsInside(m.Driver(), s, size);
  }

  /** The driver's offsets of a queue pair are the header's exactly when rounding to pages changes nothing
      before them. */
  lemma {:induction false} OffsetsAgreeExactly(m: Map, i: nat)
    requires i < m.queues
    ensures m.Driver().SqOffset(i) == m.IoSq(i) <==>
              && (m.queues * 2 * DESCRIPTOR) % PAGE == 0
              && (i == 0 || (m.ioDepth * SQ_ENTRY) % PAGE == (m.ioDepth * CQ_ENTRY) % PAGE == 0)
    ensures m.Driver().CqOffset(i) == m.IoCq(i) <==>
              m.Driver().SqOffset(i) == m.IoSq(i) && (m.ioDepth * SQ_ENTRY) % PAGE == 0
  {
    AlignExact(m.queues * 2 * DESCRIPTOR);
    AlignExact(m.ioDepth * SQ_ENTRY);
    AlignExact(m.ioDepth * CQ_ENTRY);
    Wider(i, m.Driver().Pair(), m.SqBytes() + m.CqBytes());
  }

  /** The driver writes queues at its own offsets, the server takes its bases from the header's. They mean
      the same bytes for every queue pair if and only if all sizes are whole pages. */
  ghost predicate SidesAgree(m: Map)
  {
    forall i: nat :: i < m.queues ==> m.Driver().SqOffset(i) == m.IoSq(i) && m.Driver().CqOffset(i) == m.IoCq(i)
  }

  lemma {:induction false} SidesAgreeExactly(m: Map)
    requires m.queues > 1
    ensures SidesAgree(m) <==>
              && (m.queues * 2 * DESCRIPTOR) % PAGE == 0
              && (m.ioDepth * SQ_ENTRY) % PAGE == (m.ioDepth * CQ_ENTRY) % PAGE == 0
  {
    forall i: nat | i < m.queues
      ensures m.Driver().SqOffset(i) == m.IoSq(i) && m.Driver().CqOffset(i) == m.IoCq(i) <==>
                && (m.queues * 2 * DESCRIPTOR) % PAGE == 0
                && (m.ioDepth * SQ_ENTRY) % PAGE == 0
                && (i == 0 || (m.ioDepth * CQ_ENTRY) % PAGE == 0)
    {
      OffsetsAgreeExactly(m, i);
    }
    if SidesAgree(m) {
      assert m.Driver().SqOffset(1) == m.IoSq(1);
    }
  }

  lemma {:induction false} AlignExact(x: nat)
    ensures Align(x) == x <==> x % PAGE == 0
  {
  }

  /** With the sizes the program is built with: every region begins where the header says, in order,
      the data buffer ends within the 64 MB, and the driver's slabs start 3 KB before the header's. */
  lemma {:induction false} ActualMap()
    ensures ACTUAL.NotifyRing() == 0x1000 && ACTUAL.AdminSq() == 0x2000 && ACTUAL.AdminCq() == 0x3000
    ensures ACTUAL.Descriptors() == 0x4000 && ACTUAL.IoQueues() == 0x5000 && ACTUAL.IoSq(1) == 0xA000
    ensures ACTUAL.DataBuffer() == 0x5_5000 && ACTUAL.DataBuffer() + DATA_BUFFER_SIZE <= SHM_SIZE
    ensures forall i: nat :: i < MAX_IO_QUEUES ==> ACTUAL.Driver().SqOffset(i) == ACTUAL.IoSq(i) - 3072
  {
    assert Align(RING_BYTES) == 4096 && Align(4096) == 4096 && Align(1024) == 4096 && Align(16384) == 16384;
    forall i: nat | i < MAX_IO_QUEUES
      ensures ACTUAL.Driver().SqOffset(i) == ACTUAL.IoSq(i) - 3072
    {
      assert ACTUAL.Driver().Pair() == 20480 == ACTUAL.SqBytes() + ACTUAL.CqBytes();
    }
  }

  /** As built the two sides do not agree: entry k of a queue is 48 submission entries, or 192 completion
      entries, further on for the server than for the driver, and the driver's submission slab begins
      inside the completion slab that the header gives the queue before. */
  lemma {:induction false} SidesShifted(i: nat, k: nat)
    requires i < MAX_IO_QUEUES
    ensures !SidesAgree(ACTUAL)
    ensures ACTUAL.IoSq(i) + k * SQ_ENTRY == ACTUAL.Driver().SqOffset(i) + (k + 48) * SQ_ENTRY
    ensures ACTUAL.IoCq(i) + k * CQ_ENTRY == ACTUAL.Driver().CqOffset(i) + (k + 192) * CQ_ENTRY
    ensures i > 0 ==> ACTUAL.IoCq(i - 1) <= ACTUAL.Driver().SqOffset(i) < ACTUAL.IoCq(i - 1) + ACTUAL.CqBytes()
  {
    ActualMap();
    assert ACTUAL.SqBytes() == 16384 && ACTUAL.CqBytes() == 4096 && ACTUAL.Driver().depth == 256;
    assert ACTUAL.Driver().SqOffset(0) == ACTUAL.IoSq(0) - 3072;
    if i > 0 {
      assert ACTUAL.IoSq(i) == ACTUAL.IoCq(i - 1) + ACTUAL.CqBytes();
    }
  }

  /** Nothing lies between the last completion slab and the data buffer but what rounding to pages left
      over: a queue there stays below the buffer exactly as long as its excess over the depth fits. */
  lemma {:induction false} LastSlabExact(m: Map, size: nat)
    requires m.queues > 0
    ensures Extent(m.Driver(), Slab(m.queues - 1, true), size) <= m.DataBuffer() <==>
              (size - m.ioDepth) * CQ_ENTRY <= m.DataBuffer() - m.Driver().End()
    ensures m.DataBuffer() - m.Driver().End() ==
              (Align(m.queues * 2 * DESCRIPTOR) - m.queues * 2 * DESCRIPTOR)
              + m.queues * (m.SqBytes() + m.CqBytes() - m.Driver().Pair())
  {
    var p, q := m.Driver().Pair(), m.SqBytes() + m.CqBytes();
    OneMore(m.queues - 1, p);
    assert m.queues * q == m.queues * p + m.queues * (q - p);
  }

  /** As built, exactly up to 448 entries. */
  lemma {:induction false} LastSlabAsBuilt(size: nat)
    ensures Extent(ACTUAL.Driver(), Slab(MAX_IO_QUEUES - 1, true), size) <= ACTUAL.DataBuffer() <==> size <= 448
  {
    ActualMap();
    assert ACTUAL.Driver().depth == 256;
  }
}

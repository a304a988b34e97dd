/** Physical region pages: the page list behind PRP1 and PRP2 (vnvme/prp.c). */
module Prp {
  import opened NvmeTypes
  import opened Bytes

  const PAGE: nat := 4096
  const LOW_LIMIT: nat := 0x10_0000
  const TOP_ADDRESS: nat := 0x1000_0000_0000

  /** Host memory reaches to the end of a page that starts at the highest valid address. */
  const HOST_SIZE: nat := TOP_ADDRESS + PAGE

  /** length bytes at an offset into a page. */
  datatype Segment = Segment(page: nat, offset: nat, length: nat) {
    function Address(): nat { page + offset }
    predicate InHost(size: nat) { Address() + length <= size }
    predicate InPage() { page % PAGE == 0 && 0 < length && offset + length <= PAGE }
  }

  datatype Parsed = Invalid | Segments(list: seq<Segment>)

  predicate ValidAddress(pa: u64, length: nat)
  {
    && pa != 0
    && pa >= LOW_LIMIT
    && (pa + length) % U64 >= pa
    && pa <= TOP_ADDRESS
  }

  function Offset(pa: nat): (r: nat) { pa % PAGE }

  function PageOf(pa: nat): (r: nat) { pa - pa % PAGE }

  function Min(a: nat, b: nat): nat { if a <= b then a else b }

  /** The segment that starts at an address, at most to the end of its page. */
  function SegmentAt(pa: nat, remaining: nat): Segment
  {
    Segment(PageOf(pa), Offset(pa), Min(PAGE - Offset(pa), remaining))
  }

  /** What is left of a transfer after the page PRP1 points into. */
  function Beyond(prp1: u64, length: u32): (r: nat)
    ensures r <= length
  {
    if PAGE - Offset(prp1) >= length then 0 else length - (PAGE - Offset(prp1))
  }

  /** numPages - 1; the rounding up is done in 32 bits. */
  function ListedPages(prp1: u64, length: u32): (r: nat)
    ensures r <= 0x10_0000
  {
    if Beyond(prp1, length) == 0 then 0
    else ((Beyond(prp1, length) + PAGE - 1) % 0x1_0000_0000) / PAGE
  }

  /** How much of a list of n entries is mapped: at most one page. */
  function MappedBytes(n: nat): (r: nat)
    ensures r <= PAGE
  {
    Min(8 * n, PAGE)
  }

  predicate EntryMapped(i: nat) { 8 * i + 8 <= PAGE }

  predicate ListInHost(host: seq<u8>, prp2: nat, n: nat)
  {
    prp2 + MappedBytes(n) <= |host|
  }

  /** Entry i of the list. The loop reads on when the list is longer than the mapped page; what it then
      finds is arbitrary, here whatever `past` holds. */
  function ListEntry(host: seq<u8>, past: seq<u64>, prp2: nat, i: nat): u64
    requires ListInHost(host, prp2, i + 1)
  {
    if EntryMapped(i) then Word64(host, prp2 + 8 * i)
    else if i < |past| then past[i]
    else 0
  }

  /** The segments of list entries i to n - 1, as long as bytes remain. */
  function FollowList(host: seq<u8>, past: seq<u64>, prp2: nat, i: nat, n: nat, remaining: nat): Parsed
    requires i <= n && ListInHost(host, prp2, n)
    decreases n - i
  {
    if i == n || remaining == 0 then Segments([])
    else
      var entry := ListEntry(host, past, prp2, i);
      if !ValidAddress(entry, PAGE) then Invalid
      else
        var s := SegmentAt(entry, remaining);
        Prepend(s, FollowList(host, past, prp2, i + 1, n, remaining - s.length))
  }

  function Prepend(s: Segment, rest: Parsed): Parsed
  {
    match rest
    case Invalid => Invalid
    case Segments(list) => Segments([s] + list)
  }

  /** The scatter/gather list of a transfer. */
  function Parse(host: seq<u8>, past: seq<u64>, prp1: u64, prp2: u64, length: u32): (r: Parsed)
    requires |host| == HOST_SIZE
  {
    if length == 0 then Segments([])
    else if !ValidAddress(prp1, PAGE) then Invalid
    else
      var first := SegmentAt(prp1, length);
      var n := ListedPages(prp1, length);
      if n == 0 then Segments([first])
      else if !ValidAddress(prp2, PAGE) then Invalid
      else if n == 1 then Segments([first, Segment(PageOf(prp2), 0, Beyond(prp1, length))])
      else Prepend(first, FollowList(host, past, prp2, 0, n, Beyond(prp1, length)))
  }

  function Total(list: seq<Segment>): nat
  {
    if list == [] then 0 else list[0].length + Total(list[1..])
  }

  // ----- What the address check means -----

  /** Between 1 MB and 16 TB. */
  predicate InRange(pa: u64) { 0x10_0000 <= pa <= 0x1000_0000_0000 }

  lemma {:induction false} ValidExactly(pa: u64, length: nat)
    requires length < 0x1_0000_0000
    ensures ValidAddress(pa, length) <==> InRange(pa)
  {
  }

  /** The 32-bit rounding is exact rounding up unless it wraps, and then there is one page only. */
  lemma {:induction false} ListedPagesExact(prp1: u64, length: u32)
    ensures var r, n := Beyond(prp1, length), ListedPages(prp1, length);
            if r + PAGE <= 0x1_0000_0000 then r <= n * PAGE < r + PAGE else n == 0
  {
  }

  // ----- Following a list -----

  ghost predicate AllEntriesValid(host: seq<u8>, past: seq<u64>, prp2: nat, i: nat, n: nat)
    requires ListInHost(host, prp2, n)
  {
    forall j: nat :: i <= j < n ==> InRange(ListEntry(host, past, prp2, j))
  }

  /** The bytes that the entries' own offsets keep out of the transfer. */
  function Skipped(host: seq<u8>, past: seq<u64>, prp2: nat, i: nat, n: nat): nat
    requires i <= n && ListInHost(host, prp2, n)
    decreases n - i
  {
    if i == n then 0 else Offset(ListEntry(host, past, prp2, i)) + Skipped(host, past, prp2, i + 1, n)
  }

  /** While more remains than the pages before the last can hold, every entry is read. */
  lemma {:induction false} FollowListSucceeds(host: seq<u8>, past: seq<u64>, prp2: nat, i: nat, n: nat, remaining: nat)
    requires i < n && ListInHost(host, prp2, n)
    requires (n - i - 1) * PAGE < remaining
    ensures FollowList(host, past, prp2, i, n, remaining).Segments? <==> AllEntriesValid(host, past, prp2, i, n)
    decreases n - i
  {
    var entry := ListEntry(host, past, prp2, i);
    ValidExactly(entry, PAGE);
    if ValidAddress(entry, PAGE) && i + 1 < n {
      FollowListSucceeds(host, past, prp2, i + 1, n, remaining - SegmentAt(entry, remaining).length);
    }
  }

  predicate FollowsEntry(s: Segment, entry: nat, last: bool)
  {
    && s.InPage()
    && s.Address() == entry
    && (last || s.offset + s.length == PAGE)
  }

  lemma {:induction false} SegmentFollows(entry: nat, remaining: nat)
    requires remaining > 0
    ensures FollowsEntry(SegmentAt(entry, remaining), entry, remaining < PAGE)
  {
  }

  /** Each entry then gives one segment, from where it points to the end of that page. */
  lemma {:induction false} FollowListShape(host: seq<u8>, past: seq<u64>, prp2: nat, i: nat, n: nat, remaining: nat)
    requires i < n && ListInHost(host, prp2, n)
    requires (n - i - 1) * PAGE < remaining
    requires FollowList(host, past, prp2, i, n, remaining).Segments?
    ensures var list := FollowList(host, past, prp2, i, n, remaining).list;
            && |list| == n - i
            && forall k :: 0 <= k < |list| ==>
                 FollowsEntry(list[k], ListEntry(host, past, prp2, i + k), k == |list| - 1)
    decreases n - i
  {
    var list := FollowList(host, past, prp2, i, n, remaining).list;
    var s := SegmentAt(ListEntry(host, past, prp2, i), remaining);
    var rest := FollowList(host, past, prp2, i + 1, n, remaining - s.length).list;
    assert list == [s] + rest;
    SegmentFollows(ListEntry(host, past, prp2, i), remaining);
    if i + 1 == n {
      assert rest == [];
    } else {
      assert remaining >= PAGE;
      FollowListShape(host, past, prp2, i + 1, n, remaining - s.length);
      forall k | 0 <= k < |list|
        ensures FollowsEntry(list[k], ListEntry(host, past, prp2, i + k), k == |list| - 1)
      {
        if k > 0 {
          assert list[k] == rest[k - 1] && i + 1 + (k - 1) == i + k;
        }
      }
    }
  }

  /** What the entries deliver is their pages less their offsets, up to what remained. */
  lemma {:induction false} FollowListDelivers(host: seq<u8>, past: seq<u64>, prp2: nat, i: nat, n: nat, remaining: nat)
    requires i < n && ListInHost(host, prp2, n)
    requires (n - i - 1) * PAGE < remaining
    requires FollowList(host, past, prp2, i, n, remaining).Segments?
    ensures Total(FollowList(host, past, prp2, i, n, remaining).list) ==
            (if remaining <= (n - i) * PAGE - Skipped(host, past, prp2, i, n) then remaining
             else (n - i) * PAGE - Skipped(host, past, prp2, i, n))
    decreases n - i
  {
    var s := SegmentAt(ListEntry(host, past, prp2, i), remaining);
    var rest := FollowList(host, past, prp2, i + 1, n, remaining - s.length).list;
    assert ([s] + rest)[1..] == rest;
    if i + 1 < n {
      FollowListDelivers(host, past, prp2, i + 1, n, remaining - s.length);
    } else {
      assert Skipped(host, past, prp2, i + 1, n) == 0;
    }
  }

  // ----- The scatter/gather list of a transfer -----

  /** A transfer is accepted exactly when every address it uses lies between 1 MB and 16 TB. */
  lemma {:induction false} ParseSucceedsExactly(host: seq<u8>, past: seq<u64>, prp1: u64, prp2: u64, length: u32)
    requires |host| == HOST_SIZE
    ensures var n := ListedPages(prp1, length);
            Parse(host, past, prp1, prp2, length).Segments? <==>
              || length == 0
              || (&& InRange(prp1)
                  && (n > 0 ==> InRange(prp2))
                  && (n > 1 ==> ListInHost(host, prp2, n) && AllEntriesValid(host, past, prp2, 0, n)))
  {
    ValidExactly(prp1, PAGE);
    ValidExactly(prp2, PAGE);
    ListedPagesExact(prp1, length);
    var n := ListedPages(prp1, length);
    if n > 1 && ValidAddress(prp2, PAGE) {
      FollowListSucceeds(host, past, prp2, 0, n, Beyond(prp1, length));
    }
  }

  // ----- Lists longer than the mapped page -----

  lemma {:induction false} SameMappedEntries(host: seq<u8>, a: seq<u64>, b: seq<u64>, prp2: nat,
                                            i: nat, n: nat, remaining: nat)
    requires i <= n && ListInHost(host, prp2, n) && 8 * n <= PAGE
    ensures FollowList(host, a, prp2, i, n, remaining) == FollowList(host, b, prp2, i, n, remaining)
    decreases n - i
  {
    if i < n && remaining > 0 {
      var s := SegmentAt(ListEntry(host, a, prp2, i), remaining);
      SameMappedEntries(host, a, b, prp2, i + 1, n, remaining - s.length);
    }
  }

  /** A list of at most one page is read from its mapping alone. */
  lemma {:induction false} OnePageIsEnough(host: seq<u8>, a: seq<u64>, b: seq<u64>, prp1: u64, prp2: u64, length: u32)
    requires |host| == HOST_SIZE && 8 * ListedPages(prp1, length) <= PAGE
    ensures Parse(host, a, prp1, prp2, length) == Parse(host, b, prp1, prp2, length)
  {
    var n := ListedPages(prp1, length);
    if n > 1 && length > 0 && ValidAddress(prp2, PAGE) {
      SameMappedEntries(host, a, b, prp2, 0, n, Beyond(prp1, length));
    }
  }

  ghost predicate MappedEntriesValid(host: seq<u8>, prp2: nat, n: nat)
    requires ListInHost(host, prp2, n)
  {
    forall j: nat :: j < n && EntryMapped(j) ==> InRange(ListEntry(host, [], prp2, j))
  }

  /** What follows the mapping does not matter to a transfer. */
  ghost predicate Determined(host: seq<u8>, prp1: u64, prp2: u64, length: u32)
    requires |host| == HOST_SIZE
  {
    forall a, b :: Parse(host, a, prp1, prp2, length) == Parse(host, b, prp1, prp2, length)
  }

  /** The code maps one page of the list and reads as many entries as the transfer has further pages. All
      that it reads lies in the mapping, and the outcome is determined, exactly when at most 512 pages
      follow the first; otherwise what happens to lie behind decides whether the transfer is accepted. */
  lemma {:induction false} OnePageListExact(host: seq<u8>, prp1: u64, prp2: u64, length: u32)
    requires |host| == HOST_SIZE && length > 0 && InRange(prp1) && InRange(prp2)
    requires Beyond(prp1, length) + PAGE <= 0x1_0000_0000
    requires ListInHost(host, prp2, ListedPages(prp1, length))
    requires MappedEntriesValid(host, prp2, ListedPages(prp1, length))
    ensures Determined(host, prp1, prp2, length) <==> Beyond(prp1, length) <= 512 * PAGE
    ensures (forall i: nat :: i < ListedPages(prp1, length) ==> EntryMapped(i)) <==> Beyond(prp1, length) <= 512 * PAGE
  {
    var n := ListedPages(prp1, length);
    ListedPagesExact(prp1, length);
    if n <= 512 {
      forall a, b
        ensures Parse(host, a, prp1, prp2, length) == Parse(host, b, prp1, prp2, length)
      {
        OnePageIsEnough(host, a, b, prp1, prp2, length);
      }
    } else {
      assert !EntryMapped(512);
      PastDecides(host, prp1, prp2, length);
    }
  }

  lemma {:induction false} PastDecides(host: seq<u8>, prp1: u64, prp2: u64, length: u32)
    requires |host| == HOST_SIZE && length > 0 && InRange(prp1) && InRange(prp2)
    requires ListInHost(host, prp2, ListedPages(prp1, length)) && ListedPages(prp1, length) > 512
    requires MappedEntriesValid(host, prp2, ListedPages(prp1, length))
    ensures !Determined(host, prp1, prp2, length)
  {
    var n := ListedPages(prp1, length);
    var bad: seq<u64>, good: seq<u64> := [], seq(n, (i: nat) => LOW_LIMIT);
    ParseSucceedsExactly(host, bad, prp1, prp2, length);
    ParseSucceedsExactly(host, good, prp1, prp2, length);
    assert ListEntry(host, bad, prp2, 512) == 0;
    forall j: nat | j < n
      ensures InRange(ListEntry(host, good, prp2, j))
    {
      if EntryMapped(j) {
        assert ListEntry(host, good, prp2, j) == ListEntry(host, [], prp2, j);
      }
    }
    assert Parse(host, bad, prp1, prp2, length) != Parse(host, good, prp1, prp2, length);
  }

  // ----- Completeness and shape -----

  /** How many bytes a page list leaves unserved is decided by the offsets of its entries: the
      transfer is complete exactly when they fit in the slack of the last page. */
  lemma {:induction false} ParseDelivers(host: seq<u8>, past: seq<u64>, prp1: u64, prp2: u64, length: u32)
    requires |host| == HOST_SIZE && Parse(host, past, prp1, prp2, length).Segments?
    ensures var n := ListedPages(prp1, length);
            var total := Total(Parse(host, past, prp1, prp2, length).list);
            && total <= length
            && (total == length <==>
                  || length == 0
                  || (&& Beyond(prp1, length) + PAGE <= 0x1_0000_0000
                      && (n > 1 ==> Skipped(host, past, prp2, 0, n) <= n * PAGE - Beyond(prp1, length))))
  {
    ListedPagesExact(prp1, length);
    var n := ListedPages(prp1, length);
    var list := Parse(host, past, prp1, prp2, length).list;
    if n > 1 && length > 0 {
      var rest := FollowList(host, past, prp2, 0, n, Beyond(prp1, length)).list;
      FollowListDelivers(host, past, prp2, 0, n, Beyond(prp1, length));
      assert list[1..] == rest;
    } else if n == 1 && length > 0 {
      assert list[1..] == [list[1]] && Total([list[1]]) == list[1].length + Total([]);
    } else if length > 0 {
      assert list[1..] == [];
    }
  }

  ghost predicate AlignedList(host: seq<u8>, past: seq<u64>, prp2: nat, n: nat)
    requires ListInHost(host, prp2, n)
  {
    forall j: nat :: j < n ==> Offset(ListEntry(host, past, prp2, j)) == 0
  }

  lemma {:induction false} AlignedSkipsNothing(host: seq<u8>, past: seq<u64>, prp2: nat, i: nat, n: nat)
    requires i <= n && ListInHost(host, prp2, n) && AlignedList(host, past, prp2, n)
    ensures Skipped(host, past, prp2, i, n) == 0
    decreases n - i
  {
    if i < n {
      AlignedSkipsNothing(host, past, prp2, i + 1, n);
    }
  }

  /** Where the k-th segment of an n+1 page transfer begins. */
  function Pointer(host: seq<u8>, past: seq<u64>, prp1: u64, prp2: u64, n: nat, k: nat): nat
    requires k <= n && (n > 1 ==> ListInHost(host, prp2, n))
  {
    if k == 0 then prp1
    else if n == 1 then PageOf(prp2)
    else ListEntry(host, past, prp2, k - 1)
  }

  /** The list has a segment for every page that the transfer spans; each keeps to its page, and
      only the last may end before its page does. PRP2 is a data page for two pages, else the list. */
  lemma {:induction false} ParseShape(host: seq<u8>, past: seq<u64>, prp1: u64, prp2: u64, length: u32)
    requires |host| == HOST_SIZE && Parse(host, past, prp1, prp2, length).Segments?
    requires 0 < length && Beyond(prp1, length) + PAGE <= 0x1_0000_0000
    ensures var list := Parse(host, past, prp1, prp2, length).list;
            var n := ListedPages(prp1, length);
            && (n > 1 ==> ListInHost(host, prp2, n))
            && |list| == n + 1 == (Offset(prp1) + length + PAGE - 1) / PAGE
            && forall k :: 0 <= k < |list| ==>
                 FollowsEntry(list[k], Pointer(host, past, prp1, prp2, n, k), k == |list| - 1)
  {
    ListedPagesExact(prp1, length);
    var n := ListedPages(prp1, length);
    var list := Parse(host, past, prp1, prp2, length).list;
    SegmentFollows(prp1, length);
    PageCount(prp1, length);
    if n > 1 {
      var rest := FollowList(host, past, prp2, 0, n, Beyond(prp1, length)).list;
      FollowListShape(host, past, prp2, 0, n, Beyond(prp1, length));
      forall k | 1 <= k < |list|
        ensures FollowsEntry(list[k], Pointer(host, past, prp1, prp2, n, k), k == |list| - 1)
      {
        assert list[k] == rest[k - 1] && 0 + (k - 1) == k - 1;
      }
    }
  }

  lemma {:induction false} PageCount(prp1: u64, length: u32)
    requires 0 < length && Beyond(prp1, length) + PAGE <= 0x1_0000_0000
    ensures ListedPages(prp1, length) + 1 == (Offset(prp1) + length + PAGE - 1) / PAGE
  {
  }

  /** With page-aligned list entries the transfer is served to the last byte, and only its first
      segment starts inside a page. */
  lemma {:induction false} AlignedListServesAll(host: seq<u8>, past: seq<u64>, prp1: u64, prp2: u64, length: u32)
    requires |host| == HOST_SIZE && Parse(host, past, prp1, prp2, length).Segments?
    requires 0 < length && Beyond(prp1, length) + PAGE <= 0x1_0000_0000
    requires var n := ListedPages(prp1, length);
             n > 1 ==> ListInHost(host, prp2, n) && AlignedList(host, past, prp2, n)
    ensures var list := Parse(host, past, prp1, prp2, length).list;
            && Total(list) == length
            && forall k :: 0 < k < |list| ==> list[k].offset == 0
  {
    var n := ListedPages(prp1, length);
    var list := Parse(host, past, prp1, prp2, length).list;
    ListedPagesExact(prp1, length);
    ParseDelivers(host, past, prp1, prp2, length);
    ParseShape(host, past, prp1, prp2, length);
    if n > 1 {
      AlignedSkipsNothing(host, past, prp2, 0, n);
      forall k | 0 < k < |list|
        ensures list[k].offset == 0
      {
        assert FollowsEntry(list[k], ListEntry(host, past, prp2, k - 1), k == |list| - 1);
        assert Offset(ListEntry(host, past, prp2, k - 1)) == 0;
        PageAndOffset(list[k]);
      }
    }
  }

  lemma {:induction false} PageAndOffset(s: Segment)
    requires s.InPage()
    ensures Offset(s.Address()) == s.offset && PageOf(s.Address()) == s.page
  {
  }

  /** A list entry that points inside its page costs a transfer of three whole pages its last byte. */
  lemma {:induction false} UnalignedListFallsShort(host: seq<u8>, past: seq<u64>)
    requires |host| == HOST_SIZE
    requires ListEntry(host, past, 0x20_0000, 0) == 0x30_0001 && ListEntry(host, past, 0x20_0000, 1) == 0x40_0000
    ensures Parse(host, past, 0x10_0000, 0x20_0000, 3 * PAGE).Segments?
    ensures Total(Parse(host, past, 0x10_0000, 0x20_0000, 3 * PAGE).list) == 3 * PAGE - 1
  {
    var n := ListedPages(0x10_0000, 3 * PAGE);
    assert Skipped(host, past, 0x20_0000, 2, n) == 0;
    ParseSucceedsExactly(host, past, 0x10_0000, 0x20_0000, 3 * PAGE);
    FollowListDelivers(host, past, 0x20_0000, 0, n, 2 * PAGE);
    var list := Parse(host, past, 0x10_0000, 0x20_0000, 3 * PAGE).list;
    assert list[1..] == FollowList(host, past, 0x20_0000, 0, n, 2 * PAGE).list;
  }

  predicate AllInHost(list: seq<Segment>, size: nat)
  {
    forall k :: 0 <= k < |list| ==> list[k].InHost(size)
  }

  lemma {:induction false} FollowListInHost(host: seq<u8>, past: seq<u64>, prp2: nat, i: nat, n: nat, remaining: nat)
    requires |host| == HOST_SIZE && i <= n && ListInHost(host, prp2, n)
    ensures FollowList(host, past, prp2, i, n, remaining).Segments? ==>
              AllInHost(FollowList(host, past, prp2, i, n, remaining).list, HOST_SIZE)
    decreases n - i
  {
    if i < n && remaining > 0 {
      var s := SegmentAt(ListEntry(host, past, prp2, i), remaining);
      FollowListInHost(host, past, prp2, i + 1, n, remaining - s.length);
    }
  }

  /** Every byte of an accepted transfer is a byte of host memory. */
  lemma {:induction false} ParseInHost(host: seq<u8>, past: seq<u64>, prp1: u64, prp2: u64, length: u32)
    requires |host| == HOST_SIZE && Parse(host, past, prp1, prp2, length).Segments?
    ensures AllInHost(Parse(host, past, prp1, prp2, length).list, HOST_SIZE)
  {
    var n := ListedPages(prp1, length);
    if n > 1 && length > 0 {
      FollowListInHost(host, past, prp2, 0, n, Beyond(prp1, length));
    }
  }

  // ----- The parser -----

  method ParsePrpList(host: array<u8>, past: seq<u64>, prp1: u64, prp2: u64, length: u32)
    returns (ok: bool, entries: array<Segment>, count: nat)
    requires host.Length == HOST_SIZE
    ensures fresh(entries) && count <= entries.Length
    ensures ok == Parse(host[..], past, prp1, prp2, length).Segments?
    ensures ok ==> entries[..count] == Parse(host[..], past, prp1, prp2, length).list
    ensures !ok ==> count == 0
  {
    ok, count := true, 0;
    entries := new Segment[0];
    if length == 0 {
      return;
    }
    if !ValidAddress(prp1, PAGE) {
      ok := false;
      return;
    }
    var n := ListedPages(prp1, length);
    entries := new Segment[n + 1](_ => Segment(0, 0, 0));
    entries[0] := SegmentAt(prp1, length);
    count := 1;
    if n == 0 {
      return;
    }
    if !ValidAddress(prp2, PAGE) {
      ok, count := false, 0;
      return;
    }
    if n == 1 {
      entries[1] := Segment(PageOf(prp2), 0, Beyond(prp1, length));
      count := 2;
      return;
    }
    ok, count := ReadList(host, past, prp2, n, Beyond(prp1, length), entries);
  }

  /** One turn of the loop: entry i of the list fills the next segment, unless its address is refused. */
  method ReadNext(host: array<u8>, past: seq<u64>, prp2: nat, i: nat, n: nat, remaining: nat,
                  entries: array<Segment>, ghost done: seq<Segment>, ghost goal: Parsed)
    returns (ok: bool, s: Segment)
    requires host.Length == HOST_SIZE && prp2 <= TOP_ADDRESS
    requires i < n && entries.Length == n + 1 && remaining > 0
    requires goal == PrependAll(done, FollowList(host[..], past, prp2, i, n, remaining))
    modifies entries
    ensures s.length <= remaining
    ensures !ok ==> goal.Invalid?
    ensures ok ==> goal == PrependAll(done + [s], FollowList(host[..], past, prp2, i + 1, n, remaining - s.length))
    ensures ok ==> entries[..i + 2] == old(entries[..i + 1]) + [s]
  {
    var entry := ReadEntry(host, past, prp2, i);
    s := SegmentAt(entry, remaining);
    ok := ValidAddress(entry, PAGE);
    if !ok {
      return;
    }
    entries[i + 1] := s;
    PrependSplit(done, s, FollowList(host[..], past, prp2, i + 1, n, remaining - s.length));
  }

  /** The loop over the list at PRP2, filling the entries after the first. */
  method ReadList(host: array<u8>, past: seq<u64>, prp2: nat, n: nat, length: nat, entries: array<Segment>)
    returns (ok: bool, count: nat)
    requires host.Length == HOST_SIZE && prp2 <= TOP_ADDRESS
    requires entries.Length == n + 1
    modifies entries
    ensures count <= entries.Length
    ensures ok == FollowList(host[..], past, prp2, 0, n, length).Segments?
    ensures ok ==> entries[..count] == [old(entries[0])] + FollowList(host[..], past, prp2, 0, n, length).list
    ensures !ok ==> count == 0
  {
    ghost var goal := FollowList(host[..], past, prp2, 0, n, length);
    ghost var done: seq<Segment> := [];
    var i: nat, remaining: nat := 0, length;
    count := 1;
    while i < n && remaining > 0
      invariant 0 <= i <= n && count == i + 1
      invariant unchanged(host)
      invariant entries[..count] == [old(entries[0])] + done
      invariant goal == PrependAll(done, FollowList(host[..], past, prp2, i, n, remaining))
      decreases n - i
    {
      var s;
      ok, s := ReadNext(host, past, prp2, i, n, remaining, entries, done, goal);
      if !ok {
        return false, 0;
      }
      done := done + [s];
      count, remaining, i := count + 1, remaining - s.length, i + 1;
    }
    ok := true;
    assert done + [] == done;
  }

  /** prpList[i] */
  method ReadEntry(host: array<u8>, past: seq<u64>, prp2: nat, i: nat) returns (entry: u64)
    requires ListInHost(host[..], prp2, i + 1)
    ensures entry == ListEntry(host[..], past, prp2, i)
  {
    if EntryMapped(i) {
      entry := ReadWord64(host, prp2 + 8 * i);
    } else {
      entry := if i < |past| then past[i] else 0;
    }
  }

  method ReadWord64(m: array<u8>, at: nat) returns (r: u64)
    requires at + 8 <= m.Length
    ensures r == Word64(m[..], at)
  {
    var low: int := ReadWord32(m, at);
    var high: int := ReadWord32(m, at + 4);
    r := low + 0x1_0000_0000 * high;
  }

  method ReadWord32(m: array<u8>, at: nat) returns (r: u32)
    requires at + 4 <= m.Length
    ensures r == Word32(m[..], at)
  {
    var b0: int, b1: int, b2: int, b3: int := m[at], m[at + 1], m[at + 2], m[at + 3];
    r := b0 + 0x100 * b1 + 0x1_0000 * b2 + 0x100_0000 * b3;
  }

  ghost function PrependAll(done: seq<Segment>, rest: Parsed): Parsed
  {
    match rest
    case Invalid => Invalid
    case Segments(list) => Segments(done + list)
  }

  lemma {:induction false} PrependSplit(done: seq<Segment>, s: Segment, rest: Parsed)
    ensures PrependAll(done, Prepend(s, rest)) == PrependAll(done + [s], rest)
  {
    if rest.Segments? {
      assert done + ([s] + rest.list) == done + [s] + rest.list;
    }
  }
}

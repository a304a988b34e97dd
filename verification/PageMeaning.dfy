/** The page list in the host's words: the addresses it put into PRP1, PRP2 and the list say where every byte of
    a transfer lies. */
module PageMeaning {
  import opened NvmeTypes
  import opened Bytes
  import opened Prp
  import opened Transfer

  // ----- Bytes of a gathered list -----

  lemma {:induction false} PrefixSum(list: seq<Segment>, i: nat)
    requires i < |list|
    ensures Total(list[..i + 1]) == list[0].length + Total(list[1..][..i])
  {
    assert list[..i + 1][0] == list[0] && list[..i + 1][1..] == list[1..][..i];
  }

  lemma {:induction false} GatherFirst(host: seq<u8>, list: seq<Segment>)
    requires list != [] && AllInHost(list, |host|)
    ensures list[0].InHost(|host|) && AllInHost(list[1..], |host|)
    ensures Gather(host, list) == Peek(host, list[0].Address(), list[0].length) + Gather(host, list[1..])
    ensures Total(list) == list[0].length + Total(list[1..])
  {
    assert list[0].InHost(|host|);
  }

  /** Byte o of segment i comes after the bytes of the segments before it. */
  lemma {:induction false} GatherAt(host: seq<u8>, list: seq<Segment>, i: nat, o: nat, at: nat)
    requires AllInHost(list, |host|) && i < |list| && o < list[i].length && at == Total(list[..i]) + o
    ensures list[i].Address() + o < |host| && at < |Gather(host, list)|
    ensures Gather(host, list)[at] == host[list[i].Address() + o]
    decreases i
  {
    assert list[i].InHost(|host|);
    GatherFirst(host, list);
    if i == 0 {
      assert list[..0] == [];
    } else {
      var rest := list[1..];
      assert rest[i - 1] == list[i];
      PrefixSum(list, i - 1);
      GatherAt(host, rest, i - 1, o, at - list[0].length);
    }
  }

  // ----- Lists of whole pages after the first -----

  ghost predicate WholePages(list: seq<Segment>, first: nat)
  {
    && list != [] && list[0].length == first
    && (forall k :: 0 < k < |list| - 1 ==> list[k].length == 4096)
    && (|list| > 1 ==> list[|list| - 1].length <= 4096)
  }

  lemma {:induction false} WholePrefix(list: seq<Segment>, first: nat, k: nat)
    requires WholePages(list, first) && k < |list| && k > 0
    ensures Total(list[..k]) == first + 4096 * (k - 1)
    decreases k
  {
    TotalSnoc(list, k - 1);
    if k == 1 {
      assert list[..0] == [];
    } else {
      WholePrefix(list, first, k - 1);
    }
  }

  lemma {:induction false} TotalSnoc(list: seq<Segment>, k: nat)
    requires k < |list|
    ensures Total(list[..k + 1]) == Total(list[..k]) + list[k].length
    decreases k
  {
    if k == 0 {
      assert list[..1][1..] == [] && list[..0] == [];
    } else {
      TotalSnoc(list[1..], k - 1);
      PrefixSum(list, k);
      PrefixSum(list, k - 1);
    }
  }

  // ----- What the host asked for -----

  /** Addresses laid out in memory, eight bytes each, least significant first. */
  function EncodeAddresses(pages: seq<u64>): (bytes: seq<u8>)
    ensures |bytes| == 8 * |pages|
    decreases |pages|
  {
    if pages == [] then [] else Le64(pages[0]) + EncodeAddresses(pages[1..])
  }

  lemma {:induction false} AddressAt(pages: seq<u64>, i: nat)
    requires i < |pages|
    ensures EncodeAddresses(pages)[8 * i..8 * i + 8] == Le64(pages[i])
    decreases |pages|
  {
    var bytes := EncodeAddresses(pages);
    assert bytes == Le64(pages[0]) + EncodeAddresses(pages[1..]);
    if i > 0 {
      AddressAt(pages[1..], i - 1);
      assert bytes[8 * i..8 * i + 8] == EncodeAddresses(pages[1..])[8 * (i - 1)..8 * (i - 1) + 8];
    }
  }

  /** How much of the first page there is behind PRP1. */
  function FirstBytes(prp1: u64): (n: nat)
    ensures 0 < n <= 4096
  {
    var at: int := prp1;
    4096 - at % 4096
  }

  /** The pages after the one PRP1 points into. */
  function FurtherPages(prp1: u64, length: u32): nat
  {
    var first, n: int := FirstBytes(prp1), length;
    if n <= first then 0 else (n - first + 4095) / 4096
  }

  /** PRP1 and PRP2 ask for these pages after the first: none, the page at PRP2, or up to 512 from a list at PRP2,
      each a page of host memory between 1 MB and 16 TB. */
  ghost predicate AsksForPages(host: seq<u8>, prp1: u64, prp2: u64, length: u32, pages: seq<u64>)
  {
    && |pages| == FurtherPages(prp1, length) <= 512
    && 0x10_0000 <= prp1 <= 0x1000_0000_0000 && (pages != [] ==> 0x10_0000 <= prp2 <= 0x1000_0000_0000)
    && (forall k :: 0 <= k < |pages| ==> 0x10_0000 <= pages[k] <= 0x1000_0000_0000 && pages[k] % 4096 == 0)
    && (|pages| == 1 ==> pages[0] == prp2)
    && (|pages| > 1 ==>
          prp2 + 8 * |pages| <= |host| && host[prp2..prp2 + 8 * |pages|] == EncodeAddresses(pages))
  }

  lemma {:induction false} PagesCounted(prp1: u64, length: u32)
    requires FurtherPages(prp1, length) <= 512
    ensures ListedPages(prp1, length) == FurtherPages(prp1, length)
    ensures Beyond(prp1, length) + PAGE <= 0x1_0000_0000
  {
    assert Offset(prp1) == prp1 % 4096;
  }

  lemma {:induction false} ListReads(host: seq<u8>, past: seq<u64>, prp2: u64, pages: seq<u64>, i: nat)
    requires i < |pages| <= 512 && prp2 + 8 * |pages| <= |host|
    requires host[prp2..prp2 + 8 * |pages|] == EncodeAddresses(pages)
    ensures ListInHost(host, prp2, i + 1) && ListEntry(host, past, prp2, i) == pages[i]
  {
    AddressAt(pages, i);
    SliceSlice(host, prp2, 8 * |pages|, 8 * i, 8 * i + 8);
    ReadsLe64(host, prp2 + 8 * i, pages[i]);
  }

  lemma {:induction false} AllRead(host: seq<u8>, past: seq<u64>, prp2: u64, pages: seq<u64>)
    requires |pages| <= 512 && prp2 + 8 * |pages| <= |host|
    requires host[prp2..prp2 + 8 * |pages|] == EncodeAddresses(pages)
    ensures ListInHost(host, prp2, |pages|)
    ensures forall i: nat :: i < |pages| ==> ListEntry(host, past, prp2, i) == pages[i]
  {
    forall i: nat | i < |pages|
      ensures ListInHost(host, prp2, |pages|) && ListEntry(host, past, prp2, i) == pages[i]
    {
      ListReads(host, past, prp2, pages, i);
    }
  }

  /** Such a request is accepted, and its segments are the rest of the first page and then the pages. */
  lemma {:induction false} PagesAccepted(host: seq<u8>, past: seq<u64>, prp1: u64, prp2: u64, length: u32,
                                         pages: seq<u64>)
    requires |host| == HOST_SIZE && length > 0 && AsksForPages(host, prp1, prp2, length, pages)
    ensures var parsed := Parse(host, past, prp1, prp2, length);
            && parsed.Segments? && |parsed.list| == |pages| + 1 && Total(parsed.list) == length
            && parsed.list[0].Address() == prp1
            && (forall k :: 0 < k <= |pages| ==> parsed.list[k].Address() == pages[k - 1])
            && if pages == [] then parsed.list[0].length <= FirstBytes(prp1)
               else WholePages(parsed.list, FirstBytes(prp1))
  {
    var n := |pages|;
    PagesCounted(prp1, length);
    if n > 1 {
      AllRead(host, past, prp2, pages);
    }
    ParseSucceedsExactly(host, past, prp1, prp2, length);
    ParseShape(host, past, prp1, prp2, length);
    AlignedListServesAll(host, past, prp1, prp2, length);
    PagesPlaced(host, past, prp1, prp2, length, pages);
  }

  lemma {:induction false} PagesPlaced(host: seq<u8>, past: seq<u64>, prp1: u64, prp2: u64, length: u32,
                                       pages: seq<u64>)
    requires |host| == HOST_SIZE && length > 0 && AsksForPages(host, prp1, prp2, length, pages)
    requires Parse(host, past, prp1, prp2, length).Segments?
    requires ListedPages(prp1, length) == |pages| && Beyond(prp1, length) + PAGE <= 0x1_0000_0000
    ensures var list := Parse(host, past, prp1, prp2, length).list;
            && |list| == |pages| + 1 && list[0].Address() == prp1
            && (forall k :: 0 < k <= |pages| ==> list[k].Address() == pages[k - 1])
            && if pages == [] then list[0].length <= FirstBytes(prp1) else WholePages(list, FirstBytes(prp1))
  {
    var n := |pages|;
    var list := Parse(host, past, prp1, prp2, length).list;
    ParseShape(host, past, prp1, prp2, length);
    if n > 1 {
      AllRead(host, past, prp2, pages);
    }
    assert FollowsEntry(list[0], Pointer(host, past, prp1, prp2, n, 0), n == 0);
    PageAndOffset(list[0]);
    forall k | 0 < k <= n
      ensures list[k].Address() == pages[k - 1] && (k < n ==> list[k].length == 4096)
    {
      assert FollowsEntry(list[k], Pointer(host, past, prp1, prp2, n, k), k == n);
      PageAndOffset(list[k]);
    }
  }

  /** Byte r of the k-th page of the transfer; the first page starts at PRP1. */
  function Nth(prp1: u64, k: nat, r: nat): nat
  {
    if k == 0 then r else FirstBytes(prp1) + 4096 * (k - 1) + r
  }

  /** Every byte of the transfer is where the host said: byte r of its k-th page is what is gathered there. */
  lemma {:induction false} TransferMeans(host: seq<u8>, past: seq<u64>, prp1: u64, prp2: u64, length: u32,
                                         pages: seq<u64>, k: nat, r: nat)
    requires |host| == HOST_SIZE && AsksForPages(host, prp1, prp2, length, pages)
    requires r < (if k == 0 then FirstBytes(prp1) else 4096) && Nth(prp1, k, r) < length
    ensures var parsed, at := Parse(host, past, prp1, prp2, length), Nth(prp1, k, r);
            && parsed.Segments? && AllInHost(parsed.list, |host|) && |Gather(host, parsed.list)| == length
            && k <= |pages| && (if k == 0 then prp1 else pages[k - 1]) + r < |host|
            && Gather(host, parsed.list)[at] == host[(if k == 0 then prp1 else pages[k - 1]) + r]
  {
    PagesAccepted(host, past, prp1, prp2, length, pages);
    ParseInHost(host, past, prp1, prp2, length);
    var list := Parse(host, past, prp1, prp2, length).list;
    NthByte(host, list, FirstBytes(prp1), k, r, Nth(prp1, k, r));
  }

  lemma {:induction false} NthByte(host: seq<u8>, list: seq<Segment>, first: nat, k: nat, r: nat, at: nat)
    requires AllInHost(list, |host|) && at < Total(list)
    requires if |list| == 1 then list[0].length <= first else WholePages(list, first)
    requires if k == 0 then at == r < first else at == first + 4096 * (k - 1) + r && r < 4096
    ensures k < |list| && list[k].Address() + r < |host| && Gather(host, list)[at] == host[list[k].Address() + r]
  {
    NthPlace(list, first, k, r, at);
    GatherAt(host, list, k, r, at);
  }

  /** The segment that holds the byte. */
  lemma {:induction false} NthPlace(list: seq<Segment>, first: nat, k: nat, r: nat, at: nat)
    requires at < Total(list) && if |list| == 1 then list[0].length <= first else WholePages(list, first)
    requires if k == 0 then at == r < first else at == first + 4096 * (k - 1) + r && r < 4096
    ensures k < |list| && r < list[k].length && at == Total(list[..k]) + r
  {
    assert list[..0] == [];
    if |list| == 1 {
      TotalSnoc(list, 0);
      assert list[..1] == list;
    } else if k > 0 {
      PageAt(list, first, k - 1, r);
    }
  }

  lemma {:induction false} PageAt(list: seq<Segment>, first: nat, q: nat, r: nat)
    requires |list| > 1 && WholePages(list, first) && first + 4096 * q + r < Total(list) && r < 4096
    ensures q + 1 < |list| && r < list[q + 1].length && Total(list[..q + 1]) == first + 4096 * q
  {
    LastPage(list, first);
    WholePrefix(list, first, q + 1);
  }

  lemma {:induction false} LastPage(list: seq<Segment>, first: nat)
    requires |list| > 1 && WholePages(list, first)
    ensures Total(list) == first + 4096 * (|list| - 2) + list[|list| - 1].length
  {
    var n := |list| - 1;
    TotalSnoc(list, n);
    assert list[..n + 1] == list;
    WholePrefix(list, first, n);
  }
}

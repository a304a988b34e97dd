/** Moving data between a buffer and the scattered pages of host memory. */
module Transfer {
  import opened NvmeTypes
  import opened Bytes
  import opened Prp

  /** The bytes of a scatter/gather list, in order. */
  function Gather(host: seq<u8>, list: seq<Segment>): (r: seq<u8>)
    requires AllInHost(list, |host|)
    ensures |r| == Total(list)
    decreases |list|
  {
    if list == [] then []
    else
      assert list[0].InHost(|host|);
      Peek(host, list[0].Address(), list[0].length) + Gather(host, list[1..])
  }

  /** Host memory after the segments are filled from data, in order. */
  function Scatter(host: seq<u8>, list: seq<Segment>, data: seq<u8>): (r: seq<u8>)
    requires AllInHost(list, |host|) && Total(list) <= |data|
    ensures |r| == |host|
    decreases |list|
  {
    if list == [] then host
    else
      assert list[0].InHost(|host|);
      var n := list[0].length;
      Scatter(Poke(host, list[0].Address(), data[..n]), list[1..], data[n..])
  }

  predicate Within(s: Segment, k: int) { s.Address() <= k < s.Address() + s.length }

  predicate Touches(list: seq<Segment>, k: int)
  {
    exists j :: 0 <= j < |list| && Within(list[j], k)
  }

  predicate Apart(s: Segment, t: Segment)
  {
    s.Address() + s.length <= t.Address() || t.Address() + t.length <= s.Address()
  }

  predicate PairwiseApart(list: seq<Segment>)
  {
    forall i, j :: 0 <= i < j < |list| ==> Apart(list[i], list[j])
  }

  /** Bytes of host memory outside the page list are not changed. */
  lemma {:induction false} ScatterSparesTheRest(host: seq<u8>, list: seq<Segment>, data: seq<u8>, k: nat)
    requires AllInHost(list, |host|) && Total(list) <= |data|
    requires k < |host| && !Touches(list, k)
    ensures Scatter(host, list, data)[k] == host[k]
    decreases |list|
  {
    if list != [] {
      assert list[0].InHost(|host|) && !Within(list[0], k);
      assert !Touches(list[1..], k) by {
        forall j | 0 <= j < |list[1..]|
          ensures !Within(list[1..][j], k)
        {
          assert list[1..][j] == list[1 + j];
        }
      }
      var n := list[0].length;
      ScatterSparesTheRest(Poke(host, list[0].Address(), data[..n]), list[1..], data[n..], k);
    }
  }

  /** Filling the later segments leaves the first one's bytes. */
  lemma {:induction false} FirstStays(h: seq<u8>, list: seq<Segment>, data: seq<u8>)
    requires list != [] && AllInHost(list, |h|) && PairwiseApart(list) && Total(list[1..]) <= |data|
    ensures list[0].InHost(|h|)
    ensures Peek(Scatter(h, list[1..], data), list[0].Address(), list[0].length)
            == Peek(h, list[0].Address(), list[0].length)
  {
    var rest := list[1..];
    assert list[0].InHost(|h|);
    forall k: nat | Within(list[0], k)
      ensures Scatter(h, rest, data)[k] == h[k]
    {
      assert !Touches(rest, k) by {
        forall j | 0 <= j < |rest|
          ensures !Within(rest[j], k)
        {
          assert rest[j] == list[1 + j] && Apart(list[0], list[1 + j]);
        }
      }
      ScatterSparesTheRest(h, rest, data, k);
    }
  }

  lemma {:induction false} SplitPrefix(data: seq<u8>, n: nat, m: nat)
    requires n + m <= |data|
    ensures data[..n] + data[n..][..m] == data[..n + m]
  {
  }

  lemma {:induction false} RestApart(list: seq<Segment>, size: nat)
    requires list != [] && AllInHost(list, size) && PairwiseApart(list)
    ensures list[0].InHost(size) && AllInHost(list[1..], size) && PairwiseApart(list[1..])
  {
  }

  /** The first segment of a scattered list reads back. */
  lemma {:induction false} FirstReadsBack(host: seq<u8>, list: seq<Segment>, data: seq<u8>)
    requires list != [] && AllInHost(list, |host|) && Total(list) <= |data| && PairwiseApart(list)
    ensures list[0].InHost(|host|)
    ensures Peek(Scatter(host, list, data), list[0].Address(), list[0].length) == data[..list[0].length]
  {
    assert list[0].InHost(|host|);
    var n, at := list[0].length, list[0].Address();
    FirstStays(Poke(host, at, data[..n]), list, data[n..]);
    PeekPoke(host, at, data[..n]);
  }

  /** What was scattered over pages that do not overlap is gathered again from them. */
  lemma {:induction false} GatherScatter(host: seq<u8>, list: seq<Segment>, data: seq<u8>)
    requires AllInHost(list, |host|) && Total(list) <= |data| && PairwiseApart(list)
    ensures Gather(Scatter(host, list, data), list) == data[..Total(list)]
    decreases |list|
  {
    if list != [] {
      RestApart(list, |host|);
      FirstReadsBack(host, list, data);
      var n := list[0].length;
      GatherScatter(Poke(host, list[0].Address(), data[..n]), list[1..], data[n..]);
      SplitPrefix(data, n, Total(list[1..]));
    }
  }

  lemma {:induction false} GatherStep(host: seq<u8>, list: seq<Segment>, i: nat)
    requires AllInHost(list, |host|) && i < |list|
    ensures list[i].InHost(|host|)
    ensures Gather(host, list[i..]) == Peek(host, list[i].Address(), list[i].length) + Gather(host, list[i + 1..])
    ensures Total(list[i..]) == list[i].length + Total(list[i + 1..])
  {
    assert list[i..][0] == list[i] && list[i..][1..] == list[i + 1..];
  }

  lemma {:induction false} GatherEnds(host: seq<u8>, list: seq<Segment>, i: nat, done: seq<u8>)
    requires AllInHost(list, |host|) && i <= |list| && (i == |list| || Total(list[i..]) == 0)
    ensures done + Gather(host, list[i..]) == done
  {
    assert i == |list| ==> list[i..] == [];
    assert |Gather(host, list[i..])| == Total(list[i..]);
  }

  /** The copy loop of Write and Compare: host pages into a buffer. */
  method GatherInto(host: array<u8>, entries: array<Segment>, count: nat, dst: array<u8>, at: nat, total: nat)
    requires count <= entries.Length && AllInHost(entries[..count], host.Length)
    requires Total(entries[..count]) <= total && at + total <= dst.Length
    requires dst != host
    modifies dst
    ensures dst[..] == Poke(old(dst[..]), at, Gather(host[..], entries[..count]))
  {
    ghost var list, h, was := entries[..count], host[..], dst[..];
    ghost var done: seq<u8> := [];
    var i: nat, offset: nat := 0, 0;
    assert list[0..] == list;
    assert dst[..] == Poke(was, at, done);
    while i < count && offset < total
      invariant i <= count && offset == |done|
      invariant unchanged(host, entries)
      invariant offset + Total(list[i..]) <= total
      invariant Gather(h, list) == done + Gather(h, list[i..])
      invariant dst[..] == Poke(was, at, done)
    {
      assert entries[i] == list[i];
      offset, done := CopyIn(host, list, i, entries[i], dst, at, offset, total, done, was);
      i := i + 1;
    }
    GatherEnds(h, list, i, done);
  }

  /** One turn of the loop: segment s of the list is appended. */
  method CopyIn(host: array<u8>, ghost list: seq<Segment>, ghost i: nat, s: Segment, dst: array<u8>,
                at: nat, offset: nat, total: nat, ghost done: seq<u8>, ghost was: seq<u8>)
    returns (next: nat, ghost more: seq<u8>)
    requires AllInHost(list, host.Length) && i < |list| && s == list[i]
    requires offset == |done| && offset + Total(list[i..]) <= total
    requires at + total <= dst.Length == |was| && dst != host
    requires dst[..] == Poke(was, at, done)
    modifies dst
    ensures next == |more| && next + Total(list[i + 1..]) <= total
    ensures done + Gather(host[..], list[i..]) == more + Gather(host[..], list[i + 1..])
    ensures dst[..] == Poke(was, at, more)
  {
    ghost var h := host[..];
    GatherStep(h, list, i);
    var size := Min(s.length, total - offset);
    ghost var piece := Peek(h, s.Address(), size);
    Copy(dst, at + offset, host, s.Address(), size);
    PokeTwice(was, at, done, piece);
    more, next := done + piece, offset + size;
    ghost var rest := Gather(h, list[i + 1..]);
    assert done + (piece + rest) == more + rest;
  }

  lemma {:induction false} ScatterStep(host: seq<u8>, list: seq<Segment>, i: nat, data: seq<u8>)
    requires AllInHost(list, |host|) && i < |list| && Total(list[i..]) <= |data|
    ensures list[i].InHost(|host|) && list[i].length <= |data|
    ensures Total(list[i..]) == list[i].length + Total(list[i + 1..])
    ensures Scatter(host, list[i..], data) ==
            Scatter(Poke(host, list[i].Address(), data[..list[i].length]), list[i + 1..], data[list[i].length..])
  {
    assert list[i..][0] == list[i] && list[i..][1..] == list[i + 1..];
  }

  lemma {:induction false} ScatterNothing(host: seq<u8>, list: seq<Segment>, data: seq<u8>)
    requires AllInHost(list, |host|) && Total(list) == 0
    ensures Scatter(host, list, data) == host
    decreases |list|
  {
    if list != [] {
      assert list[0].InHost(|host|) && list[0].length == 0;
      assert Poke(host, list[0].Address(), data[..0]) == host;
      ScatterNothing(host, list[1..], data[0..]);
    }
  }

  lemma {:induction false} ScatterEnds(host: seq<u8>, list: seq<Segment>, i: nat, todo: seq<u8>)
    requires AllInHost(list, |host|) && i <= |list| && Total(list[i..]) <= |todo|
    requires i == |list| || todo == []
    ensures Scatter(host, list[i..], todo) == host
  {
    assert i == |list| ==> list[i..] == [];
    ScatterNothing(host, list[i..], todo);
  }

  /** The copy loop of Read: a buffer out to host pages. */
  method ScatterFrom(src: array<u8>, at: nat, total: nat, host: array<u8>, entries: array<Segment>, count: nat)
    requires count <= entries.Length && AllInHost(entries[..count], host.Length)
    requires Total(entries[..count]) <= total && at + total <= src.Length
    requires src != host
    modifies host
    ensures host[..] == Scatter(old(host[..]), entries[..count], Peek(src[..], at, total))
  {
    ghost var list, was := entries[..count], src[..];
    ghost var todo := Peek(was, at, total);
    ghost var goal := Scatter(host[..], list, todo);
    var i: nat, offset: nat := 0, 0;
    assert list[0..] == list;
    while i < count && offset < total
      invariant i <= count && offset <= total
      invariant unchanged(src, entries)
      invariant todo == Peek(was, at + offset, total - offset)
      invariant Total(list[i..]) <= |todo|
      invariant goal == Scatter(host[..], list[i..], todo)
    {
      offset, todo := CopyOut(src, at, offset, total, host, list, i, entries[i], todo, goal);
      i := i + 1;
    }
    assert i == |list| || |todo| == 0;
    ScatterEnds(host[..], list, i, todo);
  }

  /** One turn of the loop: segment s of the list is filled. */
  method CopyOut(src: array<u8>, at: nat, offset: nat, total: nat, host: array<u8>,
                 ghost list: seq<Segment>, ghost i: nat, s: Segment, ghost todo: seq<u8>, ghost goal: seq<u8>)
    returns (next: nat, ghost rest: seq<u8>)
    requires AllInHost(list, host.Length) && i < |list| && s == list[i]
    requires offset <= total && at + total <= src.Length && src != host
    requires todo == Peek(src[..], at + offset, total - offset)
    requires Total(list[i..]) <= |todo|
    requires goal == Scatter(host[..], list[i..], todo)
    modifies host
    ensures next <= total && rest == Peek(src[..], at + next, total - next)
    ensures Total(list[i + 1..]) <= |rest|
    ensures goal == Scatter(host[..], list[i + 1..], rest)
  {
    ghost var h, was := host[..], src[..];
    ScatterStep(h, list, i, todo);
    var size := Min(s.length, total - offset);
    ghost var piece := todo[..size];
    assert piece == Peek(was, at + offset, size);
    rest := todo[size..];
    next := offset + size;
    assert rest == Peek(was, at + next, total - next);
    Copy(host, s.Address(), src, at + offset, size);
    assert src[..] == was;
    assert host[..] == Poke(h, s.Address(), piece);
  }
}

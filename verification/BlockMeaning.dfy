/** The I/O commands in the words of the command itself: CDW10 to CDW12 name logical blocks, a list of ranges is
    laid out in host memory, and what the commands do is said block by block and byte by byte. */
module BlockMeaning {
  import opened NvmeTypes
  import opened Bytes
  import opened Prp
  import opened Transfer
  import opened BlockCommands
  import opened BlockLaws
  import StorageMedia

  // ----- Blocks of a byte array -----

  predicate HasBlock(m: seq<u8>, blockSize: nat, b: nat) { b * blockSize + blockSize <= |m| }

  /** The b-th block. */
  function Block(m: seq<u8>, blockSize: nat, b: nat): (r: seq<u8>)
    requires HasBlock(m, blockSize, b)
    ensures |r| == blockSize
  {
    m[b * blockSize..b * blockSize + blockSize]
  }

  lemma {:induction false} BlockEnds(b: nat, total: nat, blockSize: nat)
    requires b < total
    ensures b * blockSize + blockSize <= total * blockSize
  {
    FitsBytes(b, 1, blockSize, total);
  }

  lemma {:induction false} BlockSum(b: nat, i: nat, blockSize: nat)
    ensures (b + i) * blockSize == b * blockSize + i * blockSize
  {
  }

  predicate Blocks(m: seq<u8>, blockSize: nat, n: nat) { |m| == n * blockSize }

  lemma {:induction false} BlockThere(m: seq<u8>, blockSize: nat, n: nat, b: nat)
    requires Blocks(m, blockSize, n) && b < n
    ensures HasBlock(m, blockSize, b)
  {
    BlockEnds(b, n, blockSize);
  }

  /** Block j lies before, in, or behind n blocks from block b on. */
  lemma {:induction false} BlockPlace(blockSize: nat, b: nat, n: nat, j: nat)
    ensures j < b ==> j * blockSize + blockSize <= b * blockSize
    ensures b <= j ==> j * blockSize == b * blockSize + (j - b) * blockSize
    ensures b <= j < b + n ==> (j - b) * blockSize + blockSize <= n * blockSize
    ensures b + n <= j ==> b * blockSize + n * blockSize <= j * blockSize
  {
    if j < b {
      BlockEnds(j, b, blockSize);
    } else {
      BlockSum(b, j - b, blockSize);
      if j < b + n {
        BlockEnds(j - b, n, blockSize);
      } else {
        BlockSum(b, n, blockSize);
        BlockSum(b + n, j - b - n, blockSize);
      }
    }
  }

  lemma {:induction false} PokeOutside(m: seq<u8>, at: nat, data: seq<u8>, p: nat, size: nat)
    requires at + |data| <= |m| && p + size <= |m| && (p + size <= at || at + |data| <= p)
    ensures |Poke(m, at, data)| == |m|
    ensures Poke(m, at, data)[p..p + size] == m[p..p + size]
  {
  }

  lemma {:induction false} PokeInside(m: seq<u8>, at: nat, data: seq<u8>, p: nat, d: nat, size: nat)
    requires at + |data| <= |m| && d + size <= |data| && p == at + d
    ensures |Poke(m, at, data)| == |m|
    ensures Poke(m, at, data)[p..p + size] == data[d..d + size]
  {
  }

  /** A block of a write, and one apart from it: at is where the write starts, p where the block does. */
  lemma {:induction false} BlockInside(m: seq<u8>, blockSize: nat, at: nat, data: seq<u8>, j: nat, i: nat, p: nat,
                                       d: nat)
    requires at + |data| <= |m| && p == j * blockSize && d == i * blockSize && p == at + d
    requires d + blockSize <= |data|
    ensures HasBlock(m, blockSize, j) && HasBlock(Poke(m, at, data), blockSize, j) && HasBlock(data, blockSize, i)
    ensures Block(Poke(m, at, data), blockSize, j) == Block(data, blockSize, i)
  {
    PokeInside(m, at, data, p, d, blockSize);
  }

  lemma {:induction false} BlockOutside(m: seq<u8>, blockSize: nat, at: nat, data: seq<u8>, j: nat, p: nat)
    requires at + |data| <= |m| && p == j * blockSize && p + blockSize <= |m|
    requires p + blockSize <= at || at + |data| <= p
    ensures HasBlock(m, blockSize, j) && HasBlock(Poke(m, at, data), blockSize, j)
    ensures Block(Poke(m, at, data), blockSize, j) == Block(m, blockSize, j)
  {
    PokeOutside(m, at, data, p, blockSize);
  }

  /** Where block j lies in an array of `total` blocks and in a write of n of them from block b on. */
  lemma {:induction false} PokePlace(blockSize: nat, total: nat, b: nat, n: nat, j: nat, at: nat, length: nat,
                                     size: nat, p: nat)
    requires at == b * blockSize && length == n * blockSize && size == total * blockSize && p == j * blockSize
    requires b + n <= total && j < total
    ensures at + length <= size && p + blockSize <= size
    ensures b <= j < b + n ==> at <= p && (j - b) * blockSize == p - at && p - at + blockSize <= length
    ensures !(b <= j < b + n) ==> p + blockSize <= at || at + length <= p
  {
    FitsBytes(b, n, blockSize, total);
    BlockEnds(j, total, blockSize);
    BlockPlace(blockSize, b, n, j);
  }

  /** n blocks written at block b are found there, and no other block has changed. */
  lemma {:induction false} PokeBlock(m: seq<u8>, blockSize: nat, total: nat, b: nat, data: seq<u8>, n: nat, j: nat)
    requires Blocks(m, blockSize, total) && Blocks(data, blockSize, n) && b + n <= total && j < total
    ensures b * blockSize + |data| <= |m|
    ensures HasBlock(m, blockSize, j) && HasBlock(Poke(m, b * blockSize, data), blockSize, j)
    ensures b <= j < b + n ==> HasBlock(data, blockSize, j - b)
    ensures Block(Poke(m, b * blockSize, data), blockSize, j) ==
            if b <= j < b + n then Block(data, blockSize, j - b) else Block(m, blockSize, j)
  {
    var at, p := b * blockSize, j * blockSize;
    PokePlace(blockSize, total, b, n, j, at, |data|, |m|, p);
    if b <= j < b + n {
      BlockInside(m, blockSize, at, data, j, j - b, p, p - at);
    } else {
      BlockOutside(m, blockSize, at, data, j, p);
    }
  }

  lemma {:induction false} PeekBlock(m: seq<u8>, blockSize: nat, total: nat, b: nat, n: nat, i: nat)
    requires Blocks(m, blockSize, total) && b + n <= total && i < n
    ensures b * blockSize + n * blockSize <= |m|
    ensures HasBlock(m, blockSize, b + i) && HasBlock(Peek(m, b * blockSize, n * blockSize), blockSize, i)
    ensures Block(Peek(m, b * blockSize, n * blockSize), blockSize, i) == Block(m, blockSize, b + i)
  {
    FitsBytes(b, n, blockSize, total);
    BlockThere(m, blockSize, total, b + i);
    BlockEnds(i, n, blockSize);
    BlockSum(b, i, blockSize);
    SliceSlice(m, b * blockSize, n * blockSize, i * blockSize, i * blockSize + blockSize);
  }

  /** The block that byte k lies in. */
  lemma {:induction false} FindBlock(k: nat, n: nat, blockSize: nat) returns (i: nat)
    requires k < n * blockSize && n > 0
    ensures i < n && i * blockSize <= k < i * blockSize + blockSize
    decreases n
  {
    BlockSum(n - 1, 1, blockSize);
    if k >= (n - 1) * blockSize {
      i := n - 1;
    } else {
      assert n > 1;
      i := FindBlock(k, n - 1, blockSize);
    }
  }

  lemma {:induction false} SameBlocksSame(a: seq<u8>, b: seq<u8>, blockSize: nat, n: nat)
    requires Blocks(a, blockSize, n) && Blocks(b, blockSize, n)
    requires forall i: nat :: i < n && HasBlock(a, blockSize, i) && HasBlock(b, blockSize, i) ==>
               Block(a, blockSize, i) == Block(b, blockSize, i)
    ensures a == b
  {
    forall k | 0 <= k < |a|
      ensures a[k] == b[k]
    {
      assert n > 0;
      var i := FindBlock(k, n, blockSize);
      BlockThere(a, blockSize, n, i);
      BlockThere(b, blockSize, n, i);
      assert Block(a, blockSize, i)[k - i * blockSize] == Block(b, blockSize, i)[k - i * blockSize];
    }
  }

  // ----- Read, Write, Compare, Write Zeroes -----

  /** The command's words name n blocks from block b on: CDW10 is the low word of the block number, CDW11 the
      high one, and the low half of CDW12 the count less one, which here is not the largest. */
  predicate NamesBlocks(cmd: Command, b: nat, n: nat)
  {
    var low: int, high: int, count: int := cmd.cdw10, cmd.cdw11, cmd.cdw12;
    b == low + 0x1_0000_0000 * high && n == count % 0x1_0000 + 1 < 0x1_0000
  }

  lemma {:induction false} NamesBytes(t: Target, cmd: Command, b: nat, n: nat)
    requires t.Sound() && NamesBlocks(cmd, b, n)
    ensures Slba(cmd) == b && Nlb(cmd) == n
    ensures At(t, cmd) == b * t.blockSize && Length(t, cmd) == n * t.blockSize
  {
  }

  lemma {:induction false} RangeAnswers(t: Target, cmd: Command, b: nat, n: nat)
    requires t.Sound() && Checked(t, cmd) && NamesBlocks(cmd, b, n)
    ensures LbaInRange(Slba(cmd), Nlb(cmd), t.totalBlocks) <==> b + n <= t.totalBlocks
    ensures Length(t, cmd) == n * t.blockSize > 0
  {
    NamesBytes(t, cmd, b, n);
    assert n * t.blockSize > 0;
  }

  /** What the commands answer, in order of precedence. */
  lemma {:induction false} ReadAnswers(t: Target, host: seq<u8>, past: seq<u64>, cmd: Command, b: nat, n: nat)
    requires t.Sound() && Checked(t, cmd) && |host| == HOST_SIZE && NamesBlocks(cmd, b, n)
    ensures var buffered := t.media.Media? && t.media.kind == StorageMedia.File;
            var long, refused := n * t.blockSize > 0x20_0000, PageList(t, host, past, cmd).Invalid?;
            Read(t, host, past, cmd).status ==
            if b + n > t.totalBlocks then Status(0, 0x80) else if buffered && long then Status(0, 0x02)
            else if refused then Status(0, 0x06) else Status(0, 0x00)
  {
    RangeAnswers(t, cmd, b, n);
  }

  lemma {:induction false} WriteAnswers(t: Target, host: seq<u8>, past: seq<u64>, cmd: Command, b: nat, n: nat)
    requires t.Sound() && Checked(t, cmd) && |host| == HOST_SIZE && NamesBlocks(cmd, b, n)
    ensures var buffered := t.media.Media? && t.media.kind == StorageMedia.File;
            var long, refused := n * t.blockSize > 0x20_0000, PageList(t, host, past, cmd).Invalid?;
            Write(t, host, past, cmd).status ==
            if b + n > t.totalBlocks then Status(0, 0x80)
            else if (buffered || t.media.NoMedia?) && long then Status(0, 0x02)
            else if refused then Status(0, 0x06)
            else if buffered && t.media.readOnly then Status(2, 0x80) else Status(0, 0x00)
  {
    RangeAnswers(t, cmd, b, n);
  }

  lemma {:induction false} ZeroesAnswers(t: Target, cmd: Command, b: nat, n: nat)
    requires t.Sound() && Checked(t, cmd) && NamesBlocks(cmd, b, n)
    ensures WriteZeroes(t, cmd).status ==
            if b + n > t.totalBlocks then Status(0, 0x80)
            else if t.media.Media? && t.media.readOnly then Status(2, 0x80) else Status(0, 0x00)
  {
    RangeAnswers(t, cmd, b, n);
  }

  lemma {:induction false} CompareAnswers(t: Target, host: seq<u8>, past: seq<u64>, cmd: Command, b: nat, n: nat)
    requires t.Sound() && Checked(t, cmd) && |host| == HOST_SIZE && NamesBlocks(cmd, b, n)
    ensures var long, refused := n * t.blockSize > 0x20_0000, PageList(t, host, past, cmd).Invalid?;
            && (Compare(t, host, past, cmd) in {Status(0, 0x00), Status(2, 0x85)} <==>
                  b + n <= t.totalBlocks && !long && !refused)
            && (b + n > t.totalBlocks ==> Compare(t, host, past, cmd) == Status(0, 0x80))
            && (b + n <= t.totalBlocks && long ==> Compare(t, host, past, cmd) == Status(0, 0x02))
            && (b + n <= t.totalBlocks && !long && refused ==> Compare(t, host, past, cmd) == Status(0, 0x06))
  {
    RangeAnswers(t, cmd, b, n);
  }

  lemma {:induction false} WriteBytes(t: Target, host: seq<u8>, past: seq<u64>, cmd: Command, at: nat)
    requires t.Sound() && t.media.Media? && Checked(t, cmd) && |host| == HOST_SIZE
    requires Delivers(t, host, past, cmd) && Write(t, host, past, cmd).status == SUCCESS && at == At(t, cmd)
    ensures LbaInRange(Slba(cmd), Nlb(cmd), t.totalBlocks) && at + Length(t, cmd) <= |t.media.bytes|
    ensures |Payload(t, host, past, cmd)| == Length(t, cmd)
    ensures Write(t, host, past, cmd).media.bytes == Poke(t.media.bytes, at, Payload(t, host, past, cmd))
  {
    GatherWhole(t, host, past, cmd);
    InRangeFits(t, cmd);
  }

  lemma {:induction false} InRangeSums(t: Target, cmd: Command)
    requires Checked(t, cmd) && LbaInRange(Slba(cmd), Nlb(cmd), t.totalBlocks)
    ensures Slba(cmd) + Nlb(cmd) <= t.totalBlocks
  {
  }

  /** Which opcode is which command, for a command on an active namespace: what it answers, and the storage after. */
  lemma {:induction false} OpcodesMean(t: Target, s: Step)
    requires t.Sound() && s.Ok(t.totalBlocks)
    ensures s.cmd.opc == 0x01 ==>
              Checked(t, s.cmd) &&
              WriteResult(StatusOf(t, s), Execute(t, s)) == Write(t, s.host, s.past, s.cmd)
    ensures s.cmd.opc == 0x08 ==>
              Checked(t, s.cmd) && WriteResult(StatusOf(t, s), Execute(t, s)) == WriteZeroes(t, s.cmd)
    ensures s.cmd.opc == 0x02 ==>
              Checked(t, s.cmd) && StatusOf(t, s) == Read(t, s.host, s.past, s.cmd).status
    ensures s.cmd.opc == 0x05 ==> Checked(t, s.cmd) && StatusOf(t, s) == Compare(t, s.host, s.past, s.cmd)
    ensures s.cmd.opc == 0x09 ==>
              && RangesChecked(s.host, s.cmd, t.totalBlocks)
              && StatusOf(t, s) == Status(0, 0x00) && Execute(t, s) == DatasetManagement(t, s.host, s.cmd)
    ensures s.cmd.opc == 0x00 ==> StatusOf(t, s) == Status(0, 0x00)
    ensures s.cmd.opc !in {0x00, 0x01, 0x02, 0x05, 0x08, 0x09} ==> StatusOf(t, s) == Status(0, 0x01)
    ensures s.cmd.opc !in {0x01, 0x08, 0x09} ==> Execute(t, s) == t.media
  {
  }

  /** A write puts its i-th block of payload into block b + i and leaves every other block alone. */
  lemma {:induction false} WriteMeans(t: Target, host: seq<u8>, past: seq<u64>, cmd: Command, b: nat, n: nat, j: nat)
    requires t.Sound() && t.media.Media? && Checked(t, cmd) && |host| == HOST_SIZE && NamesBlocks(cmd, b, n)
    requires Delivers(t, host, past, cmd) && Write(t, host, past, cmd).status == SUCCESS && j < t.totalBlocks
    ensures var was, now, bs := t.media.bytes, Write(t, host, past, cmd).media.bytes, t.blockSize;
            && HasBlock(was, bs, j) && HasBlock(now, bs, j)
            && (b <= j < b + n ==> HasBlock(Payload(t, host, past, cmd), bs, j - b))
            && Block(now, bs, j) == if b <= j < b + n then Block(Payload(t, host, past, cmd), bs, j - b)
                                    else Block(was, bs, j)
  {
    NamesBytes(t, cmd, b, n);
    WriteBytes(t, host, past, cmd, At(t, cmd));
    InRangeSums(t, cmd);
    PokeBlock(t.media.bytes, t.blockSize, t.totalBlocks, b, Payload(t, host, past, cmd), n, j);
  }

  lemma {:induction false} ReadBytes(t: Target, host: seq<u8>, past: seq<u64>, cmd: Command, at: nat, length: nat)
    requires t.Sound() && t.media.Media? && Checked(t, cmd) && |host| == HOST_SIZE
    requires Delivers(t, host, past, cmd) && PairwiseApart(PageList(t, host, past, cmd).list)
    requires Read(t, host, past, cmd).status == SUCCESS && at == At(t, cmd) && length == Length(t, cmd)
    ensures LbaInRange(Slba(cmd), Nlb(cmd), t.totalBlocks) && at + length <= |t.media.bytes|
    ensures AllInHost(PageList(t, host, past, cmd).list, HOST_SIZE)
    ensures Gather(Read(t, host, past, cmd).host, PageList(t, host, past, cmd).list) == Peek(t.media.bytes, at, length)
  {
    ReadDelivers(t, host, past, cmd);
  }

  /** Blocks taken in one stretch are the blocks. */
  lemma {:induction false} StretchOfBlocks(m: seq<u8>, blockSize: nat, total: nat, b: nat, n: nat, at: nat,
                                           length: nat, g: seq<u8>, i: nat)
    requires Blocks(m, blockSize, total) && b + n <= total && i < n && at == b * blockSize && length == n * blockSize
    requires at + length <= |m| && g == Peek(m, at, length)
    ensures HasBlock(g, blockSize, i) && HasBlock(m, blockSize, b + i)
    ensures Block(g, blockSize, i) == Block(m, blockSize, b + i)
  {
    PeekBlock(m, blockSize, total, b, n, i);
  }

  /** A read leaves block b + i as the i-th block of its pages. */
  lemma {:induction false} ReadMeans(t: Target, host: seq<u8>, past: seq<u64>, cmd: Command, b: nat, n: nat, i: nat)
    requires t.Sound() && t.media.Media? && Checked(t, cmd) && |host| == HOST_SIZE && NamesBlocks(cmd, b, n)
    requires Delivers(t, host, past, cmd) && PairwiseApart(PageList(t, host, past, cmd).list)
    requires Read(t, host, past, cmd).status == SUCCESS && i < n
    ensures var after, list, bs := Read(t, host, past, cmd).host, PageList(t, host, past, cmd).list, t.blockSize;
            && AllInHost(list, |after|)
            && HasBlock(Gather(after, list), bs, i) && HasBlock(t.media.bytes, bs, b + i)
            && Block(Gather(after, list), bs, i) == Block(t.media.bytes, bs, b + i)
  {
    NamesBytes(t, cmd, b, n);
    var at, length := At(t, cmd), Length(t, cmd);
    ReadBytes(t, host, past, cmd, at, length);
    InRangeSums(t, cmd);
    var g := Gather(Read(t, host, past, cmd).host, PageList(t, host, past, cmd).list);
    StretchOfBlocks(t.media.bytes, t.blockSize, t.totalBlocks, b, n, at, length, g, i);
  }

  /** A compare that reaches the comparison succeeds exactly when the i-th block of its pages is block b + i, for
      every i. */
  lemma {:induction false} CompareMeans(t: Target, host: seq<u8>, past: seq<u64>, cmd: Command, b: nat, n: nat)
    requires t.Sound() && t.media.Media? && Checked(t, cmd) && |host| == HOST_SIZE && NamesBlocks(cmd, b, n)
    requires Delivers(t, host, past, cmd) && b + n <= t.totalBlocks && n * t.blockSize <= MAX_BUFFERED
    ensures var data, bytes, bs := Payload(t, host, past, cmd), t.media.bytes, t.blockSize;
            && (forall i: nat :: i < n ==> HasBlock(data, bs, i) && HasBlock(bytes, bs, b + i))
            && (Compare(t, host, past, cmd) == SUCCESS <==>
                  forall i: nat :: i < n ==> Block(data, bs, i) == Block(bytes, bs, b + i))
  {
    NamesBytes(t, cmd, b, n);
    GatherWhole(t, host, past, cmd);
    CompareExact(t, host, past, cmd);
    var data, stored := Payload(t, host, past, cmd), Stored(t, At(t, cmd), Length(t, cmd));
    forall i: nat | i < n
      ensures HasBlock(data, t.blockSize, i) && HasBlock(t.media.bytes, t.blockSize, b + i)
      ensures HasBlock(stored, t.blockSize, i)
      ensures Block(stored, t.blockSize, i) == Block(t.media.bytes, t.blockSize, b + i)
    {
      BlockThere(data, t.blockSize, n, i);
      PeekBlock(t.media.bytes, t.blockSize, t.totalBlocks, b, n, i);
    }
    if forall i: nat :: i < n ==> Block(data, t.blockSize, i) == Block(t.media.bytes, t.blockSize, b + i) {
      SameBlocksSame(data, stored, t.blockSize, n);
    }
  }

  /** A zeroing clears blocks b to b + n - 1 and leaves every other block alone. */
  lemma {:induction false} ZeroesMean(t: Target, cmd: Command, b: nat, n: nat, j: nat)
    requires t.Sound() && t.media.Media? && Checked(t, cmd) && NamesBlocks(cmd, b, n)
    requires WriteZeroes(t, cmd).status == SUCCESS && j < t.totalBlocks
    ensures var was, now, bs := t.media.bytes, WriteZeroes(t, cmd).media.bytes, t.blockSize;
            && HasBlock(was, bs, j) && HasBlock(now, bs, j)
            && Block(now, bs, j) == if b <= j < b + n then Zeros(bs) else Block(was, bs, j)
  {
    NamesBytes(t, cmd, b, n);
    assert n * t.blockSize > 0;
    var zeros := Zeros(n * t.blockSize);
    PokeBlock(t.media.bytes, t.blockSize, t.totalBlocks, b, zeros, n, j);
    if b <= j < b + n {
      ZeroBlock(zeros, t.blockSize, j - b);
    }
  }

  lemma {:induction false} ZeroBlock(m: seq<u8>, blockSize: nat, i: nat)
    requires HasBlock(m, blockSize, i) && forall k :: 0 <= k < |m| ==> m[k] == 0
    ensures Block(m, blockSize, i) == Zeros(blockSize)
  {
  }

  // ----- Dataset management -----

  /** A range as the host gives it. */
  datatype Range = Range(attributes: u32, count: u32, start: u64)

  /** Its 16 bytes: attributes, count, starting block. */
  function EncodeRange(r: Range): (bytes: seq<u8>)
    ensures |bytes| == 16
  {
    Le32(r.attributes) + Le32(r.count) + Le64(r.start)
  }

  function EncodeList(rs: seq<Range>): (bytes: seq<u8>)
    ensures |bytes| == 16 * |rs|
    decreases |rs|
  {
    if rs == [] then [] else EncodeRange(rs[0]) + EncodeList(rs[1..])
  }

  lemma {:induction false} EncodedAt(rs: seq<Range>, i: nat)
    requires i < |rs|
    ensures EncodeList(rs)[16 * i..16 * i + 16] == EncodeRange(rs[i])
    decreases |rs|
  {
    var list := EncodeList(rs);
    assert list == EncodeRange(rs[0]) + EncodeList(rs[1..]);
    if i > 0 {
      EncodedAt(rs[1..], i - 1);
      assert list[16 * i..16 * i + 16] == EncodeList(rs[1..])[16 * (i - 1)..16 * (i - 1) + 16];
    }
  }

  lemma {:induction false} DecodesRange(host: seq<u8>, at: nat, r: Range)
    requires at + 16 <= |host| && host[at..at + 16] == EncodeRange(r)
    ensures DescriptorAt(host, at) == Descriptor(r.count, r.start)
  {
    SliceSlice(host, at, 16, 4, 8);
    SliceSlice(host, at, 16, 8, 16);
    assert EncodeRange(r)[4..8] == Le32(r.count) && EncodeRange(r)[8..16] == Le64(r.start);
    ReadsLe32(host, at + 4, r.count);
    ReadsLe64(host, at + 8, r.start);
  }

  /** A command to deallocate the ranges: their list at PRP1, its length less one in the low byte of CDW10, bit 2
      of CDW11 set. */
  predicate AsksToDeallocate(host: seq<u8>, cmd: Command, rs: seq<Range>)
  {
    && cmd.prp1 + 16 * |rs| <= |host| && host[cmd.prp1..cmd.prp1 + 16 * |rs|] == EncodeList(rs)
    && |rs| == cmd.cdw10 % 0x100 + 1
    && cmd.cdw11 % 8 >= 4
  }

  lemma {:induction false} BitTwo(x: u32)
    ensures x % 8 >= 4 <==> (x / 4) % 2 == 1
  {
  }

  lemma {:induction false} DecodesList(host: seq<u8>, cmd: Command, rs: seq<Range>, i: nat)
    requires AsksToDeallocate(host, cmd, rs) && i < |rs|
    ensures Deallocate(cmd) && Mappable(host, cmd) && RangeCount(cmd) == |rs|
    ensures Descriptors(host, cmd.prp1, |rs|)[i] == Descriptor(rs[i].count, rs[i].start)
  {
    BitTwo(cmd.cdw11);
    EncodedAt(rs, i);
    SliceSlice(host, cmd.prp1, 16 * |rs|, 16 * i, 16 * i + 16);
    DecodesRange(host, cmd.prp1 + 16 * i, rs[i]);
  }

  /** Block j belongs to a range that lies in the namespace. */
  predicate Given(rs: seq<Range>, total: nat, j: nat)
  {
    exists i :: 0 <= i < |rs| && rs[i].start + rs[i].count <= total && rs[i].start <= j < rs[i].start + rs[i].count
  }

  lemma {:induction false} ByteInRange(t: Target, d: Descriptor, j: nat, k: nat)
    requires j < t.totalBlocks && j * t.blockSize <= k < j * t.blockSize + t.blockSize
    ensures InBlocks(t, d, k) <==> d.slba + d.nlb <= t.totalBlocks && d.slba <= j < d.slba + d.nlb
  {
    if Trimmable(t, d) {
      BlockSum(d.slba, d.nlb, t.blockSize);
      if j < d.slba {
        BlockEnds(j, d.slba, t.blockSize);
      } else if j < d.slba + d.nlb {
        BlockSum(d.slba, j - d.slba, t.blockSize);
        BlockEnds(j, d.slba + d.nlb, t.blockSize);
      } else {
        BlockSum(d.slba + d.nlb, j - d.slba - d.nlb, t.blockSize);
      }
    }
  }

  lemma {:induction false} ListedIsGiven(t: Target, host: seq<u8>, cmd: Command, rs: seq<Range>, j: nat, k: nat)
    requires AsksToDeallocate(host, cmd, rs)
    requires j < t.totalBlocks && j * t.blockSize <= k < j * t.blockSize + t.blockSize
    ensures Mappable(host, cmd) && RangeCount(cmd) == |rs|
    ensures Listed(t, Descriptors(host, cmd.prp1, |rs|), k) <==> Given(rs, t.totalBlocks, j)
  {
    DecodesList(host, cmd, rs, 0);
    var ds := Descriptors(host, cmd.prp1, |rs|);
    forall i | 0 <= i < |rs|
      ensures InBlocks(t, ds[i], k) <==>
                rs[i].start + rs[i].count <= t.totalBlocks && rs[i].start <= j < rs[i].start + rs[i].count
    {
      DecodesList(host, cmd, rs, i);
      ByteInRange(t, ds[i], j, k);
    }
  }

  lemma {:induction false} TrimByte(t: Target, host: seq<u8>, cmd: Command, rs: seq<Range>, j: nat, k: nat)
    requires t.Sound() && t.Direct() && !t.media.readOnly && |host| == HOST_SIZE && j < t.totalBlocks
    requires AsksToDeallocate(host, cmd, rs) && RangesChecked(host, cmd, t.totalBlocks)
    requires j * t.blockSize <= k < j * t.blockSize + t.blockSize && k < |t.media.bytes|
    ensures var r := DatasetManagement(t, host, cmd);
            && |r.bytes| == |t.media.bytes|
            && r.bytes[k] == if Given(rs, t.totalBlocks, j) then 0 else t.media.bytes[k]
  {
    DecodesList(host, cmd, rs, 0);
    ListedIsGiven(t, host, cmd, rs, j, k);
    TrimZeroesTheUnion(t, host, cmd, k);
  }

  lemma {:induction false} BlockByBytes(was: seq<u8>, now: seq<u8>, blockSize: nat, j: nat, cleared: bool)
    requires HasBlock(was, blockSize, j) && HasBlock(now, blockSize, j)
    requires forall k :: j * blockSize <= k < j * blockSize + blockSize ==> now[k] == if cleared then 0 else was[k]
    ensures Block(now, blockSize, j) == if cleared then Zeros(blockSize) else Block(was, blockSize, j)
  {
  }

  /** On memory storage a deallocation of a list of ranges clears exactly the blocks given, whatever the
      attributes, the order and the overlap; ranges that leave the namespace are passed over. */
  lemma {:induction false} TrimMeans(t: Target, host: seq<u8>, cmd: Command, rs: seq<Range>, j: nat)
    requires t.Sound() && t.Direct() && !t.media.readOnly && |host| == HOST_SIZE && j < t.totalBlocks
    requires AsksToDeallocate(host, cmd, rs) && RangesChecked(host, cmd, t.totalBlocks)
    ensures var was, now, bs := t.media.bytes, DatasetManagement(t, host, cmd).bytes, t.blockSize;
            && HasBlock(was, bs, j) && HasBlock(now, bs, j)
            && Block(now, bs, j) == if Given(rs, t.totalBlocks, j) then Zeros(bs) else Block(was, bs, j)
  {
    var was, now, bs := t.media.bytes, DatasetManagement(t, host, cmd).bytes, t.blockSize;
    var cleared := Given(rs, t.totalBlocks, j);
    BlockThere(was, bs, t.totalBlocks, j);
    BlockThere(now, bs, t.totalBlocks, j);
    forall k | j * bs <= k < j * bs + bs
      ensures now[k] == if cleared then 0 else was[k]
    {
      TrimByte(t, host, cmd, rs, j, k);
    }
    BlockByBytes(was, now, bs, j, cleared);
  }

  /** With bit 2 of CDW11 clear nothing is deallocated. */
  lemma {:induction false} TrimMeansNothing(t: Target, host: seq<u8>, cmd: Command)
    requires t.Sound() && |host| == HOST_SIZE && cmd.cdw11 % 8 < 4
    ensures RangesChecked(host, cmd, t.totalBlocks)
    ensures DatasetManagement(t, host, cmd) == t.media
  {
    BitTwo(cmd.cdw11);
  }
}

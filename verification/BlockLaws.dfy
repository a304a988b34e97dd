/** The I/O commands over whole transfers and whole histories: reads, writes, zeroing and comparing
    through any page lists refine one flat byte array. */
module BlockLaws {
  import opened NvmeTypes
  import opened Bytes
  import opened Prp
  import opened Transfer
  import opened BlockCommands
  import StorageMedia

  /** The range checks add in 64 bits: for a command's 16-bit count as for a range's 32-bit one they are
      right exactly when the sum does not wrap, or wraps to something still too large. */
  lemma {:induction false} RangeMacroExact(slba: u64, nlb: u32, total: u64)
    ensures (LbaInRange(slba, nlb, total) <==> slba + nlb <= total)
            <==> CheckHolds(slba, nlb, total)
  {
  }

  // ----- Where the checks do not hold -----

  /** The check on blocks and the storage's check on bytes, both in 64 bits. */
  predicate BothAccept(blockSize: nat, slba: u64, n: u32, length: u32, total: nat)
  {
    && LbaInRange(slba, n, total)
    && ((slba * blockSize) % U64 + length) % U64 <= total * blockSize
  }

  /** How far before the buffer a wrapped offset points. */
  function Before(blockSize: nat, slba: u64): nat { (U64 - slba) * blockSize }

  predicate Strays(blockSize: nat, slba: u64, n: u32, length: u32, total: nat)
  {
    !CheckHolds(slba, n, total) && Before(blockSize, slba) <= length
  }

  lemma {:induction false} WrappedOffset(blockSize: nat, slba: u64)
    requires (blockSize == 512 || blockSize == 4096) && 0 < U64 - slba <= 0x1_0000_0000
    ensures (slba * blockSize) % U64 == U64 - Before(blockSize, slba)
    ensures 0 < Before(blockSize, slba) <= 0x1000_0000_0000
  {
  }

  lemma {:induction false} WrappedSum(b: nat, length: u32)
    requires 0 < b <= 0x1000_0000_0000
    ensures (U64 - b + length) % U64 == if b <= length then length - b else U64 - b + length
  {
  }

  /** How far into the namespace a stray stretch ends. */
  lemma {:induction false} WrappedEnd(blockSize: nat, slba: u64, n: u32, length: u32, total: nat)
    requires slba + n >= U64 && slba + n - U64 <= total && length <= n * blockSize
    ensures length - Before(blockSize, slba) <= total * blockSize
  {
    assert n * blockSize == (U64 - slba) * blockSize + (slba + n - U64) * blockSize;
    FitsBytes(slba + n - U64, 0, blockSize, total);
  }

  lemma {:induction false} WrappedAccepts(blockSize: nat, slba: u64, n: u32, length: u32, total: nat)
    requires (blockSize == 512 || blockSize == 4096) && length <= n * blockSize
    requires total * blockSize < 0x1_0000_0000_0000 && !CheckHolds(slba, n, total)
    ensures BothAccept(blockSize, slba, n, length, total) <==> Before(blockSize, slba) <= length
  {
    WrappedOffset(blockSize, slba);
    WrappedSum(Before(blockSize, slba), length);
    WrappedEnd(blockSize, slba, n, length, total);
  }

  lemma {:induction false} PlainSum(at: nat, length: nat, bytes: nat)
    requires at + length <= bytes < U64
    ensures (at % U64 + length) % U64 <= bytes
  {
  }

  lemma {:induction false} PlainAccepts(blockSize: nat, slba: u64, n: u32, length: u32, total: nat)
    requires length <= n * blockSize && total * blockSize < 0x1_0000_0000_0000 && slba + n <= total < U64
    ensures BothAccept(blockSize, slba, n, length, total)
  {
    FitsBytes(slba, n, blockSize, total);
    PlainSum(slba * blockSize, length, total * blockSize);
  }

  /** The two checks together let a stretch of memory storage through exactly when its range is in bounds, or
      when its block sum wraps into bounds and its bytes reach from before the buffer into it. */
  lemma {:induction false} BothChecksExact(blockSize: nat, slba: u64, n: u32, length: u32, total: nat)
    requires (blockSize == 512 || blockSize == 4096) && length <= n * blockSize
    requires total * blockSize < 0x1_0000_0000_0000
    ensures BothAccept(blockSize, slba, n, length, total) <==>
              slba + n <= total || Strays(blockSize, slba, n, length, total)
  {
    FewerThanBytes(total, blockSize);
    if slba + n <= total {
      PlainAccepts(blockSize, slba, n, length, total);
    } else if !CheckHolds(slba, n, total) {
      WrappedAccepts(blockSize, slba, n, length, total);
    }
  }

  lemma {:induction false} FewerThanBytes(total: nat, blockSize: nat)
    requires blockSize > 0
    ensures total <= total * blockSize
  {
    assert total * blockSize == total + total * (blockSize - 1);
  }

  /** A command's length is that of its blocks, so on memory storage every command on which the range check
      does not hold is let through and strays. */
  lemma {:induction false} CommandStraysExactly(t: Target, cmd: Command)
    requires t.Sound() && t.Direct()
    ensures BothAccept(t.blockSize, Slba(cmd), Nlb(cmd), Length(t, cmd), t.totalBlocks) <==>
              Slba(cmd) + Nlb(cmd) <= t.totalBlocks || !Checked(t, cmd)
    ensures !Checked(t, cmd) <==>
              Strays(t.blockSize, Slba(cmd), Nlb(cmd), Length(t, cmd), t.totalBlocks)
  {
    BothChecksExact(t.blockSize, Slba(cmd), Nlb(cmd), Length(t, cmd), t.totalBlocks);
    if !Checked(t, cmd) {
      FitsBytes(0, U64 - Slba(cmd), t.blockSize, Nlb(cmd));
    }
  }

  /** Byte k, counted from the start of the buffer, is among length bytes from an offset, by the pointer
      arithmetic of 64-bit addresses; k is negative before the buffer. */
  predicate Reaches(offset: u64, length: u32, k: int) { (k - offset) % U64 < length }

  /** What a stray stretch reaches: everything from Before bytes ahead of the buffer to the rest of its length
      inside. */
  lemma {:induction false} StrayReaches(blockSize: nat, slba: u64, n: u32, length: u32, total: nat, k: int)
    requires (blockSize == 512 || blockSize == 4096) && Strays(blockSize, slba, n, length, total)
    requires -0x1000_0000_0000 <= k < 0x1000_0000_0000
    ensures Reaches((slba * blockSize) % U64, length, k) <==>
              0 <= k + Before(blockSize, slba) < length
  {
    WrappedOffset(blockSize, slba);
    var b := Before(blockSize, slba);
    if k + b < 0 {
      assert (k - (U64 - b)) % U64 == k + b + U64;
    } else {
      assert (k - (U64 - b)) % U64 == k + b;
    }
  }

  /** One range of 9 blocks of 512 bytes at the last block number is let through although it is out of
      bounds: the code zeroes 512 bytes before the buffer and the first 4096 of the namespace. */
  lemma {:induction false} WrappedRangeZeroesTheStart(t: Target, k: int)
    requires t.Sound() && t.Direct() && t.blockSize == 512 && t.totalBlocks >= 8
    requires -0x1000_0000_0000 <= k < 0x1000_0000_0000
    ensures var d := Descriptor(9, 0xFFFF_FFFF_FFFF_FFFF);
            && !Trimmable(t, d) && !CheckHolds(d.slba, d.nlb, t.totalBlocks)
            && BothAccept(t.blockSize, d.slba, d.nlb, TrimLength(t, d), t.totalBlocks)
            && (Reaches((d.slba * t.blockSize) % U64, TrimLength(t, d), k) <==> -512 <= k < 4096)
  {
    BothChecksExact(512, 0xFFFF_FFFF_FFFF_FFFF, 9, 4608, t.totalBlocks);
    StrayReaches(512, 0xFFFF_FFFF_FFFF_FFFF, 9, 4608, t.totalBlocks, k);
  }

  function PageList(t: Target, host: seq<u8>, past: seq<u64>, cmd: Command): Parsed
    requires t.Sound() && |host| == HOST_SIZE
  {
    Parse(host, past, cmd.prp1, cmd.prp2, Length(t, cmd))
  }

  /** The page list is accepted and serves the whole transfer. */
  predicate Delivers(t: Target, host: seq<u8>, past: seq<u64>, cmd: Command)
    requires t.Sound() && |host| == HOST_SIZE
  {
    && PageList(t, host, past, cmd).Segments?
    && Total(PageList(t, host, past, cmd).list) == Length(t, cmd)
  }

  /** For block sizes of 512 and 4096 the page count never wraps, so what decides whether the list
      serves the transfer is only the offsets of its entries. */
  lemma {:induction false} DeliversExactly(t: Target, host: seq<u8>, past: seq<u64>, cmd: Command)
    requires t.Sound() && |host| == HOST_SIZE && PageList(t, host, past, cmd).Segments?
    ensures var n, rest := ListedPages(cmd.prp1, Length(t, cmd)), Beyond(cmd.prp1, Length(t, cmd));
            Delivers(t, host, past, cmd) <==>
              (Length(t, cmd) > 0 && n > 1 ==>
                 ListInHost(host, cmd.prp2, n) && Skipped(host, past, cmd.prp2, 0, n) <= n * PAGE - rest)
  {
    ParseDelivers(host, past, cmd.prp1, cmd.prp2, Length(t, cmd));
  }

  /** Up to 2 MB the list never leaves its mapped page, so neither buffered transfers nor compares depend
      on what lies behind it; only direct transfers of memory storage can. */
  lemma {:induction false} BufferedIsDetermined(t: Target, host: seq<u8>, cmd: Command)
    requires t.Sound() && |host| == HOST_SIZE && Length(t, cmd) <= MAX_BUFFERED
    ensures Determined(host, cmd.prp1, cmd.prp2, Length(t, cmd))
  {
    forall a, b
      ensures Parse(host, a, cmd.prp1, cmd.prp2, Length(t, cmd)) == Parse(host, b, cmd.prp1, cmd.prp2, Length(t, cmd))
    {
      OnePageIsEnough(host, a, b, cmd.prp1, cmd.prp2, Length(t, cmd));
    }
  }

  lemma {:induction false} GatherWhole(t: Target, host: seq<u8>, past: seq<u64>, cmd: Command)
    requires t.Sound() && |host| == HOST_SIZE && Delivers(t, host, past, cmd)
    ensures |Payload(t, host, past, cmd)| == Length(t, cmd)
    ensures Padded(Payload(t, host, past, cmd), Length(t, cmd)) == Payload(t, host, past, cmd)
  {
    ParseInHost(host, past, cmd.prp1, cmd.prp2, Length(t, cmd));
  }

  /** A successful read leaves the stored bytes in the pages of its list and nothing anywhere else. */
  lemma {:induction false} ReadDelivers(t: Target, host: seq<u8>, past: seq<u64>, cmd: Command)
    requires t.Sound() && Checked(t, cmd) && |host| == HOST_SIZE
    requires Read(t, host, past, cmd).status == SUCCESS
    requires Delivers(t, host, past, cmd) && PairwiseApart(PageList(t, host, past, cmd).list)
    ensures var list, after := PageList(t, host, past, cmd).list, Read(t, host, past, cmd).host;
            && LbaInRange(Slba(cmd), Nlb(cmd), t.totalBlocks)
            && At(t, cmd) + Length(t, cmd) <= t.totalBlocks * t.blockSize
            && AllInHost(list, |after|)
            && Gather(after, list) == Stored(t, At(t, cmd), Length(t, cmd))
            && forall k :: 0 <= k < |host| && !Touches(list, k) ==> after[k] == host[k]
  {
    var list := PageList(t, host, past, cmd).list;
    InRangeFits(t, cmd);
    ParseInHost(host, past, cmd.prp1, cmd.prp2, Length(t, cmd));
    var data := Stored(t, At(t, cmd), Length(t, cmd));
    GatherScatter(host, list, data);
    assert data[..Total(list)] == data;
    forall k | 0 <= k < |host| && !Touches(list, k)
      ensures Read(t, host, past, cmd).host[k] == host[k]
    {
      ScatterSparesTheRest(host, list, data, k);
    }
  }

  predicate SameBlocks(a: Command, b: Command) { Slba(a) == Slba(b) && Nlb(a) == Nlb(b) }

  function WithMedia(t: Target, media: Media): Target { t.(media := media) }

  lemma {:induction false} WriteKeepsSound(t: Target, host: seq<u8>, past: seq<u64>, cmd: Command)
    requires t.Sound() && Checked(t, cmd) && |host| == HOST_SIZE
    ensures WithMedia(t, Write(t, host, past, cmd).media).Sound()
  {
  }

  /** Blocks written through one page list are read back through any other, whatever host memory
      holds by then. */
  lemma {:induction false} ReadAfterWrite(t: Target, host: seq<u8>, past: seq<u64>, w: Command,
                                        later: seq<u8>, behind: seq<u64>, r: Command)
    requires t.Sound() && t.media.Media? && Checked(t, w) && |host| == HOST_SIZE && |later| == HOST_SIZE
    requires Write(t, host, past, w).status == SUCCESS && Delivers(t, host, past, w)
    requires SameBlocks(w, r)
    requires Delivers(t, later, behind, r) && PairwiseApart(PageList(t, later, behind, r).list)
    ensures var u := WithMedia(t, Write(t, host, past, w).media);
            && u.Sound()
            && Read(u, later, behind, r).status == SUCCESS
            && AllInHost(PageList(u, later, behind, r).list, HOST_SIZE)
            && Gather(Read(u, later, behind, r).host, PageList(u, later, behind, r).list) == Payload(t, host, past, w)
  {
    WriteKeepsSound(t, host, past, w);
    var u := WithMedia(t, Write(t, host, past, w).media);
    GatherWhole(t, host, past, w);
    InRangeFits(t, w);
    PeekPoke(t.media.bytes, At(t, w), Payload(t, host, past, w));
    ReadDelivers(u, later, behind, r);
  }

  /** Write changes nothing outside the blocks it addresses; a failed write changes nothing. */
  lemma {:induction false} WriteSparesOtherBlocks(t: Target, host: seq<u8>, past: seq<u64>, cmd: Command, k: nat)
    requires t.Sound() && t.media.Media? && Checked(t, cmd) && |host| == HOST_SIZE && k < |t.media.bytes|
    requires Write(t, host, past, cmd).status != SUCCESS || k < At(t, cmd) || At(t, cmd) + Length(t, cmd) <= k
    ensures |Write(t, host, past, cmd).media.bytes| == |t.media.bytes|
    ensures Write(t, host, past, cmd).media.bytes[k] == t.media.bytes[k]
  {
  }

  /** Blocks that a short page list leaves unserved keep their bytes on memory storage and are zeroed
      on a file. */
  lemma {:induction false} ShortWrite(t: Target, host: seq<u8>, past: seq<u64>, cmd: Command, k: nat)
    requires t.Sound() && t.media.Media? && Checked(t, cmd) && |host| == HOST_SIZE
    requires Write(t, host, past, cmd).status == SUCCESS && PageList(t, host, past, cmd).Segments?
    requires At(t, cmd) + |Payload(t, host, past, cmd)| <= k < At(t, cmd) + Length(t, cmd)
    ensures k < |t.media.bytes| && |Write(t, host, past, cmd).media.bytes| == |t.media.bytes|
    ensures Write(t, host, past, cmd).media.bytes[k] == if t.Direct() then t.media.bytes[k] else 0
  {
    InRangeFits(t, cmd);
  }

  /** A page list that is refused makes every command fail without a trace. */
  lemma {:induction false} BadPageListChangesNothing(t: Target, host: seq<u8>, past: seq<u64>, cmd: Command)
    requires t.Sound() && Checked(t, cmd) && |host| == HOST_SIZE && PageList(t, host, past, cmd).Invalid?
    ensures Read(t, host, past, cmd).status != SUCCESS && Read(t, host, past, cmd).host == host
    ensures Write(t, host, past, cmd).status != SUCCESS && Write(t, host, past, cmd).media == t.media
    ensures Compare(t, host, past, cmd) != SUCCESS && Compare(t, host, past, cmd) != COMPARE_FAILURE
  {
  }

  /** Compare succeeds exactly when the host's bytes are the stored ones. */
  lemma {:induction false} CompareExact(t: Target, host: seq<u8>, past: seq<u64>, cmd: Command)
    requires t.Sound() && Checked(t, cmd) && |host| == HOST_SIZE && Delivers(t, host, past, cmd)
    requires LbaInRange(Slba(cmd), Nlb(cmd), t.totalBlocks) && Length(t, cmd) <= MAX_BUFFERED
    ensures At(t, cmd) + Length(t, cmd) <= t.totalBlocks * t.blockSize
    ensures Compare(t, host, past, cmd) == SUCCESS <==>
              Payload(t, host, past, cmd) == Stored(t, At(t, cmd), Length(t, cmd))
    ensures Compare(t, host, past, cmd) == SUCCESS || Compare(t, host, past, cmd) == COMPARE_FAILURE
  {
    InRangeFits(t, cmd);
    GatherWhole(t, host, past, cmd);
  }

  /** After a write a compare of the same blocks succeeds exactly for the bytes written. */
  lemma {:induction false} CompareAfterWrite(t: Target, host: seq<u8>, past: seq<u64>, w: Command,
                                           later: seq<u8>, behind: seq<u64>, c: Command)
    requires t.Sound() && t.media.Media? && Checked(t, w) && |host| == HOST_SIZE && |later| == HOST_SIZE
    requires Write(t, host, past, w).status == SUCCESS && Delivers(t, host, past, w)
    requires SameBlocks(w, c) && Delivers(t, later, behind, c) && Length(t, c) <= MAX_BUFFERED
    ensures var u := WithMedia(t, Write(t, host, past, w).media);
            && u.Sound()
            && (Compare(u, later, behind, c) == SUCCESS <==> Payload(t, later, behind, c) == Payload(t, host, past, w))
  {
    WriteKeepsSound(t, host, past, w);
    var u := WithMedia(t, Write(t, host, past, w).media);
    GatherWhole(t, host, past, w);
    InRangeFits(t, w);
    PeekPoke(t.media.bytes, At(t, w), Payload(t, host, past, w));
    CompareExact(u, later, behind, c);
  }

  /** The count is kept in 16 bits: the largest count a command can name moves no block at all, and
      the command still succeeds. Every other count moves count plus one blocks. */
  lemma {:induction false} LargestCountMovesNothing(t: Target, host: seq<u8>, past: seq<u64>, cmd: Command)
    requires t.Sound() && Checked(t, cmd) && |host| == HOST_SIZE
    ensures Length(t, cmd) == (cmd.cdw12 % 0x1_0000 + 1) * t.blockSize <==> cmd.cdw12 % 0x1_0000 != 0xFFFF
    ensures cmd.cdw12 % 0x1_0000 == 0xFFFF && Slba(cmd) <= t.totalBlocks && !(t.media.Media? && t.media.readOnly) ==>
              && Write(t, host, past, cmd) == WriteResult(SUCCESS, t.media)
              && Read(t, host, past, cmd) == ReadResult(SUCCESS, host)
              && Compare(t, host, past, cmd) == SUCCESS
  {
    if cmd.cdw12 % 0x1_0000 == 0xFFFF && Slba(cmd) <= t.totalBlocks {
      InRangeFits(t, cmd);
      assert Length(t, cmd) == 0;
      if t.media.Media? {
        assert Poke(t.media.bytes, At(t, cmd), []) == t.media.bytes;
      }
    }
  }

  // ----- Dataset management -----

  lemma {:induction false} ReplayOne(m: seq<u8>, u: Update)
    requires u.Fits(|m|)
    ensures AllFit([u], |m|) && Replay(m, [u]) == Poke(m, u.at, u.bytes)
  {
    assert [u][1..] == [];
  }

  /** Byte k is among those zeroed for range d: the length that reaches the storage is cut to 32 bits. */
  predicate InTrim(t: Target, d: Descriptor, k: int)
  {
    && Trimmable(t, d)
    && d.slba * t.blockSize <= k < d.slba * t.blockSize + TrimLength(t, d)
  }

  /** Byte k belongs to the blocks of range d. */
  predicate InBlocks(t: Target, d: Descriptor, k: int)
  {
    && Trimmable(t, d)
    && d.slba * t.blockSize <= k < d.slba * t.blockSize + d.nlb * t.blockSize
  }

  predicate Trimmed(t: Target, ds: seq<Descriptor>, k: int)
  {
    exists i :: 0 <= i < |ds| && InTrim(t, ds[i], k)
  }

  predicate Listed(t: Target, ds: seq<Descriptor>, k: int)
  {
    exists i :: 0 <= i < |ds| && InBlocks(t, ds[i], k)
  }

  lemma {:induction false} TrimmedStep(t: Target, ds: seq<Descriptor>, k: int)
    requires ds != []
    ensures Trimmed(t, ds, k) <==> InTrim(t, ds[0], k) || Trimmed(t, ds[1..], k)
  {
    forall i | 1 <= i < |ds|
      ensures ds[i] == ds[1..][i - 1]
    {
    }
  }

  lemma {:induction false} TrimOneByte(t: Target, d: Descriptor, m: seq<u8>, k: nat)
    requires |m| == t.totalBlocks * t.blockSize && k < |m| && Trimmable(t, d)
    ensures var u := Update(d.slba * t.blockSize, Zeros(TrimLength(t, d)));
            u.Fits(|m|) && Poke(m, u.at, u.bytes)[k] == if InTrim(t, d, k) then 0 else m[k]
  {
    TrimBounds(t, d);
  }

  lemma {:induction false} TrimsAreZero(t: Target, ds: seq<Descriptor>, m: seq<u8>, k: nat)
    requires |m| == t.totalBlocks * t.blockSize && k < |m|
    ensures AllFit(Trims(t, ds), |m|)
    ensures Replay(m, Trims(t, ds))[k] == if Trimmed(t, ds, k) then 0 else m[k]
    decreases |ds|
  {
    TrimsFit(t, ds);
    if ds != [] {
      TrimmedStep(t, ds, k);
      if Trimmable(t, ds[0]) {
        TrimOneByte(t, ds[0], m, k);
        var u := Update(ds[0].slba * t.blockSize, Zeros(TrimLength(t, ds[0])));
        assert Trims(t, ds)[0] == u && Trims(t, ds)[1..] == Trims(t, ds[1..]);
        TrimsAreZero(t, ds[1..], Poke(m, u.at, u.bytes), k);
      } else {
        TrimsAreZero(t, ds[1..], m, k);
      }
    }
  }

  /** On any writable storage a deallocation zeroes exactly the stretches that its in-bounds ranges are cut
      to, whatever their order and overlap, and nothing else. */
  lemma {:induction false} TrimZeroesExactly(t: Target, host: seq<u8>, cmd: Command, k: nat)
    requires t.Sound() && t.media.Media? && !t.media.readOnly && |host| == HOST_SIZE
    requires Deallocate(cmd) && Mappable(host, cmd) && RangesChecked(host, cmd, t.totalBlocks)
    requires k < |t.media.bytes|
    ensures var r := DatasetManagement(t, host, cmd);
            && |r.bytes| == |t.media.bytes|
            && r.bytes[k] == if Trimmed(t, Descriptors(host, cmd.prp1, RangeCount(cmd)), k) then 0
                             else t.media.bytes[k]
  {
    TrimsAreZero(t, Descriptors(host, cmd.prp1, RangeCount(cmd)), t.media.bytes, k);
  }

  lemma {:induction false} SmallIsUncut(t: Target, d: Descriptor, k: int)
    requires t.totalBlocks * t.blockSize < 0x1_0000_0000
    ensures InTrim(t, d, k) <==> InBlocks(t, d, k)
  {
    if Trimmable(t, d) {
      FitsBytes(d.slba, d.nlb, t.blockSize, t.totalBlocks);
    }
  }

  /** Memory storage is too small for a cut: there it is the union of the blocks listed. */
  lemma {:induction false} TrimZeroesTheUnion(t: Target, host: seq<u8>, cmd: Command, k: nat)
    requires t.Sound() && t.Direct() && !t.media.readOnly && |host| == HOST_SIZE
    requires Deallocate(cmd) && Mappable(host, cmd) && RangesChecked(host, cmd, t.totalBlocks)
    requires k < |t.media.bytes|
    ensures var r := DatasetManagement(t, host, cmd);
            && |r.bytes| == |t.media.bytes|
            && r.bytes[k] == if Listed(t, Descriptors(host, cmd.prp1, RangeCount(cmd)), k) then 0
                             else t.media.bytes[k]
  {
    var ds := Descriptors(host, cmd.prp1, RangeCount(cmd));
    TrimZeroesExactly(t, host, cmd, k);
    forall i | 0 <= i < |ds|
      ensures InTrim(t, ds[i], k) <==> InBlocks(t, ds[i], k)
    {
      SmallIsUncut(t, ds[i], k);
    }
  }

  /** Every byte of the range's blocks is zero afterwards. */
  ghost predicate ZeroesWhole(t: Target, d: Descriptor, m: seq<u8>)
    requires Sized(t, m)
  {
    TrimsFit(t, [d]);
    forall k :: 0 <= k < |m| && InBlocks(t, d, k) ==> Replay(m, Trims(t, [d]))[k] == 0
  }

  predicate Sized(t: Target, m: seq<u8>) { |m| == t.totalBlocks * t.blockSize }

  /** Whatever was stored before. */
  ghost predicate AlwaysZeroesWhole(t: Target, d: Descriptor)
  {
    forall m: seq<u8> :: Sized(t, m) ==> ZeroesWhole(t, d, m)
  }

  /** A range in bounds is zeroed whole, whatever was stored, exactly when it is shorter than 4 GB. */
  lemma {:induction false} RangeZeroedWholeExactly(t: Target, d: Descriptor)
    requires Trimmable(t, d)
    ensures AlwaysZeroesWhole(t, d) <==> d.nlb * t.blockSize < 0x1_0000_0000
  {
    if d.nlb * t.blockSize < 0x1_0000_0000 {
      forall m: seq<u8> | Sized(t, m)
        ensures ZeroesWhole(t, d, m)
      {
        UncutIsWhole(t, d, m);
      }
    } else {
      var m := Ones(t.totalBlocks * t.blockSize);
      CutIsNotWhole(t, d, m);
    }
  }

  function Ones(n: nat): (m: seq<u8>)
    ensures |m| == n && forall i :: 0 <= i < n ==> m[i] == 1
  {
    seq(n, (i: nat) => 1)
  }

  lemma {:induction false} UncutIsWhole(t: Target, d: Descriptor, m: seq<u8>)
    requires Trimmable(t, d) && d.nlb * t.blockSize < 0x1_0000_0000 && Sized(t, m)
    ensures ZeroesWhole(t, d, m)
  {
    forall k | 0 <= k < |m| && InBlocks(t, d, k)
      ensures AllFit(Trims(t, [d]), |m|) && Replay(m, Trims(t, [d]))[k] == 0
    {
      TrimsAreZero(t, [d], m, k);
      assert InTrim(t, [d][0], k);
    }
  }

  lemma {:induction false} CutIsNotWhole(t: Target, d: Descriptor, m: seq<u8>)
    requires Trimmable(t, d) && d.nlb * t.blockSize >= 0x1_0000_0000
    requires Sized(t, m) && forall i :: 0 <= i < |m| ==> m[i] != 0
    ensures !ZeroesWhole(t, d, m)
  {
    FitsBytes(d.slba, d.nlb, t.blockSize, t.totalBlocks);
    var k: nat := d.slba * t.blockSize + TrimLength(t, d);
    assert InBlocks(t, d, k) && !InTrim(t, d, k);
    TrimsAreZero(t, [d], m, k);
    assert !Trimmed(t, [d], k);
  }

  /** 8388608 blocks of 512 bytes are 4 GB: deallocating them in one range leaves every byte as it was. */
  lemma {:induction false} FourGigabytesStay(t: Target, host: seq<u8>, cmd: Command)
    requires t.Sound() && t.media.Media? && t.blockSize == 512 && |host| == HOST_SIZE
    requires Mappable(host, cmd) && RangeCount(cmd) == 1 && DescriptorAt(host, cmd.prp1).nlb == 8388608
    requires RangesChecked(host, cmd, t.totalBlocks)
    ensures DatasetManagement(t, host, cmd) == t.media
  {
    var ds := Descriptors(host, cmd.prp1, 1);
    TrimsFit(t, ds);
    if Trimmable(t, ds[0]) {
      var at := ds[0].slba * t.blockSize;
      assert Trims(t, ds) == [Update(at, Zeros(0))] by {
        assert ds[1..] == [];
      }
      ReplayOne(t.media.bytes, Update(at, Zeros(0)));
      assert Poke(t.media.bytes, at, Zeros(0)) == t.media.bytes;
    } else {
      assert Trims(t, ds) == [] by {
        assert ds[1..] == [];
      }
    }
  }

  // ----- Histories -----

  /** A command and host memory as it is when the command is taken. */
  datatype Step = Step(host: seq<u8>, past: seq<u64>, cmd: Command) {
    predicate Ok(totalBlocks: nat)
    {
      && |host| == HOST_SIZE
      && (cmd.opc in {READ, WRITE, COMPARE, WRITE_ZEROES} ==> CheckHolds(Slba(cmd), Nlb(cmd), totalBlocks))
      && (cmd.opc == DATASET_MANAGEMENT ==> RangesChecked(host, cmd, totalBlocks))
    }
  }

  /** The media after one command. */
  function Execute(t: Target, s: Step): (r: Media)
    requires t.Sound() && s.Ok(t.totalBlocks)
  {
    if s.cmd.opc == WRITE then Write(t, s.host, s.past, s.cmd).media
    else if s.cmd.opc == WRITE_ZEROES then WriteZeroes(t, s.cmd).media
    else if s.cmd.opc == DATASET_MANAGEMENT then DatasetManagement(t, s.host, s.cmd)
    else t.media
  }

  /** What the command answers. */
  function StatusOf(t: Target, s: Step): (r: Status)
    requires t.Sound() && s.Ok(t.totalBlocks)
  {
    if s.cmd.opc == READ then Read(t, s.host, s.past, s.cmd).status
    else if s.cmd.opc == WRITE then Write(t, s.host, s.past, s.cmd).status
    else if s.cmd.opc == COMPARE then Compare(t, s.host, s.past, s.cmd)
    else if s.cmd.opc == WRITE_ZEROES then WriteZeroes(t, s.cmd).status
    else if s.cmd.opc == DATASET_MANAGEMENT || s.cmd.opc == FLUSH then SUCCESS
    else INVALID_OPCODE
  }

  /** A namespace created read-only is written like any other: its flag is stored and never asked for. */
  lemma {:induction false} ReadOnlyNamespaceIsWritable(t: Target, s: Step)
    requires t.Sound() && s.Ok(t.totalBlocks)
    ensures var u := t.(readOnly := !t.readOnly);
            && u.Sound()
            && StatusOf(u, s) == StatusOf(t, s) && Execute(u, s) == Execute(t, s)
            && (s.cmd.opc == READ ==> Read(u, s.host, s.past, s.cmd) == Read(t, s.host, s.past, s.cmd))
  {
    var u := t.(readOnly := !t.readOnly);
    if s.cmd.opc == DATASET_MANAGEMENT && Deallocate(s.cmd) && Mappable(s.host, s.cmd) {
      TrimsIgnoreBytes(t, u, Descriptors(s.host, s.cmd.prp1, RangeCount(s.cmd)));
    }
  }

  /** What one command puts on the flat array: a write its payload when it succeeds, a zeroing its
      range, a deallocation its ranges. */
  function Effects(t: Target, s: Step): seq<Update>
    requires t.Sound() && s.Ok(t.totalBlocks)
  {
    if t.media.NoMedia? then []
    else if s.cmd.opc == WRITE && Write(t, s.host, s.past, s.cmd).status == SUCCESS then
      var data := Payload(t, s.host, s.past, s.cmd);
      [Update(At(t, s.cmd), if t.Direct() then data else Padded(data, Length(t, s.cmd)))]
    else if s.cmd.opc == WRITE_ZEROES && WriteZeroes(t, s.cmd).status == SUCCESS then
      [Update(At(t, s.cmd), Zeros(Length(t, s.cmd)))]
    else if s.cmd.opc == DATASET_MANAGEMENT && !t.media.readOnly && Deallocate(s.cmd) && Mappable(s.host, s.cmd) then
      Trims(t, Descriptors(s.host, s.cmd.prp1, RangeCount(s.cmd)))
    else []
  }

  lemma {:induction false} ExecuteIsEffects(t: Target, s: Step)
    requires t.Sound() && s.Ok(t.totalBlocks) && t.media.Media?
    ensures AllFit(Effects(t, s), |t.media.bytes|)
    ensures Execute(t, s) == t.media.(bytes := Replay(t.media.bytes, Effects(t, s)))
  {
    if s.cmd.opc == WRITE && Write(t, s.host, s.past, s.cmd).status == SUCCESS {
      InRangeFits(t, s.cmd);
      ReplayOne(t.media.bytes, Effects(t, s)[0]);
    } else if s.cmd.opc == WRITE_ZEROES && WriteZeroes(t, s.cmd).status == SUCCESS {
      InRangeFits(t, s.cmd);
      ReplayOne(t.media.bytes, Effects(t, s)[0]);
      assert Length(t, s.cmd) == 0 ==> Poke(t.media.bytes, At(t, s.cmd), Zeros(0)) == t.media.bytes;
    } else if s.cmd.opc == DATASET_MANAGEMENT && Deallocate(s.cmd) && Mappable(s.host, s.cmd) {
      TrimsFit(t, Descriptors(s.host, s.cmd.prp1, RangeCount(s.cmd)));
    }
  }

  predicate AllOk(run: seq<Step>, totalBlocks: nat)
  {
    forall i :: 0 <= i < |run| ==> run[i].Ok(totalBlocks)
  }

  /** The media after a run of commands. */
  function Run(t: Target, run: seq<Step>): (r: Media)
    requires t.Sound() && t.media.Media? && AllOk(run, t.totalBlocks)
    ensures WithMedia(t, r).Sound() && r.Media? && WithMedia(t, r).Direct() == t.Direct()
    decreases |run|
  {
    if run == [] then t.media
    else
      assert run[0].Ok(t.totalBlocks);
      ExecuteIsEffects(t, run[0]);
      Run(WithMedia(t, Execute(t, run[0])), run[1..])
  }

  function AllEffects(t: Target, run: seq<Step>): seq<Update>
    requires t.Sound() && AllOk(run, t.totalBlocks)
    decreases |run|
  {
    if run == [] then []
    else
      assert run[0].Ok(t.totalBlocks);
      Effects(t, run[0]) + AllEffects(t, run[1..])
  }

  /** What a command does never depends on the bytes stored before. */
  lemma {:induction false} EffectsIgnoreBytes(t: Target, u: Target, run: seq<Step>)
    requires t.Sound() && u.Sound() && AllOk(run, t.totalBlocks) && t.media.Media? && u.media.Media?
    requires u == t.(media := t.media.(bytes := u.media.bytes))
    ensures AllEffects(u, run) == AllEffects(t, run)
    decreases |run|
  {
    if run != [] {
      assert run[0].Ok(t.totalBlocks);
      EffectIgnoresBytes(t, u, run[0]);
      EffectsIgnoreBytes(t, u, run[1..]);
    }
  }

  lemma {:induction false} EffectIgnoresBytes(t: Target, u: Target, s: Step)
    requires t.Sound() && u.Sound() && s.Ok(t.totalBlocks) && t.media.Media? && u.media.Media?
    requires u == t.(media := t.media.(bytes := u.media.bytes))
    ensures Effects(u, s) == Effects(t, s)
  {
    if s.cmd.opc == DATASET_MANAGEMENT && Deallocate(s.cmd) && Mappable(s.host, s.cmd) {
      TrimsIgnoreBytes(t, u, Descriptors(s.host, s.cmd.prp1, RangeCount(s.cmd)));
    }
  }

  lemma {:induction false} TrimsIgnoreBytes(t: Target, u: Target, ds: seq<Descriptor>)
    requires t.blockSize == u.blockSize && t.totalBlocks == u.totalBlocks
    ensures Trims(u, ds) == Trims(t, ds)
    decreases |ds|
  {
    if ds != [] {
      TrimsIgnoreBytes(t, u, ds[1..]);
    }
  }

  lemma {:induction false} RunIsReplay(t: Target, run: seq<Step>)
    requires t.Sound() && t.media.Media? && AllOk(run, t.totalBlocks)
    ensures AllFit(AllEffects(t, run), |t.media.bytes|)
    ensures Run(t, run) == t.media.(bytes := Replay(t.media.bytes, AllEffects(t, run)))
    decreases |run|
  {
    if run != [] {
      assert run[0].Ok(t.totalBlocks);
      ExecuteIsEffects(t, run[0]);
      var u := WithMedia(t, Execute(t, run[0]));
      RunIsReplay(u, run[1..]);
      EffectsIgnoreBytes(t, u, run[1..]);
      ReplayAppend(t.media.bytes, Effects(t, run[0]), AllEffects(t, run[1..]));
    }
  }

  lemma {:induction false} RunSplit(t: Target, a: seq<Step>, b: seq<Step>)
    requires t.Sound() && t.media.Media? && AllOk(a, t.totalBlocks) && AllOk(b, t.totalBlocks)
    ensures AllOk(a + b, t.totalBlocks)
    ensures Run(t, a + b) == Run(WithMedia(t, Run(t, a)), b)
    decreases |a|
  {
    if a == [] {
      assert a + b == b && WithMedia(t, t.media) == t;
    } else {
      assert (a + b)[0] == a[0] && (a + b)[1..] == a[1..] + b;
      assert a[0].Ok(t.totalBlocks);
      ExecuteIsEffects(t, a[0]);
      RunSplit(WithMedia(t, Execute(t, a[0])), a[1..], b);
    }
  }

  lemma {:induction false} FailureHasNoEffect(t: Target, s: Step)
    requires t.Sound() && s.Ok(t.totalBlocks) && StatusOf(t, s) != SUCCESS
    ensures Execute(t, s) == t.media
    ensures s.cmd.opc == READ ==> Read(t, s.host, s.past, s.cmd).host == s.host
  {
  }

  /** A command that fails, for a refused page list or any other reason, might as well not have been sent:
      leaving it out of a run changes nothing in the end. */
  lemma {:induction false} FailedCommandsVanish(t: Target, a: seq<Step>, s: Step, b: seq<Step>)
    requires t.Sound() && t.media.Media?
    requires AllOk(a, t.totalBlocks) && s.Ok(t.totalBlocks) && AllOk(b, t.totalBlocks)
    requires StatusOf(WithMedia(t, Run(t, a)), s) != SUCCESS
    ensures AllOk(a + [s] + b, t.totalBlocks) && AllOk(a + b, t.totalBlocks)
    ensures Run(t, a + [s] + b) == Run(t, a + b)
  {
    var u := WithMedia(t, Run(t, a));
    FailureHasNoEffect(u, s);
    assert a + [s] + b == a + ([s] + b);
    assert ([s] + b)[1..] == b;
    RunSplit(t, a, [s] + b);
    RunSplit(t, a, b);
  }

  /** After any run of commands a read through any page list returns, byte for byte, what the run put
      there last. */
  lemma {:induction false} ReadSeesLatest(t: Target, run: seq<Step>, host: seq<u8>, past: seq<u64>,
                                          cmd: Command, j: nat)
    requires t.Sound() && t.media.Media? && AllOk(run, t.totalBlocks)
    requires |host| == HOST_SIZE && Checked(t, cmd) && j < Length(t, cmd)
    requires Delivers(t, host, past, cmd) && PairwiseApart(PageList(t, host, past, cmd).list)
    requires Read(WithMedia(t, Run(t, run)), host, past, cmd).status == SUCCESS
    ensures var u := WithMedia(t, Run(t, run));
            var list := PageList(u, host, past, cmd).list;
            && At(t, cmd) + j < |t.media.bytes|
            && AllInHost(list, HOST_SIZE) && Total(list) == Length(t, cmd)
            && Gather(Read(u, host, past, cmd).host, list)[j]
               == Latest(AllEffects(t, run), At(t, cmd) + j, t.media.bytes[At(t, cmd) + j])
  {
    RunIsReplay(t, run);
    var u := WithMedia(t, Run(t, run));
    InRangeFits(t, cmd);
    ReadDelivers(u, host, past, cmd);
    ReplayIsLatest(t.media.bytes, AllEffects(t, run), At(t, cmd) + j);
  }
}

/** What the kernel's I/O commands mean: each as a function of the namespace, host memory and the
    command (vnvme/io_cmd.c), and their meaning over one flat array of bytes per namespace. */
module BlockCommands {
  import opened NvmeTypes
  import opened Bytes
  import opened Prp
  import opened Transfer
  import StorageMedia

  datatype Status = Status(sct: u8, sc: u8)

  const SUCCESS := Status(0, 0x00)
  const INVALID_OPCODE := Status(0, 0x01)
  const INVALID_FIELD := Status(0, 0x02)
  const INTERNAL_ERROR := Status(0, 0x06)
  const INVALID_NAMESPACE := Status(0, 0x0B)
  const LBA_OUT_OF_RANGE := Status(0, 0x80)
  const WRITE_FAULT := Status(2, 0x80)
  const READ_ERROR := Status(2, 0x81)
  const COMPARE_FAILURE := Status(2, 0x85)

  const MAX_BUFFERED: nat := 2 * 1024 * 1024

  /** What backs a namespace. */
  datatype Media = NoMedia | Media(kind: StorageMedia.Kind, readOnly: bool, bytes: seq<u8>)

  /** An active namespace as a command finds it. The read-only flag is the namespace's own, set when it is
      created; the storage behind it has another. */
  datatype Target = Target(blockSize: nat, totalBlocks: nat, readOnly: bool, media: Media) {
    ghost predicate Sound()
    {
      && (blockSize == 512 || blockSize == 4096)
      && (media.Media? ==>
            && |media.bytes| == totalBlocks * blockSize
            && (media.kind == StorageMedia.Memory ==> |media.bytes| <= StorageMedia.MAX_MEMORY))
    }

    predicate Direct() { media.Media? && media.kind == StorageMedia.Memory }
  }

  function Slba(cmd: Command): (r: u64)
  {
    var high: int, low: int := cmd.cdw11, cmd.cdw10;
    0x1_0000_0000 * high + low
  }

  /** The low word of CDW12 plus one, kept in 16 bits. */
  function Nlb(cmd: Command): (r: u16) { (cmd.cdw12 % 0x1_0000 + 1) % 0x1_0000 }

  predicate LbaInRange(slba: u64, nlb: nat, total: nat) { (slba + nlb) % U64 <= total }

  /** Where that check tells the truth. */
  predicate Checked(t: Target, cmd: Command) { CheckHolds(Slba(cmd), Nlb(cmd), t.totalBlocks) }

  function Length(t: Target, cmd: Command): (r: u32)
    requires t.Sound()
  {
    Nlb(cmd) * t.blockSize
  }

  function At(t: Target, cmd: Command): nat { Slba(cmd) * t.blockSize }

  lemma {:induction false} FitsBytes(slba: nat, nlb: nat, blockSize: nat, totalBlocks: nat)
    requires slba + nlb <= totalBlocks
    ensures slba * blockSize + nlb * blockSize <= totalBlocks * blockSize
  {
    assert slba * blockSize + nlb * blockSize == (slba + nlb) * blockSize;
    assert totalBlocks * blockSize == (slba + nlb) * blockSize + (totalBlocks - slba - nlb) * blockSize;
  }

  /** A command whose range passes the check addresses bytes the media has. */
  lemma {:induction false} InRangeFits(t: Target, cmd: Command)
    requires t.Sound() && Checked(t, cmd) && LbaInRange(Slba(cmd), Nlb(cmd), t.totalBlocks)
    ensures At(t, cmd) + Length(t, cmd) <= t.totalBlocks * t.blockSize
  {
    FitsBytes(Slba(cmd), Nlb(cmd), t.blockSize, t.totalBlocks);
  }

  // ----- The commands -----

  function Stored(t: Target, at: nat, n: nat): (r: seq<u8>)
    requires t.media.Media? ==> at + n <= |t.media.bytes|
    ensures |r| == n
  {
    if t.media.NoMedia? then Zeros(n) else Peek(t.media.bytes, at, n)
  }

  datatype ReadResult = ReadResult(status: Status, host: seq<u8>)
  datatype WriteResult = WriteResult(status: Status, media: Media)

  function Read(t: Target, host: seq<u8>, past: seq<u64>, cmd: Command): (r: ReadResult)
    requires t.Sound() && Checked(t, cmd) && |host| == HOST_SIZE
    ensures |r.host| == |host|
  {
    if !LbaInRange(Slba(cmd), Nlb(cmd), t.totalBlocks) then ReadResult(LBA_OUT_OF_RANGE, host)
    else if t.media.Media? && !t.Direct() && Length(t, cmd) > MAX_BUFFERED then ReadResult(INVALID_FIELD, host)
    else match Parse(host, past, cmd.prp1, cmd.prp2, Length(t, cmd))
      case Invalid => ReadResult(INTERNAL_ERROR, host)
      case Segments(list) =>
        InRangeFits(t, cmd);
        ParseInHost(host, past, cmd.prp1, cmd.prp2, Length(t, cmd));
        ParseDelivers(host, past, cmd.prp1, cmd.prp2, Length(t, cmd));
        ReadResult(SUCCESS, Scatter(host, list, Stored(t, At(t, cmd), Length(t, cmd))))
  }

  /** The bytes a command's page list delivers. */
  function Payload(t: Target, host: seq<u8>, past: seq<u64>, cmd: Command): (r: seq<u8>)
    requires t.Sound() && |host| == HOST_SIZE
    requires Parse(host, past, cmd.prp1, cmd.prp2, Length(t, cmd)).Segments?
    ensures |r| <= Length(t, cmd)
  {
    var list := Parse(host, past, cmd.prp1, cmd.prp2, Length(t, cmd)).list;
    ParseInHost(host, past, cmd.prp1, cmd.prp2, Length(t, cmd));
    ParseDelivers(host, past, cmd.prp1, cmd.prp2, Length(t, cmd));
    Gather(host, list)
  }

  /** A fresh buffer is zeroed, so what the list does not deliver is zeros. */
  function Padded(data: seq<u8>, n: nat): (r: seq<u8>)
    requires |data| <= n
    ensures |r| == n
  {
    data + Zeros(n - |data|)
  }

  function Write(t: Target, host: seq<u8>, past: seq<u64>, cmd: Command): (r: WriteResult)
    requires t.Sound() && Checked(t, cmd) && |host| == HOST_SIZE
    ensures r.media.Media? <==> t.media.Media?
  {
    if !LbaInRange(Slba(cmd), Nlb(cmd), t.totalBlocks) then WriteResult(LBA_OUT_OF_RANGE, t.media)
    else if !t.Direct() && Length(t, cmd) > MAX_BUFFERED then WriteResult(INVALID_FIELD, t.media)
    else if Parse(host, past, cmd.prp1, cmd.prp2, Length(t, cmd)).Invalid? then WriteResult(INTERNAL_ERROR, t.media)
    else
      InRangeFits(t, cmd);
      var data := Payload(t, host, past, cmd);
      if t.media.NoMedia? then WriteResult(SUCCESS, t.media)
      else if t.Direct() then WriteResult(SUCCESS, t.media.(bytes := Poke(t.media.bytes, At(t, cmd), data)))
      else if t.media.readOnly then WriteResult(WRITE_FAULT, t.media)
      else WriteResult(SUCCESS, t.media.(bytes := Poke(t.media.bytes, At(t, cmd), Padded(data, Length(t, cmd)))))
  }

  function WriteZeroes(t: Target, cmd: Command): (r: WriteResult)
    requires t.Sound() && Checked(t, cmd)
    ensures r.media.Media? <==> t.media.Media?
  {
    if !LbaInRange(Slba(cmd), Nlb(cmd), t.totalBlocks) then WriteResult(LBA_OUT_OF_RANGE, t.media)
    else if t.media.NoMedia? || Length(t, cmd) == 0 then WriteResult(SUCCESS, t.media)
    else if t.media.readOnly then WriteResult(WRITE_FAULT, t.media)
    else
      InRangeFits(t, cmd);
      WriteResult(SUCCESS, t.media.(bytes := Poke(t.media.bytes, At(t, cmd), Zeros(Length(t, cmd)))))
  }

  function Compare(t: Target, host: seq<u8>, past: seq<u64>, cmd: Command): (r: Status)
    requires t.Sound() && Checked(t, cmd) && |host| == HOST_SIZE
  {
    if !LbaInRange(Slba(cmd), Nlb(cmd), t.totalBlocks) then LBA_OUT_OF_RANGE
    else if Length(t, cmd) > MAX_BUFFERED then INVALID_FIELD
    else if Parse(host, past, cmd.prp1, cmd.prp2, Length(t, cmd)).Invalid? then INTERNAL_ERROR
    else
      InRangeFits(t, cmd);
      if Padded(Payload(t, host, past, cmd), Length(t, cmd)) == Stored(t, At(t, cmd), Length(t, cmd)) then SUCCESS
      else COMPARE_FAILURE
  }

  // ----- Dataset management -----

  datatype Descriptor = Descriptor(nlb: u32, slba: u64)

  function RangeCount(cmd: Command): (r: nat) { cmd.cdw10 % 0x100 + 1 }

  predicate Deallocate(cmd: Command) { (cmd.cdw11 / 4) % 2 == 1 }

  /** PRP1 is not validated here; a list of ranges outside host memory cannot be mapped. */
  predicate Mappable(host: seq<u8>, cmd: Command) { cmd.prp1 + 16 * RangeCount(cmd) <= |host| }

  function DescriptorAt(host: seq<u8>, at: nat): Descriptor
    requires at + 16 <= |host|
  {
    Descriptor(Word32(host, at + 4), Word64(host, at + 8))
  }

  function Descriptors(host: seq<u8>, at: nat, n: nat): (r: seq<Descriptor>)
    requires at + 16 * n <= |host|
    ensures |r| == n
  {
    seq(n, (i: nat) requires i < n => DescriptorAt(host, at + 16 * i))
  }

  predicate Trimmable(t: Target, d: Descriptor) { d.nlb > 0 && d.slba + d.nlb <= t.totalBlocks }

  /** The range check tells the truth on every range that the command has zeroed. */
  predicate RangesChecked(host: seq<u8>, cmd: Command, totalBlocks: nat)
  {
    Deallocate(cmd) && Mappable(host, cmd) ==>
      forall d :: d in Descriptors(host, cmd.prp1, RangeCount(cmd)) ==> CheckHolds(d.slba, d.nlb, totalBlocks)
  }

  /** The byte length of a range is cut to 32 bits. */
  function TrimLength(t: Target, d: Descriptor): (r: u32) { (d.nlb * t.blockSize) % 0x1_0000_0000 }

  /** The zeroings of a list of ranges: those that are out of bounds are passed over. */
  function Trims(t: Target, ds: seq<Descriptor>): (r: seq<Update>)
    decreases |ds|
  {
    if ds == [] then []
    else if Trimmable(t, ds[0]) then
      [Update(ds[0].slba * t.blockSize, Zeros(TrimLength(t, ds[0])))] + Trims(t, ds[1..])
    else Trims(t, ds[1..])
  }

  /** What is zeroed of a range lies in the namespace. */
  lemma {:induction false} TrimBounds(t: Target, d: Descriptor)
    requires Trimmable(t, d)
    ensures d.slba * t.blockSize + TrimLength(t, d) <= t.totalBlocks * t.blockSize
  {
    FitsBytes(d.slba, d.nlb, t.blockSize, t.totalBlocks);
  }

  lemma {:induction false} TrimsFit(t: Target, ds: seq<Descriptor>)
    ensures AllFit(Trims(t, ds), t.totalBlocks * t.blockSize)
    decreases |ds|
  {
    if ds != [] {
      TrimsFit(t, ds[1..]);
      if Trimmable(t, ds[0]) {
        TrimBounds(t, ds[0]);
      }
    }
  }

  predicate Fits(t: Target, media: Media) { media.Media? ==> |media.bytes| == t.totalBlocks * t.blockSize }

  /** The media after the zeroings of a list of ranges. */
  function TrimAll(t: Target, media: Media, ds: seq<Descriptor>): (r: Media)
    requires Fits(t, media)
    ensures Fits(t, r) && (r.Media? <==> media.Media?)
  {
    if media.NoMedia? || media.readOnly then media
    else
      TrimsFit(t, ds);
      media.(bytes := Replay(media.bytes, Trims(t, ds)))
  }

  /** The media after one range. */
  function TrimRange(t: Target, media: Media, d: Descriptor): (r: Media)
    requires Fits(t, media)
    ensures Fits(t, r)
  {
    if media.NoMedia? || media.readOnly || !Trimmable(t, d) then media
    else
      TrimBounds(t, d);
      media.(bytes := Poke(media.bytes, d.slba * t.blockSize, Zeros(TrimLength(t, d))))
  }

  lemma {:induction false} TrimStep(t: Target, media: Media, ds: seq<Descriptor>)
    requires Fits(t, media) && ds != []
    ensures TrimAll(t, media, ds) == TrimAll(t, TrimRange(t, media, ds[0]), ds[1..])
  {
    TrimsFit(t, ds);
    if Trimmable(t, ds[0]) {
      assert Trims(t, ds)[1..] == Trims(t, ds[1..]);
    }
  }

  function DatasetManagement(t: Target, host: seq<u8>, cmd: Command): (r: Media)
    requires t.Sound() && |host| == HOST_SIZE && RangesChecked(host, cmd, t.totalBlocks)
    ensures Fits(t, r) && (r.Media? <==> t.media.Media?)
  {
    if !Deallocate(cmd) || !Mappable(host, cmd) then t.media
    else TrimAll(t, t.media, Descriptors(host, cmd.prp1, RangeCount(cmd)))
  }
}

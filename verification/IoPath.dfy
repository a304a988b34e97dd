/** The kernel's I/O command handlers (vnvme/io_cmd.c), proved against BlockCommands. */
module IoPath {
  import opened NvmeTypes
  import opened Bytes
  import opened Prp
  import opened Transfer
  import opened BlockCommands
  import opened BlockLaws
  import opened StorageMedia
  import opened CompletionRing
  import opened Queues

  const WRITE_ZEROES_CHUNK: nat := 1024 * 1024

  datatype Namespace = Namespace(active: bool, blockSize: nat, totalBlocks: nat, readOnly: bool, storage: Storage?)

  class Device {
    const host: array<u8>
    const namespaces: seq<Namespace>
    var ioCommandsProcessed: nat
    var bytesRead: nat
    var bytesWritten: nat

    ghost predicate Valid()
      reads this, set ns | ns in namespaces :: ns.storage
    {
      && host.Length == HOST_SIZE
      && |namespaces| == MAX_NAMESPACES
      && forall ns :: ns in namespaces && ns.active ==> ValidNamespace(ns)
    }

    ghost predicate ValidNamespace(ns: Namespace)
      reads ns.storage
    {
      && (ns.blockSize == 512 || ns.blockSize == 4096)
      && ns.totalBlocks * ns.blockSize < 0x1_0000_0000_0000
      && (ns.storage != null ==>
            && ns.storage.data != host
            && ns.storage.data.Length == ns.totalBlocks * ns.blockSize
            && (ns.storage.kind == Memory ==> ns.storage.data.Length <= MAX_MEMORY))
    }

    predicate Known(nsid: u32)
      requires |namespaces| == MAX_NAMESPACES
    {
      0 < nsid <= MAX_NAMESPACES && namespaces[nsid - 1].active
    }

    ghost function MediaOf(s: Storage?): Media
      reads s, if s != null then {s.data} else {}
    {
      if s == null then NoMedia else Media(s.kind, s.readOnly, s.data[..])
    }

    /** The namespace as the commands see it. */
    ghost function TargetOf(ns: Namespace): Target
      reads ns.storage, if ns.storage != null then {ns.storage.data} else {}
    {
      Target(ns.blockSize, ns.totalBlocks, ns.readOnly, MediaOf(ns.storage))
    }

    ghost function Disk(ns: Namespace): set<object>
    {
      if ns.storage == null then {} else {ns.storage, ns.storage.data}
    }

    // ----- The parts the handlers share -----

    /** The data a read hands out: a pointer into memory storage, or a buffer filled from the file. */
    method Source(ns: Namespace, offset: nat, length: u32)
      returns (status: Status, src: array<u8>, at: nat)
      requires ValidNamespace(ns) && offset + length <= ns.totalBlocks * ns.blockSize
      modifies if ns.storage != null then {ns.storage} else {}
      ensures MediaOf(ns.storage) == old(MediaOf(ns.storage)) && ValidNamespace(ns)
      ensures src != host
      ensures status == (if ns.storage != null && ns.storage.kind == File && length > MAX_BUFFERED
                         then INVALID_FIELD else SUCCESS)
      ensures status == SUCCESS ==>
                at + length <= src.Length && Peek(src[..], at, length) == Stored(TargetOf(ns), offset, length)
    {
      at := 0;
      if ns.storage == null {
        src := new u8[length](_ => 0);
        status := SUCCESS;
        assert src[..] == Zeros(length);
        assert Peek(src[..], 0, length) == src[..];
        return;
      }
      var direct := ns.storage.GetDirect(offset, length);
      if direct.Success? {
        return SUCCESS, ns.storage.data, offset;
      }
      src := new u8[length](_ => 0);
      if length > MAX_BUFFERED {
        return INVALID_FIELD, src, 0;
      }
      var r := ns.storage.Read(offset, src, length);
      status := if r.Success? then SUCCESS else READ_ERROR;
      assert Peek(src[..], 0, length) == src[..];
    }

    /** Data out to the pages of a command. */
    method ToHost(src: array<u8>, at: nat, total: u32, past: seq<u64>, cmd: Command) returns (ok: bool)
      requires host.Length == HOST_SIZE && src != host && at + total <= src.Length
      modifies host
      ensures ok == Parse(old(host[..]), past, cmd.prp1, cmd.prp2, total).Segments?
      ensures !ok ==> host[..] == old(host[..])
      ensures ok ==>
                var list := Parse(old(host[..]), past, cmd.prp1, cmd.prp2, total).list;
                && AllInHost(list, HOST_SIZE) && Total(list) <= total
                && host[..] == Scatter(old(host[..]), list, Peek(src[..], at, total))
    {
      ghost var h := host[..];
      var entries, count;
      ok, entries, count := ParsePrpList(host, past, cmd.prp1, cmd.prp2, total);
      if ok {
        ParseInHost(h, past, cmd.prp1, cmd.prp2, total);
        ParseDelivers(h, past, cmd.prp1, cmd.prp2, total);
        ScatterFrom(src, at, total, host, entries, count);
      }
    }

    // ----- The handlers, for an active namespace -----

    method ReadBlocks(ns: Namespace, past: seq<u64>, cmd: Command) returns (status: Status)
      requires host.Length == HOST_SIZE && ValidNamespace(ns) && CheckHolds(Slba(cmd), Nlb(cmd), ns.totalBlocks)
      modifies this, host, if ns.storage != null then {ns.storage} else {}
      ensures TargetOf(ns) == old(TargetOf(ns)) && ValidNamespace(ns)
      ensures ReadResult(status, host[..]) == BlockCommands.Read(old(TargetOf(ns)), old(host[..]), past, cmd)
      ensures bytesRead == old(bytesRead) + (if status == SUCCESS then Length(TargetOf(ns), cmd) else 0)
      ensures bytesWritten == old(bytesWritten)
      ensures ioCommandsProcessed == old(ioCommandsProcessed) + (if status == SUCCESS then 1 else 0)
    {
      ghost var t, h := TargetOf(ns), host[..];
      var slba, nlb := Slba(cmd), Nlb(cmd);
      var totalBytes: u32, byteOffset: nat := nlb * ns.blockSize, slba * ns.blockSize;
      if !LbaInRange(slba, nlb, ns.totalBlocks) {
        return LBA_OUT_OF_RANGE;
      }
      InRangeFits(t, cmd);
      var src, at;
      status, src, at := Source(ns, byteOffset, totalBytes);
      if status != SUCCESS {
        return;
      }
      var ok := ToHost(src, at, totalBytes, past, cmd);
      if !ok {
        return INTERNAL_ERROR;
      }
      bytesRead := bytesRead + totalBytes;
      ioCommandsProcessed := ioCommandsProcessed + 1;
    }

    /** Data in from the pages of a command. */
    method FromHost(dst: array<u8>, at: nat, total: u32, past: seq<u64>, cmd: Command) returns (ok: bool)
      requires host.Length == HOST_SIZE && dst != host && at + total <= dst.Length
      modifies dst
      ensures ok == Parse(host[..], past, cmd.prp1, cmd.prp2, total).Segments?
      ensures !ok ==> dst[..] == old(dst[..])
      ensures ok ==>
                var list := Parse(host[..], past, cmd.prp1, cmd.prp2, total).list;
                && AllInHost(list, HOST_SIZE) && Total(list) <= total
                && dst[..] == Poke(old(dst[..]), at, Gather(host[..], list))
    {
      var entries, count;
      ok, entries, count := ParsePrpList(host, past, cmd.prp1, cmd.prp2, total);
      if ok {
        ParseInHost(host[..], past, cmd.prp1, cmd.prp2, total);
        ParseDelivers(host[..], past, cmd.prp1, cmd.prp2, total);
        GatherInto(host, entries, count, dst, at, total);
      }
    }

    /** A fresh buffer filled from the pages of a command; what they do not deliver stays zero. */
    method BufferFromHost(total: u32, past: seq<u64>, cmd: Command) returns (ok: bool, buffer: array<u8>)
      requires host.Length == HOST_SIZE
      ensures fresh(buffer) && buffer.Length == total
      ensures ok == Parse(host[..], past, cmd.prp1, cmd.prp2, total).Segments?
      ensures ok ==>
                var list := Parse(host[..], past, cmd.prp1, cmd.prp2, total).list;
                && AllInHost(list, HOST_SIZE) && Total(list) <= total
                && buffer[..] == Padded(Gather(host[..], list), total)
    {
      buffer := new u8[total](_ => 0);
      assert buffer[..] == Zeros(total);
      ok := FromHost(buffer, 0, total, past, cmd);
    }

    /** The way of a write without direct access: gather into a buffer, then store it. */
    method WriteBuffered(ns: Namespace, offset: nat, total: u32, past: seq<u64>, cmd: Command) returns (status: Status)
      requires host.Length == HOST_SIZE && ValidNamespace(ns) && offset + total <= ns.totalBlocks * ns.blockSize
      modifies Disk(ns)
      ensures ValidNamespace(ns)
      ensures status == if total > MAX_BUFFERED then INVALID_FIELD
                        else if Parse(host[..], past, cmd.prp1, cmd.prp2, total).Invalid? then INTERNAL_ERROR
                        else if ns.storage != null && ns.storage.readOnly then WRITE_FAULT
                        else SUCCESS
      ensures status != SUCCESS ==> MediaOf(ns.storage) == old(MediaOf(ns.storage))
      ensures status == SUCCESS && ns.storage != null ==>
                var list := Parse(host[..], past, cmd.prp1, cmd.prp2, total).list;
                && AllInHost(list, HOST_SIZE) && Total(list) <= total
                && ns.storage.data[..] == Poke(old(ns.storage.data[..]), offset, Padded(Gather(host[..], list), total))
    {
      if total > MAX_BUFFERED {
        return INVALID_FIELD;
      }
      var ok, buffer := BufferFromHost(total, past, cmd);
      if !ok {
        return INTERNAL_ERROR;
      }
      if ns.storage != null {
        var r := ns.storage.Write(offset, buffer, total);
        assert Peek(buffer[..], 0, total) == buffer[..];
        if !r.Success? {
          return WRITE_FAULT;
        }
      }
      status := SUCCESS;
    }

    /** The data of a write: straight into memory storage, or through a buffer. */
    method StoreFromHost(ns: Namespace, offset: nat, total: u32, past: seq<u64>, cmd: Command) returns (status: Status)
      requires host.Length == HOST_SIZE && ValidNamespace(ns) && offset + total <= ns.totalBlocks * ns.blockSize
      modifies Disk(ns)
      ensures ValidNamespace(ns)
      ensures var direct := ns.storage != null && ns.storage.kind == Memory;
              status == if !direct && total > MAX_BUFFERED then INVALID_FIELD
                        else if Parse(host[..], past, cmd.prp1, cmd.prp2, total).Invalid? then INTERNAL_ERROR
                        else if !direct && ns.storage != null && ns.storage.readOnly then WRITE_FAULT
                        else SUCCESS
      ensures status != SUCCESS ==> MediaOf(ns.storage) == old(MediaOf(ns.storage))
      ensures status == SUCCESS && ns.storage != null ==>
                var list := Parse(host[..], past, cmd.prp1, cmd.prp2, total).list;
                && AllInHost(list, HOST_SIZE) && Total(list) <= total
                && ns.storage.data[..] ==
                   Poke(old(ns.storage.data[..]), offset,
                        if ns.storage.kind == Memory then Gather(host[..], list)
                        else Padded(Gather(host[..], list), total))
    {
      var direct: StorageStatus := NotSupported;
      if ns.storage != null {
        direct := ns.storage.GetDirect(offset, total);
      }
      if direct.Success? {
        var ok := FromHost(ns.storage.data, offset, total, past, cmd);
        status := if ok then SUCCESS else INTERNAL_ERROR;
      } else {
        status := WriteBuffered(ns, offset, total, past, cmd);
      }
    }

    method WriteBlocks(ns: Namespace, past: seq<u64>, cmd: Command) returns (status: Status)
      requires host.Length == HOST_SIZE && ValidNamespace(ns) && CheckHolds(Slba(cmd), Nlb(cmd), ns.totalBlocks)
      modifies this, Disk(ns)
      ensures ValidNamespace(ns)
      ensures WriteResult(status, MediaOf(ns.storage)) == BlockCommands.Write(old(TargetOf(ns)), host[..], past, cmd)
      ensures bytesWritten == old(bytesWritten) + (if status == SUCCESS then Length(TargetOf(ns), cmd) else 0)
      ensures bytesRead == old(bytesRead)
      ensures ioCommandsProcessed == old(ioCommandsProcessed) + (if status == SUCCESS then 1 else 0)
    {
      ghost var t := TargetOf(ns);
      var slba, nlb := Slba(cmd), Nlb(cmd);
      var totalBytes: u32, byteOffset: nat := nlb * ns.blockSize, slba * ns.blockSize;
      if !LbaInRange(slba, nlb, ns.totalBlocks) {
        return LBA_OUT_OF_RANGE;
      }
      InRangeFits(t, cmd);
      status := StoreFromHost(ns, byteOffset, totalBytes, past, cmd);
      if status != SUCCESS {
        return;
      }
      bytesWritten := bytesWritten + totalBytes;
      ioCommandsProcessed := ioCommandsProcessed + 1;
    }

    /** The stored bytes in a buffer of their own. */
    method Load(ns: Namespace, offset: nat, length: u32) returns (ok: bool, buffer: array<u8>)
      requires ValidNamespace(ns) && offset + length <= ns.totalBlocks * ns.blockSize
      modifies if ns.storage != null then {ns.storage} else {}
      ensures fresh(buffer) && ValidNamespace(ns) && TargetOf(ns) == old(TargetOf(ns))
      ensures ok && buffer[..] == Stored(TargetOf(ns), offset, length)
    {
      buffer := new u8[length](_ => 0);
      assert buffer[..] == Zeros(length);
      ok := true;
      if ns.storage != null {
        var r := ns.storage.Read(offset, buffer, length);
        ok := r.Success?;
      }
    }

    method CompareBlocks(ns: Namespace, past: seq<u64>, cmd: Command) returns (status: Status)
      requires host.Length == HOST_SIZE && ValidNamespace(ns) && CheckHolds(Slba(cmd), Nlb(cmd), ns.totalBlocks)
      modifies this, if ns.storage != null then {ns.storage} else {}
      ensures ValidNamespace(ns) && TargetOf(ns) == old(TargetOf(ns))
      ensures status == BlockCommands.Compare(TargetOf(ns), host[..], past, cmd)
      ensures bytesRead == old(bytesRead) && bytesWritten == old(bytesWritten)
      ensures ioCommandsProcessed == old(ioCommandsProcessed) +
                                     (if status == SUCCESS || status == COMPARE_FAILURE then 1 else 0)
    {
      ghost var t := TargetOf(ns);
      var slba, nlb := Slba(cmd), Nlb(cmd);
      var totalBytes: u32, byteOffset: nat := nlb * ns.blockSize, slba * ns.blockSize;
      if !LbaInRange(slba, nlb, ns.totalBlocks) {
        return LBA_OUT_OF_RANGE;
      }
      if totalBytes > MAX_BUFFERED {
        return INVALID_FIELD;
      }
      InRangeFits(t, cmd);
      var ok, compareBuffer := BufferFromHost(totalBytes, past, cmd);
      if !ok {
        return INTERNAL_ERROR;
      }
      var stored, storageBuffer := Load(ns, byteOffset, totalBytes);
      if !stored {
        return READ_ERROR;
      }
      ioCommandsProcessed := ioCommandsProcessed + 1;
      status := if compareBuffer[..] == storageBuffer[..] then SUCCESS else COMPARE_FAILURE;
    }

    method ZeroBlocks(ns: Namespace, cmd: Command) returns (status: Status)
      requires ValidNamespace(ns) && CheckHolds(Slba(cmd), Nlb(cmd), ns.totalBlocks)
      modifies this, Disk(ns)
      ensures ValidNamespace(ns)
      ensures WriteResult(status, MediaOf(ns.storage)) == BlockCommands.WriteZeroes(old(TargetOf(ns)), cmd)
      ensures bytesRead == old(bytesRead) && bytesWritten == old(bytesWritten)
      ensures ioCommandsProcessed == old(ioCommandsProcessed) + (if status == SUCCESS then 1 else 0)
    {
      ghost var t := TargetOf(ns);
      var slba, nlb := Slba(cmd), Nlb(cmd);
      var totalBytes: u32, byteOffset: nat := nlb * ns.blockSize, slba * ns.blockSize;
      if !LbaInRange(slba, nlb, ns.totalBlocks) {
        return LBA_OUT_OF_RANGE;
      }
      InRangeFits(t, cmd);
      if ns.storage != null {
        var ok := ZeroInChunks(ns.storage, byteOffset, totalBytes);
        if !ok {
          return WRITE_FAULT;
        }
      }
      ioCommandsProcessed := ioCommandsProcessed + 1;
      status := SUCCESS;
    }

    /** One exact zeroing, however many chunks it takes. */
    method ZeroInChunks(s: Storage, byteOffset: nat, totalBytes: u32) returns (ok: bool)
      requires byteOffset + totalBytes <= s.data.Length < MAX_FILE
      modifies s, s.data
      ensures ok == (totalBytes == 0 || !s.readOnly)
      ensures s.data[..] == if ok then ZeroedAt(old(s.data[..]), byteOffset, totalBytes) else old(s.data[..])
    {
      ghost var was := s.data[..];
      var remaining: nat, offset: nat := totalBytes, byteOffset;
      while remaining > 0
        invariant offset + remaining == byteOffset + totalBytes && byteOffset <= offset
        invariant s.readOnly ==> remaining == totalBytes
        invariant s.data[..] == ZeroedAt(was, byteOffset, offset - byteOffset)
      {
        var chunk := if remaining > WRITE_ZEROES_CHUNK then WRITE_ZEROES_CHUNK else remaining;
        var r := ZeroChunk(s, offset, chunk, was, byteOffset);
        if !r {
          return false;
        }
        offset, remaining := offset + chunk, remaining - chunk;
      }
      ok := true;
    }

    method ZeroChunk(s: Storage, offset: nat, chunk: u32, ghost was: seq<u8>, ghost start: nat) returns (ok: bool)
      requires start <= offset && offset + chunk <= s.data.Length == |was| < MAX_FILE && chunk > 0
      requires s.data[..] == ZeroedAt(was, start, offset - start)
      modifies s, s.data
      ensures ok == !s.readOnly
      ensures s.data[..] == if ok then ZeroedAt(was, start, offset + chunk - start) else old(s.data[..])
    {
      var r := s.WriteZeroes(offset, chunk);
      ok := r.Success?;
      ZeroedFurther(was, start, offset - start, chunk);
    }

    method TrimBlocks(ns: Namespace, cmd: Command) returns (status: Status)
      requires host.Length == HOST_SIZE && ValidNamespace(ns) && RangesChecked(host[..], cmd, ns.totalBlocks)
      modifies this, Disk(ns)
      ensures ValidNamespace(ns)
      ensures status == SUCCESS
      ensures MediaOf(ns.storage) == BlockCommands.DatasetManagement(old(TargetOf(ns)), host[..], cmd)
      ensures bytesRead == old(bytesRead) && bytesWritten == old(bytesWritten)
      ensures ioCommandsProcessed == old(ioCommandsProcessed) + 1
    {
      status := SUCCESS;
      ioCommandsProcessed := ioCommandsProcessed + 1;
      if !Deallocate(cmd) || cmd.prp1 + 16 * RangeCount(cmd) > host.Length {
        return;
      }
      TrimRanges(ns, cmd, TargetOf(ns));
    }

    /** The loop over the ranges. */
    method TrimRanges(ns: Namespace, cmd: Command, ghost t: Target)
      requires host.Length == HOST_SIZE && ValidNamespace(ns)
      requires Deallocate(cmd) && Mappable(host[..], cmd) && RangesChecked(host[..], cmd, ns.totalBlocks)
      requires t == TargetOf(ns)
      modifies Disk(ns)
      ensures ValidNamespace(ns)
      ensures MediaOf(ns.storage) == TrimAll(t, t.media, Descriptors(host[..], cmd.prp1, RangeCount(cmd)))
    {
      ghost var h := host[..];
      ghost var ds := Descriptors(h, cmd.prp1, RangeCount(cmd));
      var nr, i := RangeCount(cmd), 0;
      assert ds[0..] == ds;
      while i < nr
        invariant 0 <= i <= nr
        invariant unchanged(host) && ValidNamespace(ns)
        invariant TrimAll(t, MediaOf(ns.storage), ds[i..]) == TrimAll(t, t.media, ds)
      {
        assert ds[i..][0] == ds[i] && ds[i..][1..] == ds[i + 1..];
        TrimNext(ns, cmd.prp1 + 16 * i, t, ds[i..]);
        i := i + 1;
      }
      assert ds[i..] == [];
    }

    /** One turn of the loop: the first of the ranges that are left. */
    method TrimNext(ns: Namespace, at: nat, ghost t: Target, ghost rest: seq<Descriptor>)
      requires host.Length == HOST_SIZE && ValidNamespace(ns) && at + 16 <= host.Length
      requires t.blockSize == ns.blockSize && t.totalBlocks == ns.totalBlocks
      requires rest != [] && rest[0] == DescriptorAt(host[..], at)
      requires CheckHolds(rest[0].slba, rest[0].nlb, ns.totalBlocks)
      modifies Disk(ns)
      ensures ValidNamespace(ns)
      ensures TrimAll(t, MediaOf(ns.storage), rest[1..]) == TrimAll(t, old(MediaOf(ns.storage)), rest)
    {
      TrimStep(t, MediaOf(ns.storage), rest);
      var d := ReadDescriptor(at);
      TrimOne(ns, d, t);
    }

    method ReadDescriptor(at: nat) returns (d: Descriptor)
      requires at + 16 <= host.Length
      ensures d == DescriptorAt(host[..], at)
    {
      var nlb := ReadWord32(host, at + 4);
      var slba := ReadWord64(host, at + 8);
      d := Descriptor(nlb, slba);
    }

    /** One range of the list: skipped when empty or out of bounds, zeroed otherwise. */
    method TrimOne(ns: Namespace, d: Descriptor, ghost t: Target)
      requires ValidNamespace(ns)
      requires t.blockSize == ns.blockSize && t.totalBlocks == ns.totalBlocks
      requires CheckHolds(d.slba, d.nlb, ns.totalBlocks)
      modifies Disk(ns)
      ensures ValidNamespace(ns)
      ensures MediaOf(ns.storage) == TrimRange(t, old(MediaOf(ns.storage)), d)
    {
      if d.nlb == 0 || (d.slba + d.nlb) % U64 > ns.totalBlocks || ns.storage == null {
        return;
      }
      TrimBounds(t, d);
      ZeroRange(ns.storage, d.slba * ns.blockSize, (d.nlb * ns.blockSize) % 0x1_0000_0000);
    }

    /** A zeroing in bounds; a refusal is not reported. */
    method ZeroRange(s: Storage, offset: nat, length: u32)
      requires offset + length <= s.data.Length < MAX_FILE
      modifies s, s.data
      ensures s.data[..] == if s.readOnly then old(s.data[..]) else Poke(old(s.data[..]), offset, Zeros(length))
    {
      ghost var was := s.data[..];
      var _ := s.WriteZeroes(offset, length);
      assert length == 0 ==> Poke(was, offset, Zeros(0)) == was;
    }

    // ----- Dispatch -----

    ghost function Footprint(nsid: u32): set<object>
      requires |namespaces| == MAX_NAMESPACES
    {
      if Known(nsid) then Disk(namespaces[nsid - 1]) else {}
    }

    predicate Handled(opc: u8)
    {
      opc in {READ, WRITE, COMPARE, WRITE_ZEROES, DATASET_MANAGEMENT, FLUSH}
    }

    /** The range checks a command goes through tell the truth. */
    ghost predicate Checkable(ns: Namespace, cmd: Command)
      requires host.Length == HOST_SIZE
      reads host
    {
      && (cmd.opc in {READ, WRITE, COMPARE, WRITE_ZEROES} ==> CheckHolds(Slba(cmd), Nlb(cmd), ns.totalBlocks))
      && (cmd.opc == DATASET_MANAGEMENT ==> RangesChecked(host[..], cmd, ns.totalBlocks))
    }

    /** A handled command on an active namespace. */
    method Serve(ns: Namespace, past: seq<u64>, cmd: Command) returns (status: Status)
      requires host.Length == HOST_SIZE && ValidNamespace(ns) && Handled(cmd.opc)
      requires Checkable(ns, cmd)
      modifies this, host, Disk(ns)
      ensures ValidNamespace(ns)
      ensures cmd.opc != READ ==> host[..] == old(host[..])
      ensures var t, h := old(TargetOf(ns)), old(host[..]);
              && TargetOf(ns) == WithMedia(t, Execute(t, Step(h, past, cmd)))
              && (cmd.opc == READ ==> ReadResult(status, host[..]) == BlockCommands.Read(t, h, past, cmd))
              && status == StatusOf(t, Step(h, past, cmd))
    {
      if cmd.opc == READ {
        status := ReadBlocks(ns, past, cmd);
      } else if cmd.opc == WRITE {
        status := WriteBlocks(ns, past, cmd);
      } else if cmd.opc == COMPARE {
        status := CompareBlocks(ns, past, cmd);
      } else if cmd.opc == WRITE_ZEROES {
        status := ZeroBlocks(ns, cmd);
      } else if cmd.opc == DATASET_MANAGEMENT {
        status := TrimBlocks(ns, cmd);
      } else {
        ioCommandsProcessed := ioCommandsProcessed + 1;
        status := SUCCESS;
      }
    }

    /** One command: the opcode decides the handler, the handler looks up the namespace. */
    method Process(past: seq<u64>, cmd: Command) returns (status: Status)
      requires Valid() && (Known(cmd.nsid) ==> Checkable(namespaces[cmd.nsid - 1], cmd))
      modifies this, host, Footprint(cmd.nsid)
      ensures Valid()
      ensures cmd.opc != READ ==> host[..] == old(host[..])
      ensures Known(cmd.nsid) <==> 1 <= cmd.nsid <= 16 && namespaces[cmd.nsid - 1].active
      ensures cmd.opc !in {0x00, 0x01, 0x02, 0x05, 0x08, 0x09} ==> status == Status(0, 0x01)
      ensures cmd.opc in {0x01, 0x02, 0x05, 0x08, 0x09} && !Known(cmd.nsid) ==> status == Status(0, 0x0B)
      ensures cmd.opc == 0x00 ==>
                status == if cmd.nsid == 0xFFFF_FFFF || Known(cmd.nsid) then Status(0, 0x00) else Status(0, 0x0B)
      ensures !Handled(cmd.opc) || !Known(cmd.nsid) ==> host[..] == old(host[..])
      ensures Known(cmd.nsid) ==>
                var ns := namespaces[cmd.nsid - 1];
                var t, h := old(TargetOf(namespaces[cmd.nsid - 1])), old(host[..]);
                && TargetOf(ns) == WithMedia(t, Execute(t, Step(h, past, cmd)))
                && (cmd.opc == READ ==> ReadResult(status, host[..]) == BlockCommands.Read(t, h, past, cmd))
                && status == StatusOf(t, Step(h, past, cmd))
    {
      if !Handled(cmd.opc) {
        return INVALID_OPCODE;
      }
      if cmd.opc == FLUSH && cmd.nsid == 0xFFFF_FFFF {
        ioCommandsProcessed := ioCommandsProcessed + 1;
        return SUCCESS;
      }
      if !Known(cmd.nsid) {
        return INVALID_NAMESPACE;
      }
      status := Serve(namespaces[cmd.nsid - 1], past, cmd);
    }

    /** The completion every handler ends with. */
    ghost function CompletionOf(queues: Controller, qid: u16, cid: u16, status: Status): Completion
      requires queues.Valid() && 0 < qid <= MAX_IO_QUEUES
      reads queues, queues.sqs, queues.cqs
    {
      Completion(0, 0, queues.sqs[qid].pdoHead % 0x1_0000, qid, cid,
                 MakeStatus(status.sct, status.sc, queues.cqs[qid].phaseTag))
    }

    /** It is posted to the completion queue with the id of the submission queue it came from. */
    method PostIoCompletion(queues: Controller, qid: u16, cid: u16, status: Status) returns (posted: NtStatus)
      requires queues.Valid() && qid > 0 && status.sct < 8
      modifies queues`completionsPosted, queues.cqs
      ensures queues.Valid()
      ensures posted == old(queues.PostStatus(qid))
      ensures posted == NtStatus.Success ==>
                var c := old(CompletionOf(queues, qid, cid, status));
                && old(queues.cqs[qid]).Usable()
                && queues.cqs[qid] == old(queues.cqs[qid]).PostedTo(Put(old(queues.cqs[qid].View()), c), 1)
                && c.dw0 == c.dw1 == 0 && c.sqid == qid && c.cid == cid
                && c.sqhd == old(queues.sqs[qid].pdoHead) % 0x1_0000 && c.status / 2 == 256 * status.sct + status.sc
                && StatusCodeType(c.status) == status.sct && StatusCode(c.status) == status.sc
                && PhaseBit(c) == old(queues.cqs[qid].phaseTag)
                && (forall j :: 0 <= j <= MAX_IO_QUEUES && j != qid ==> queues.cqs[j] == old(queues.cqs[j]))
      ensures posted != NtStatus.Success ==> unchanged(queues) && unchanged(queues.cqs)
    {
      if qid > MAX_IO_QUEUES || !queues.cqs[qid].created {
        return NtStatus.InvalidParameter;
      }
      var phase := queues.cqs[qid].phaseTag;
      var sqHead := queues.sqs[qid].pdoHead % 0x1_0000;
      var c := Completion(0, 0, sqHead, qid, cid, MakeStatus(status.sct, status.sc, phase));
      StatusRoundTrip(status.sct, status.sc, phase);
      posted := queues.PostCompletion(qid, c);
    }
  }
}

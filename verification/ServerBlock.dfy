/** The server's block commands (vnvme-server/io_commands.c) on its memory back-end
    (vnvme-server/backend_memory.c), with the namespace that command_engine.c sets up. */
module ServerBlock {
  import opened NvmeTypes
  import opened Bytes
  import opened BlockCommands

  const BLOCK: nat := 512
  const MAX_BACKEND: nat := 4 * 1024 * 1024 * 1024
  const DEFAULT_BLOCKS: nat := 128 * 1024

  const WRITE_PROTECTED := Status(0, 0x82)
  const MEDIA_WRITE_FAULT := Status(2, 0x82)

  datatype NamespaceConfig = NamespaceConfig(size: u64, blockSize: u32, active: bool, readOnly: bool)

  predicate NamespaceValid(nss: seq<NamespaceConfig>, nsid: u32)
  {
    && nsid != 0 && nsid <= |nss|
    && nss[nsid - 1].active
  }

  /** The range check guards against the wrap of its own sum. */
  predicate ValidateLbaRange(nss: seq<NamespaceConfig>, nsid: u32, slba: u64, nlb: u32)
  {
    && NamespaceValid(nss, nsid)
    && !((slba + nlb) % U64 < slba)
    && !((slba + nlb) % U64 > nss[nsid - 1].size)
  }

  /** It accepts exactly the ranges that lie in the namespace, whatever the operands. */
  lemma {:induction false} RangeCheckExact(nss: seq<NamespaceConfig>, nsid: u32, slba: u64, nlb: u32)
    requires NamespaceValid(nss, nsid)
    ensures ValidateLbaRange(nss, nsid, slba, nlb) <==> slba + nlb <= nss[nsid - 1].size
  {
  }

  /** The one namespace: as many whole blocks as the back-end has. */
  function Namespaces(backend: bool, backendSize: u64, readOnly: bool): seq<NamespaceConfig>
  {
    [NamespaceConfig(if backend then backendSize / BLOCK else DEFAULT_BLOCKS, BLOCK, true, readOnly)]
  }

  /** So an accepted range lies inside the back-end, and its byte offsets do not wrap. */
  lemma {:induction false} AcceptedFits(backendSize: u64, nsid: u32, slba: u64, nlb: u32)
    requires ValidateLbaRange(Namespaces(true, backendSize, false), nsid, slba, nlb)
    ensures slba * BLOCK + nlb * BLOCK <= backendSize < U64
  {
    RangeCheckExact(Namespaces(true, backendSize, false), nsid, slba, nlb);
  }

  class MemoryBackend {
    const readOnly: bool
    const data: array<u8>

    constructor (size: nat, readOnly: bool)
      ensures fresh(data) && data[..] == Zeros(size) && this.readOnly == readOnly
    {
      this.readOnly := readOnly;
      data := new u8[size](_ => 0);
      new;
      assert data[..] == Zeros(size);
    }

    /** A size of zero is refused, one above 4 GB cut; the store starts as zeros. */
    static method Create(size: u64, readOnly: bool) returns (b: MemoryBackend?)
      ensures b == null <==> size == 0
      ensures b != null ==>
                && fresh(b) && fresh(b.data) && b.readOnly == readOnly
                && b.data[..] == Zeros(if size > 0x1_0000_0000 then 0x1_0000_0000 else size)
    {
      if size == 0 {
        return null;
      }
      b := new MemoryBackend(if size > MAX_BACKEND then MAX_BACKEND else size, readOnly);
    }

    method Read(offset: u64, buffer: array<u8>, size: u32) returns (ok: bool)
      requires CheckHolds(offset, size, data.Length) && buffer != data && size <= buffer.Length
      modifies buffer
      ensures ok == (offset + size <= data.Length)
      ensures buffer[..] == if ok then Poke(old(buffer[..]), 0, Peek(data[..], offset, size)) else old(buffer[..])
    {
      if (offset + size) % U64 > data.Length {
        return false;
      }
      Copy(buffer, 0, data, offset, size);
      ok := true;
    }

    method Write(offset: u64, buffer: array<u8>, size: u32) returns (ok: bool)
      requires CheckHolds(offset, size, data.Length) && buffer != data && size <= buffer.Length
      modifies data
      ensures ok == (!readOnly && offset + size <= data.Length)
      ensures data[..] == if ok then Poke(old(data[..]), offset, Peek(buffer[..], 0, size)) else old(data[..])
    {
      if readOnly || (offset + size) % U64 > data.Length {
        return false;
      }
      Copy(data, offset, buffer, 0, size);
      ok := true;
    }

    method WriteZeroes(offset: u64, size: u64) returns (ok: bool)
      requires CheckHolds(offset, size, data.Length)
      modifies data
      ensures ok == (!readOnly && offset + size <= data.Length)
      ensures data[..] == if ok then Poke(old(data[..]), offset, Zeros(size)) else old(data[..])
    {
      if readOnly || (offset + size) % U64 > data.Length {
        return false;
      }
      ZeroMemory(data, offset, size);
      ok := true;
    }
  }

  // ----- What the commands mean -----

  /** Offset and length in bytes of a command on 512-byte blocks. */
  function ByteOffset(cmd: Command): nat { Slba(cmd) * BLOCK }

  function ByteLength(cmd: Command): (r: u32) { Nlb(cmd) * BLOCK }

  predicate Accepted(cmd: Command, backendSize: u64)
  {
    ValidateLbaRange(Namespaces(true, backendSize, false), cmd.nsid, Slba(cmd), Nlb(cmd))
  }

  /** Data moves only if it fits the data buffer; a longer command succeeds without moving any. */
  predicate Moves(cmd: Command, bufferSize: nat) { ByteLength(cmd) <= bufferSize }

  function Refusal(cmd: Command): Status
  {
    if cmd.nsid == 1 then LBA_OUT_OF_RANGE else INVALID_NAMESPACE
  }

  /** A command with the data buffer as the server finds it. */
  datatype Step = Step(buffer: seq<u8>, cmd: Command)

  /** What a command puts on a writable back-end. */
  function Effects(s: Step, backendSize: u64): seq<Update>
  {
    if !Accepted(s.cmd, backendSize) then []
    else if s.cmd.opc == WRITE && Moves(s.cmd, |s.buffer|) then
      [Update(ByteOffset(s.cmd), Peek(s.buffer, 0, ByteLength(s.cmd)))]
    else if s.cmd.opc == WRITE_ZEROES then [Update(ByteOffset(s.cmd), Zeros(ByteLength(s.cmd)))]
    else []
  }

  lemma {:induction false} EffectsFit(s: Step, backendSize: u64)
    ensures AllFit(Effects(s, backendSize), backendSize)
  {
    if Accepted(s.cmd, backendSize) {
      AcceptedFits(backendSize, s.cmd.nsid, Slba(s.cmd), Nlb(s.cmd));
    }
  }

  function AllEffects(run: seq<Step>, backendSize: u64): seq<Update>
    decreases |run|
  {
    if run == [] then [] else AllEffects(run[..|run| - 1], backendSize) + Effects(run[|run| - 1], backendSize)
  }

  lemma {:induction false} AllEffectsFit(run: seq<Step>, backendSize: u64)
    ensures AllFit(AllEffects(run, backendSize), backendSize)
    decreases |run|
  {
    if run != [] {
      AllEffectsFit(run[..|run| - 1], backendSize);
      EffectsFit(run[|run| - 1], backendSize);
    }
  }

  /** The back-end after a run of commands on a fresh store. */
  function Run(run: seq<Step>, backendSize: u64): (r: seq<u8>)
    ensures |r| == backendSize
    decreases |run|
  {
    if run == [] then Zeros(backendSize)
    else
      EffectsFit(run[|run| - 1], backendSize);
      Replay(Run(run[..|run| - 1], backendSize), Effects(run[|run| - 1], backendSize))
  }

  lemma {:induction false} RunIsReplay(run: seq<Step>, backendSize: u64)
    ensures AllFit(AllEffects(run, backendSize), backendSize)
    ensures Run(run, backendSize) == Replay(Zeros(backendSize), AllEffects(run, backendSize))
    decreases |run|
  {
    AllEffectsFit(run, backendSize);
    if run != [] {
      var before := run[..|run| - 1];
      RunIsReplay(before, backendSize);
      EffectsFit(run[|run| - 1], backendSize);
      ReplayAppend(Zeros(backendSize), AllEffects(before, backendSize), Effects(run[|run| - 1], backendSize));
    }
  }

  /** A read of a fresh store after any history returns for each byte the last one written, else zero. */
  lemma {:induction false} ReadSeesLatest(run: seq<Step>, backendSize: u64, cmd: Command, j: nat)
    requires Accepted(cmd, backendSize) && j < ByteLength(cmd)
    ensures ByteOffset(cmd) + ByteLength(cmd) <= backendSize
    ensures Peek(Run(run, backendSize), ByteOffset(cmd), ByteLength(cmd))[j]
            == Latest(AllEffects(run, backendSize), ByteOffset(cmd) + j, 0)
  {
    AcceptedFits(backendSize, cmd.nsid, Slba(cmd), Nlb(cmd));
    RunIsReplay(run, backendSize);
    ReplayIsLatest(Zeros(backendSize), AllEffects(run, backendSize), ByteOffset(cmd) + j);
  }

  // ----- The commands -----

  class BlockServer {
    const backend: MemoryBackend?
    const dataBuffer: array<u8>
    const namespaces: seq<NamespaceConfig>
    const readOnly: bool
    var errors: nat
    var bytesRead: nat
    var bytesWritten: nat

    ghost predicate Valid()
    {
      && namespaces == Namespaces(backend != null, BackendSize(), readOnly)
      && (backend != null ==> backend.data != dataBuffer && backend.data.Length < U64)
    }

    ghost function BackendSize(): (r: u64)
    {
      if backend == null || backend.data.Length >= U64 then 0 else backend.data.Length
    }

    ghost function Disk(): seq<u8>
      reads if backend != null then {backend.data} else {}
    {
      if backend == null then [] else backend.data[..]
    }

    /** As command_engine.c sets up the server for a back-end, or for none. */
    constructor (backend: MemoryBackend?, dataBuffer: array<u8>)
      requires backend != null ==> backend.data != dataBuffer && backend.data.Length < U64
      ensures Valid() && this.backend == backend && this.dataBuffer == dataBuffer && !readOnly
      ensures namespaces == [NamespaceConfig(if backend == null then 131072 else backend.data.Length / 512,
                                             512, true, false)]
    {
      this.backend, this.dataBuffer, readOnly := backend, dataBuffer, false;
      namespaces := Namespaces(backend != null, if backend == null then 0 else backend.data.Length, false);
      errors, bytesRead, bytesWritten := 0, 0, 0;
    }

    ghost predicate Accepts(cmd: Command)
    {
      ValidateLbaRange(namespaces, cmd.nsid, Slba(cmd), Nlb(cmd))
    }

    /** Read never meets the end of the back-end. */
    method Read(cmd: Command) returns (status: Status)
      requires Valid()
      modifies this, dataBuffer
      ensures Disk() == old(Disk())
      ensures status == if Accepts(cmd) then SUCCESS else Refusal(cmd)
      ensures backend != null ==>
                && Accepts(cmd) == Accepted(cmd, BackendSize())
                && (Accepts(cmd) ==> ByteOffset(cmd) + ByteLength(cmd) <= BackendSize())
      ensures dataBuffer[..] ==
              if backend != null && Accepts(cmd) && Moves(cmd, dataBuffer.Length)
              then Poke(old(dataBuffer[..]), 0, Peek(Disk(), ByteOffset(cmd), ByteLength(cmd)))
              else old(dataBuffer[..])
      ensures errors == old(errors) + (if status == SUCCESS then 0 else 1)
      ensures bytesRead == old(bytesRead) + (if status == SUCCESS then ByteLength(cmd) else 0)
      ensures bytesWritten == old(bytesWritten)
    {
      if !NamespaceValid(namespaces, cmd.nsid) {
        errors := errors + 1;
        return INVALID_NAMESPACE;
      }
      var length := ByteLength(cmd);
      if !ValidateLbaRange(namespaces, cmd.nsid, Slba(cmd), Nlb(cmd)) {
        errors := errors + 1;
        return LBA_OUT_OF_RANGE;
      }
      if backend != null {
        AcceptedFits(BackendSize(), cmd.nsid, Slba(cmd), Nlb(cmd));
      }
      if backend != null && length <= dataBuffer.Length {
        var ok := backend.Read(ByteOffset(cmd), dataBuffer, length);
        if !ok {
          // an unrecovered read error: ruled out by the range check
          assert false;
        }
      }
      bytesRead := bytesRead + length;
      status := SUCCESS;
    }

    method Write(cmd: Command) returns (status: Status)
      requires Valid() && cmd.opc == WRITE
      modifies this, if backend != null then {backend.data} else {}
      ensures status == if cmd.nsid == 1 && readOnly then Status(0, 0x82)
                        else if !Accepts(cmd) then Refusal(cmd)
                        else if backend != null && backend.readOnly && Moves(cmd, dataBuffer.Length)
                        then Status(2, 0x82)
                        else SUCCESS
      ensures backend != null ==>
                var us := Effects(Step(dataBuffer[..], cmd), BackendSize());
                && Accepts(cmd) == Accepted(cmd, BackendSize())
                && AllFit(us, BackendSize())
                && Disk() == if readOnly || backend.readOnly then old(Disk()) else Replay(old(Disk()), us)
      ensures errors == old(errors) + (if status == SUCCESS then 0 else 1)
      ensures bytesWritten == old(bytesWritten) + (if status == SUCCESS then ByteLength(cmd) else 0)
      ensures bytesRead == old(bytesRead)
    {
      EffectsFit(Step(dataBuffer[..], cmd), BackendSize());
      if !NamespaceValid(namespaces, cmd.nsid) {
        errors := errors + 1;
        return INVALID_NAMESPACE;
      }
      if namespaces[cmd.nsid - 1].readOnly {
        errors := errors + 1;
        return WRITE_PROTECTED;
      }
      var length := ByteLength(cmd);
      if !ValidateLbaRange(namespaces, cmd.nsid, Slba(cmd), Nlb(cmd)) {
        errors := errors + 1;
        return LBA_OUT_OF_RANGE;
      }
      if backend != null {
        AcceptedFits(BackendSize(), cmd.nsid, Slba(cmd), Nlb(cmd));
      }
      if backend != null && length <= dataBuffer.Length {
        ghost var u := Update(ByteOffset(cmd), Peek(dataBuffer[..], 0, length));
        assert [u][1..] == [];
        var ok := backend.Write(ByteOffset(cmd), dataBuffer, length);
        if !ok {
          errors := errors + 1;
          return MEDIA_WRITE_FAULT;
        }
      }
      bytesWritten := bytesWritten + length;
      status := SUCCESS;
    }

    method WriteZeroes(cmd: Command) returns (status: Status)
      requires Valid() && cmd.opc == WRITE_ZEROES
      modifies this, if backend != null then {backend.data} else {}
      ensures status == if cmd.nsid == 1 && readOnly then Status(0, 0x82)
                        else if !Accepts(cmd) then Refusal(cmd)
                        else if backend != null && backend.readOnly then Status(2, 0x82)
                        else SUCCESS
      ensures backend != null ==>
                var us := Effects(Step(dataBuffer[..], cmd), BackendSize());
                && Accepts(cmd) == Accepted(cmd, BackendSize())
                && AllFit(us, BackendSize())
                && Disk() == if readOnly || backend.readOnly then old(Disk()) else Replay(old(Disk()), us)
      ensures errors == old(errors) + (if status == SUCCESS then 0 else 1)
      ensures bytesWritten == old(bytesWritten) + (if status == SUCCESS then ByteLength(cmd) else 0)
      ensures bytesRead == old(bytesRead)
    {
      EffectsFit(Step(dataBuffer[..], cmd), BackendSize());
      if !NamespaceValid(namespaces, cmd.nsid) {
        errors := errors + 1;
        return INVALID_NAMESPACE;
      }
      if namespaces[cmd.nsid - 1].readOnly {
        errors := errors + 1;
        return WRITE_PROTECTED;
      }
      var length := ByteLength(cmd);
      if !ValidateLbaRange(namespaces, cmd.nsid, Slba(cmd), Nlb(cmd)) {
        errors := errors + 1;
        return LBA_OUT_OF_RANGE;
      }
      if backend != null {
        AcceptedFits(BackendSize(), cmd.nsid, Slba(cmd), Nlb(cmd));
        ghost var u := Update(ByteOffset(cmd), Zeros(length));
        assert [u][1..] == [];
        var ok := backend.WriteZeroes(ByteOffset(cmd), length);
        if !ok {
          errors := errors + 1;
          return MEDIA_WRITE_FAULT;
        }
      }
      bytesWritten := bytesWritten + length;
      status := SUCCESS;
    }
  }
}

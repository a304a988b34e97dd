/** The kernel's storage back-ends (vnvme/storage.c, vnvme/storage_memory.c): a byte buffer with bounds
    checks. A file takes the place of the buffer for the file back-end. */
module StorageMedia {
  import opened NvmeTypes
  import opened Bytes

  const MAX_MEMORY: nat := 256 * 1024 * 1024
  const ZERO_CHUNK: nat := 64 * 1024
  /** File offsets are signed 64-bit numbers. */
  const MAX_FILE: nat := 0x8000_0000_0000_0000

  datatype Kind = Memory | File

  datatype StorageStatus = Success | InvalidParameter | WriteProtected | NotSupported | InsufficientResources

  /** How much of a stretch the file back-end has zeroed when it stops: chunk by chunk up to the
      first that does not fit. */
  function ZeroedPrefix(offset: nat, length: nat, total: nat): (r: nat)
    ensures r <= length
    ensures r > 0 ==> offset + r <= total
    decreases length
  {
    if length == 0 then 0
    else
      var chunk := if length > ZERO_CHUNK then ZERO_CHUNK else length;
      if offset + chunk > total then 0
      else chunk + ZeroedPrefix(offset + chunk, length - chunk, total)
  }

  /** Zeroing in chunks does the whole stretch exactly when the stretch fits; otherwise it gives up
      before the first chunk past the end, having zeroed the chunks before. */
  lemma {:induction false} ChunksCoverExactly(offset: nat, length: nat, total: nat)
    ensures length > 0 ==> (ZeroedPrefix(offset, length, total) == length <==> offset + length <= total)
    ensures ZeroedPrefix(offset, length, total) < length ==>
              total - offset - ZeroedPrefix(offset, length, total) < ZERO_CHUNK
    decreases length
  {
    if length > 0 {
      var chunk := if length > ZERO_CHUNK then ZERO_CHUNK else length;
      if offset + chunk <= total {
        ChunksCoverExactly(offset + chunk, length - chunk, total);
      }
    }
  }

  /** Where a chunked zeroing stands: done bytes are zeroed, remaining ones are still to come. */
  ghost predicate Zeroing(offset: nat, length: nat, total: nat, readOnly: bool, done: nat, remaining: nat, ok: bool)
  {
    && done + remaining <= length && (done == 0 || offset + done <= total)
    && (readOnly ==> done == 0)
    && (if ok then
          && done + remaining == length
          && (readOnly ==> remaining == length)
          && ZeroedPrefix(offset, length, total) == done + ZeroedPrefix(offset + done, remaining, total)
        else
          && length > 0
          && (readOnly || (offset + length > total && ZeroedPrefix(offset, length, total) == done)))
  }

  lemma {:induction false} ZeroingStep(offset: nat, length: nat, total: nat, readOnly: bool,
                                       done: nat, remaining: nat, chunk: nat)
    requires Zeroing(offset, length, total, readOnly, done, remaining, true)
    requires remaining > 0 && chunk == if remaining > ZERO_CHUNK then ZERO_CHUNK else remaining
    ensures var ok := !readOnly && offset + done + chunk <= total;
            Zeroing(offset, length, total, readOnly, if ok then done + chunk else done, remaining - chunk, ok)
  {
  }

  /** The check of the next chunk tells the truth if that of the first one does. */
  lemma {:induction false} NextChunkChecked(offset: u64, length: u32, total: nat, readOnly: bool, done: nat,
                                            remaining: nat, chunk: nat)
    requires total < MAX_FILE && CheckHolds(offset, if length > ZERO_CHUNK then ZERO_CHUNK else length, total)
    requires Zeroing(offset, length, total, readOnly, done, remaining, true) && offset + done < U64
    requires remaining > 0 && chunk == if remaining > ZERO_CHUNK then ZERO_CHUNK else remaining
    ensures CheckHolds(offset + done, chunk, total)
    ensures !readOnly && offset + done + chunk > total ==> offset + length > total
    ensures offset + done + chunk <= total ==> offset + done + chunk < U64
  {
  }

  /** Where it stands when nothing remains, or a chunk was refused. */
  lemma {:induction false} ZeroingEnds(offset: nat, length: nat, total: nat, readOnly: bool,
                                       done: nat, remaining: nat, ok: bool)
    requires Zeroing(offset, length, total, readOnly, done, remaining, ok) && (remaining == 0 || !ok)
    ensures done == if readOnly then 0 else ZeroedPrefix(offset, length, total)
    ensures ok <==> length == 0 || (!readOnly && offset + length <= total)
  {
    ChunksCoverExactly(offset, length, total);
  }

  /** Memory m with n bytes from an offset on zeroed. */
  function ZeroedAt(m: seq<u8>, offset: nat, n: nat): (r: seq<u8>)
    requires n == 0 || offset + n <= |m|
    ensures |r| == |m|
  {
    if n == 0 then m else Poke(m, offset, Zeros(n))
  }

  lemma {:induction false} ZeroedFurther(m: seq<u8>, offset: nat, n: nat, more: nat)
    requires offset + n + more <= |m|
    ensures Poke(ZeroedAt(m, offset, n), offset + n, Zeros(more)) == ZeroedAt(m, offset, n + more)
  {
    if n > 0 {
      PokeTwice(m, offset, Zeros(n), Zeros(more));
      assert Zeros(n) + Zeros(more) == Zeros(n + more);
    } else if more == 0 {
      assert Poke(m, offset, Zeros(0)) == m;
    }
  }

  class Storage {
    const kind: Kind
    const readOnly: bool
    const data: array<u8>
    var bytesRead: nat
    var bytesWritten: nat

    constructor (kind: Kind, readOnly: bool, totalBytes: nat)
      ensures this.kind == kind && this.readOnly == readOnly
      ensures fresh(data) && data[..] == Zeros(totalBytes)
      ensures bytesRead == 0 && bytesWritten == 0
    {
      this.kind, this.readOnly := kind, readOnly;
      data := new u8[totalBytes](_ => 0);
      bytesRead, bytesWritten := 0, 0;
      new;
      assert data[..] == Zeros(totalBytes);
    }

    /** Memory storage is refused above 256 MB; a new store reads as zeros. */
    static method Create(kind: Kind, totalBytes: nat) returns (status: StorageStatus, s: Storage?)
      ensures status == (if kind == Memory && totalBytes > 0x1000_0000 then InsufficientResources else Success)
      ensures status.Success? <==> s != null
      ensures s != null ==>
                fresh(s) && fresh(s.data) && s.kind == kind && !s.readOnly && s.data[..] == Zeros(totalBytes)
    {
      if kind == Memory && totalBytes > MAX_MEMORY {
        return InsufficientResources, null;
      }
      s := new Storage(kind, false, totalBytes);
      status := Success;
    }

    method Read(offset: u64, buffer: array<u8>, length: u32) returns (status: StorageStatus)
      requires CheckHolds(offset, length, data.Length)
      requires buffer != data && length <= buffer.Length
      modifies this, buffer
      ensures status == if offset + length > data.Length then InvalidParameter else Success
      ensures status.Success? ==> buffer[..] == Poke(old(buffer[..]), 0, Peek(data[..], offset, length))
      ensures !status.Success? ==> buffer[..] == old(buffer[..])
      ensures bytesRead == old(bytesRead) + (if status.Success? then length else 0)
      ensures bytesWritten == old(bytesWritten)
    {
      if (offset + length) % U64 > data.Length {
        return InvalidParameter;
      }
      Copy(buffer, 0, data, offset, length);
      bytesRead := bytesRead + length;
      status := Success;
    }

    function WriteStatus(offset: nat, length: nat): StorageStatus
    {
      if readOnly then WriteProtected
      else if offset + length > data.Length then InvalidParameter
      else Success
    }

    method Write(offset: u64, buffer: array<u8>, length: u32) returns (status: StorageStatus)
      requires CheckHolds(offset, length, data.Length)
      requires buffer != data && length <= buffer.Length
      modifies this, data
      ensures status == WriteStatus(offset, length)
      ensures status.Success? ==> data[..] == Poke(old(data[..]), offset, Peek(buffer[..], 0, length))
      ensures !status.Success? ==> data[..] == old(data[..])
      ensures bytesWritten == old(bytesWritten) + (if status.Success? then length else 0)
      ensures bytesRead == old(bytesRead)
    {
      if readOnly {
        return WriteProtected;
      }
      if (offset + length) % U64 > data.Length {
        return InvalidParameter;
      }
      Copy(data, offset, buffer, 0, length);
      bytesWritten := bytesWritten + length;
      status := Success;
    }

    method MemoryWriteZeroes(offset: u64, length: u32) returns (status: StorageStatus)
      requires CheckHolds(offset, length, data.Length)
      modifies this, data
      ensures status == WriteStatus(offset, length)
      ensures data[..] == if status.Success? then Poke(old(data[..]), offset, Zeros(length)) else old(data[..])
      ensures bytesWritten == old(bytesWritten) + (if status.Success? then length else 0)
      ensures bytesRead == old(bytesRead)
    {
      if readOnly {
        return WriteProtected;
      }
      if (offset + length) % U64 > data.Length {
        return InvalidParameter;
      }
      ZeroMemory(data, offset, length);
      bytesWritten := bytesWritten + length;
      status := Success;
    }

    /** The check of the first chunk tells the truth; those of later chunks, inside the file, then do too. */
    predicate FirstChunkChecked(offset: u64, length: u32)
    {
      data.Length < MAX_FILE && CheckHolds(offset, if length > ZERO_CHUNK then ZERO_CHUNK else length, data.Length)
    }

    ghost predicate AllZero(buffer: array<u8>)
      reads buffer
    {
      buffer.Length == ZERO_CHUNK && forall k :: 0 <= k < ZERO_CHUNK ==> buffer[k] == 0
    }

    /** The file back-end zeroes by writing a zeroed buffer of 64 KB again and again. */
    method FileWriteZeroes(offset: u64, length: u32) returns (status: StorageStatus)
      requires FirstChunkChecked(offset, length)
      modifies this, data
      ensures status == if length == 0 then Success else WriteStatus(offset, length)
      ensures var done := if readOnly then 0 else ZeroedPrefix(offset, length, data.Length);
              && data[..] == ZeroedAt(old(data[..]), offset, done)
              && bytesWritten == old(bytesWritten) + done
      ensures bytesRead == old(bytesRead)
    {
      var zeroBuffer := new u8[ZERO_CHUNK](_ => 0);
      ghost var was, done: nat := data[..], 0;
      var current: nat, remaining: nat := offset, length;
      status := Success;
      while remaining > 0 && status.Success?
        invariant AllZero(zeroBuffer)
        invariant Zeroing(offset, length, data.Length, readOnly, done, remaining, status.Success?)
        invariant status.Success? ==> current == offset + done < U64
        invariant !status.Success? ==> status == WriteStatus(offset, length)
        invariant data[..] == ZeroedAt(was, offset, done)
        invariant bytesRead == old(bytesRead) && bytesWritten == old(bytesWritten) + done
      {
        var chunk;
        status, chunk, done := WriteZeroChunk(zeroBuffer, current, remaining, was, offset, length, done);
        current, remaining := current + chunk, remaining - chunk;
      }
      ZeroingEnds(offset, length, data.Length, readOnly, done, remaining, status.Success?);
    }

    method WriteZeros(zeroBuffer: array<u8>, offset: u64, chunk: u32) returns (status: StorageStatus)
      requires zeroBuffer != data && AllZero(zeroBuffer) && chunk <= ZERO_CHUNK
      requires CheckHolds(offset, chunk, data.Length)
      modifies this, data
      ensures status == WriteStatus(offset, chunk)
      ensures data[..] == if status.Success? then Poke(old(data[..]), offset, Zeros(chunk)) else old(data[..])
      ensures bytesWritten == old(bytesWritten) + (if status.Success? then chunk else 0)
      ensures bytesRead == old(bytesRead)
    {
      assert Peek(zeroBuffer[..], 0, chunk) == Zeros(chunk);
      status := Write(offset, zeroBuffer, chunk);
    }

    method WriteZeroChunk(zeroBuffer: array<u8>, current: nat, remaining: u32,
                          ghost was: seq<u8>, ghost offset: u64, ghost length: u32, ghost done: nat)
      returns (status: StorageStatus, chunk: u32, ghost now: nat)
      requires zeroBuffer != data && AllZero(zeroBuffer)
      requires remaining > 0 && current == offset + done < U64 && FirstChunkChecked(offset, length)
      requires Zeroing(offset, length, data.Length, readOnly, done, remaining, true)
      requires data.Length == |was| && data[..] == ZeroedAt(was, offset, done)
      modifies this, data
      ensures 0 < chunk <= remaining
      ensures status.Success? || status == WriteStatus(offset, length)
      ensures status.Success? ==> now == done + chunk
      ensures Zeroing(offset, length, data.Length, readOnly, now, remaining - chunk, status.Success?)
      ensures data[..] == ZeroedAt(was, offset, now)
      ensures bytesRead == old(bytesRead) && bytesWritten == old(bytesWritten) + now - done
    {
      chunk := if remaining > ZERO_CHUNK then ZERO_CHUNK else remaining;
      ZeroingStep(offset, length, data.Length, readOnly, done, remaining, chunk);
      NextChunkChecked(offset, length, data.Length, readOnly, done, remaining, chunk);
      status := WriteZeros(zeroBuffer, current, chunk);
      now := done;
      if status.Success? {
        ZeroedFurther(was, offset, done, chunk);
        now := done + chunk;
      }
    }

    /** How many bytes a zeroing reaches on either back-end. */
    function Zeroable(offset: nat, length: nat): (r: nat)
      ensures r == 0 || offset + r <= data.Length
    {
      if readOnly then 0
      else if kind == File then ZeroedPrefix(offset, length, data.Length)
      else if offset + length <= data.Length then length
      else 0
    }

    method WriteZeroes(offset: u64, length: u32) returns (status: StorageStatus)
      requires if kind == File then FirstChunkChecked(offset, length) else CheckHolds(offset, length, data.Length)
      modifies this, data
      ensures status == if kind == File && length == 0 then Success else WriteStatus(offset, length)
      ensures data[..] == ZeroedAt(old(data[..]), offset, Zeroable(offset, length))
      ensures offset + length <= data.Length && !readOnly ==> Zeroable(offset, length) == length
      ensures bytesWritten == old(bytesWritten) + Zeroable(offset, length)
      ensures bytesRead == old(bytesRead)
    {
      ghost var was := data[..];
      ChunksCoverExactly(offset, length, data.Length);
      if kind == Memory {
        status := MemoryWriteZeroes(offset, length);
        assert length == 0 && status.Success? ==> Poke(was, offset, Zeros(0)) == was;
      } else {
        status := FileWriteZeroes(offset, length);
      }
    }

    /** A pointer into the buffer; memory storage only. It does not ask whether the store is read-only. */
    method GetDirect(offset: u64, length: u32) returns (status: StorageStatus)
      requires CheckHolds(offset, length, data.Length)
      ensures status == if kind != Memory then NotSupported
                        else if offset + length > data.Length then InvalidParameter else Success
    {
      if kind != Memory {
        return NotSupported;
      }
      status := if (offset + length) % U64 > data.Length then InvalidParameter else Success;
    }
  }
}

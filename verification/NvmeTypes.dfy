/** Queue entries and status words shared by the driver and the server. */
module NvmeTypes {

  type u8 = x: int | 0 <= x < 0x100
  type u16 = x: int | 0 <= x < 0x1_0000
  type u32 = x: int | 0 <= x < 0x1_0000_0000
  type u64 = x: int | 0 <= x < 0x1_0000_0000_0000_0000

  const U64: int := 0x1_0000_0000_0000_0000

  /** Where the test `at + n > limit`, added in 64 bits, tells the truth: the sum does not wrap, or wraps
      to something still above the limit. On any other operands the code runs past its buffers. */
  predicate CheckHolds(at: u64, n: nat, limit: nat)
  {
    at + n < U64 || at + n - U64 > limit
  }

  const MAX_IO_QUEUES: nat := 16
  const MAX_NAMESPACES: nat := 16

  // Opcodes of the I/O commands.
  const FLUSH: u8 := 0x00
  const WRITE: u8 := 0x01
  const READ: u8 := 0x02
  const COMPARE: u8 := 0x05
  const WRITE_ZEROES: u8 := 0x08
  const DATASET_MANAGEMENT: u8 := 0x09

  /** The fields of a 64-byte submission queue entry that the handlers read. */
  datatype Command = Command(opc: u8, cid: u16, nsid: u32, prp1: u64, prp2: u64,
                             cdw10: u32, cdw11: u32, cdw12: u32)

  const ZERO_COMMAND := Command(0, 0, 0, 0, 0, 0, 0, 0)

  /** A 16-byte completion queue entry; bit 0 of the status word is the phase tag. */
  datatype Completion = Completion(dw0: u32, dw1: u32, sqhd: u16, sqid: u16, cid: u16, status: u16)

  const ZERO_COMPLETION := Completion(0, 0, 0, 0, 0, 0)

  const SC_INTERNAL_ERROR: u8 := 0x06

  function Bit(b: bool): (r: u8) { if b then 1 else 0 }

  function PhaseBit(c: Completion): bool { c.status % 2 == 1 }

  /** (Status & 0xFFFE) | phase */
  function StampStatus(status: u16, phase: bool): (r: u16)
    ensures r % 2 == Bit(phase) && r / 2 == status / 2
  {
    status - status % 2 + Bit(phase)
  }

  function Stamp(c: Completion, phase: bool): (r: Completion)
    ensures PhaseBit(r) == phase
  {
    c.(status := StampStatus(c.status, phase))
  }

  /** (UINT16)(phase | (sc << 1) | (sct << 9)), for a one-bit phase: the fields do not overlap, and
      the truncation keeps the low seven bits of sct. */
  function MakeStatus(sct: u8, sc: u8, phase: bool): (r: u16)
  {
    Bit(phase) + 2 * sc + 512 * (sct % 128)
  }

  function StatusCodeType(status: u16): (r: u8) { (status / 512) % 8 }

  function StatusCode(status: u16): (r: u8) { (status / 2) % 256 }

  lemma {:induction false} WordParts(bit: int, low: int, high: int)
    requires 0 <= bit < 2 && 0 <= low < 256 && 0 <= high < 8
    ensures var w := bit + 2 * low + 512 * high;
            && w / 2 == 256 * high + low && (w / 2) % 256 == low && (w / 512) % 8 == high && w % 2 == bit
  {
    var w := bit + 2 * low + 512 * high;
    assert w / 2 == 256 * high + low;
    assert w / 512 == high;
  }

  /** The engine takes a handler's status word apart and rebuilds it with its own phase: the type, the code and the
      phase stand side by side in the word. */
  lemma {:induction false} StatusRoundTrip(sct: u8, sc: u8, phase: bool)
    requires sct < 8
    ensures var s := MakeStatus(sct, sc, phase);
            && StatusCodeType(s) == sct && StatusCode(s) == sc && s % 2 == Bit(phase)
            && s / 2 == 256 * sct + sc
  {
    WordParts(Bit(phase), sc, sct);
  }
}

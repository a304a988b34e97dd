/** The server's block commands in the words of the command itself: what a run of them leaves in each 512-byte
    block. */
module ServerMeaning {
  import opened NvmeTypes
  import opened Bytes
  import opened BlockCommands
  import opened BlockMeaning
  import opened ServerBlock

  predicate HasBlock512(m: seq<u8>, b: nat) { 512 * b + 512 <= |m| }

  function Block512(m: seq<u8>, b: nat): (r: seq<u8>)
    requires HasBlock512(m, b)
    ensures |r| == 512
  {
    m[512 * b..512 * b + 512]
  }

  /** The first block a command names, by CDW10 and CDW11, and how many, by the low half of CDW12; the largest
      count names none. */
  function FirstBlock(cmd: Command): nat
  {
    var low: int, high: int := cmd.cdw10, cmd.cdw11;
    low + 0x1_0000_0000 * high
  }

  function BlockCount(cmd: Command): nat
  {
    var field: int := cmd.cdw12 % 0x1_0000;
    if field == 0xFFFF then 0 else field + 1
  }

  predicate Names(cmd: Command, b: nat, n: nat) { b == FirstBlock(cmd) && n == BlockCount(cmd) }

  lemma {:induction false} ServerNames(cmd: Command, b: nat, n: nat)
    requires Names(cmd, b, n)
    ensures ByteOffset(cmd) == 512 * b && ByteLength(cmd) == 512 * n
  {
  }

  /** A command is let through exactly when it is for NSID 1 and its blocks lie in the back-end. */
  lemma {:induction false} AcceptedExactly(cmd: Command, backendSize: u64, b: nat, n: nat)
    requires Names(cmd, b, n)
    ensures Accepted(cmd, backendSize) <==> cmd.nsid == 1 && 512 * b + 512 * n <= backendSize
    ensures Refusal(cmd) == if cmd.nsid == 1 then Status(0, 0x80) else Status(0, 0x0B)
  {
    if cmd.nsid == 1 {
      RangeCheckExact(Namespaces(true, backendSize, false), cmd.nsid, Slba(cmd), Nlb(cmd));
    }
  }

  /** Blocks b to b + n - 1 put at their place; every other block is as it was. */
  lemma {:induction false} Stored512(m: seq<u8>, b: nat, n: nat, data: seq<u8>, j: nat)
    requires |data| == 512 * n && 512 * b + 512 * n <= |m| && HasBlock512(m, j)
    ensures HasBlock512(Poke(m, 512 * b, data), j) && (b <= j < b + n ==> HasBlock512(data, j - b))
    ensures Block512(Poke(m, 512 * b, data), j) ==
            if b <= j < b + n then Block512(data, j - b) else Block512(m, j)
  {
    if b <= j < b + n {
      PokeInside(m, 512 * b, data, 512 * j, 512 * (j - b), 512);
    } else {
      PokeOutside(m, 512 * b, data, 512 * j, 512);
    }
  }

  /** The command carries data into block j of a back-end with this many bytes: an accepted write whose blocks fit
      the data buffer. */
  predicate Writes(s: Step, backendSize: u64, b: nat, n: nat, j: nat)
  {
    && s.cmd.opc == 0x01 && s.cmd.nsid == 1 && 512 * b + 512 * n <= backendSize && 512 * n <= |s.buffer|
    && b <= j < b + n
  }

  /** It clears block j. */
  predicate Clears(s: Step, backendSize: u64, b: nat, n: nat, j: nat)
  {
    && s.cmd.opc == 0x08 && s.cmd.nsid == 1 && 512 * b + 512 * n <= backendSize
    && b <= j < b + n
  }

  lemma {:induction false} OneUpdate(m: seq<u8>, u: Update)
    requires u.at + |u.bytes| <= |m|
    ensures AllFit([u], |m|) && Replay(m, [u]) == Poke(m, u.at, u.bytes)
  {
    assert [u][1..] == [] && [u][..0] == [];
  }

  /** One command on a store m, block by block. */
  lemma {:induction false} CommandMeans(m: seq<u8>, s: Step, b: nat, n: nat, j: nat)
    requires |m| < U64 && Names(s.cmd, b, n) && HasBlock512(m, j)
    ensures AllFit(Effects(s, |m|), |m|)
    ensures Writes(s, |m|, b, n, j) ==> HasBlock512(s.buffer, j - b)
    ensures HasBlock512(Replay(m, Effects(s, |m|)), j)
    ensures Block512(Replay(m, Effects(s, |m|)), j) ==
            if Writes(s, |m|, b, n, j) then Block512(s.buffer, j - b)
            else if Clears(s, |m|, b, n, j) then Zeros(512)
            else Block512(m, j)
  {
    EffectsFit(s, |m|);
    ServerNames(s.cmd, b, n);
    AcceptedExactly(s.cmd, |m|, b, n);
    if Accepted(s.cmd, |m|) {
      if s.cmd.opc == 0x01 && 512 * n <= |s.buffer| {
        var data := Peek(s.buffer, 0, 512 * n);
        OneUpdate(m, Update(512 * b, data));
        Stored512(m, b, n, data, j);
        if b <= j < b + n {
          SliceSlice(s.buffer, 0, 512 * n, 512 * (j - b), 512 * (j - b) + 512);
        }
      } else if s.cmd.opc == 0x08 {
        OneUpdate(m, Update(512 * b, Zeros(512 * n)));
        Stored512(m, b, n, Zeros(512 * n), j);
      }
    }
  }

  /** What block j should hold after a run on a fresh store: the payload of the last write that reaches it, or
      zeros if a zeroing came later or there was none. */
  function LatestBlock(run: seq<Step>, backendSize: u64, j: nat): (r: seq<u8>)
    ensures |r| == 512
    decreases |run|
  {
    if run == [] then Zeros(512)
    else
      var s := run[|run| - 1];
      var b, n := FirstBlock(s.cmd), BlockCount(s.cmd);
      if Writes(s, backendSize, b, n, j) then s.buffer[512 * (j - b)..512 * (j - b) + 512]
      else if Clears(s, backendSize, b, n, j) then Zeros(512)
      else LatestBlock(run[..|run| - 1], backendSize, j)
  }

  /** After any run of commands every block holds what was put there last. */
  lemma {:induction false} BlockIsLatest(run: seq<Step>, backendSize: u64, j: nat)
    requires 512 * j + 512 <= backendSize
    ensures HasBlock512(Run(run, backendSize), j)
    ensures Block512(Run(run, backendSize), j) == LatestBlock(run, backendSize, j)
    decreases |run|
  {
    if run == [] {
      assert Block512(Zeros(backendSize), j) == Zeros(512);
    } else {
      var s, before := run[|run| - 1], run[..|run| - 1];
      BlockIsLatest(before, backendSize, j);
      CommandMeans(Run(before, backendSize), s, FirstBlock(s.cmd), BlockCount(s.cmd), j);
    }
  }

  /** An accepted read that fits the data buffer leaves block b + i as the buffer's i-th block, and nothing but
      those blocks changes in it. */
  lemma {:induction false} ServerReadMeans(m: seq<u8>, buffer: seq<u8>, cmd: Command, b: nat, n: nat, i: nat)
    requires |m| < U64 && Names(cmd, b, n) && Accepted(cmd, |m|) && Moves(cmd, |buffer|)
    ensures 512 * b + 512 * n <= |m| && ByteOffset(cmd) + ByteLength(cmd) <= |m|
    ensures var after := Poke(buffer, 0, Peek(m, ByteOffset(cmd), ByteLength(cmd)));
            && (i < n ==> HasBlock512(after, i) && HasBlock512(m, b + i) && Block512(after, i) == Block512(m, b + i))
            && after[512 * n..] == buffer[512 * n..]
  {
    ServerNames(cmd, b, n);
    AcceptedExactly(cmd, |m|, b, n);
    var data := Peek(m, 512 * b, 512 * n);
    if i < n {
      Stored512(buffer, 0, n, data, i);
      SliceSlice(m, 512 * b, 512 * n, 512 * i, 512 * i + 512);
    }
  }
}

/**
 * The reference dual-port block RAM that the M20K harness checks its device against.
 *
 * The logical memory has log_depth words of log_width bits, addressed by
 * 32-bit addresses and fed 32-bit data. A write keeps the low log_width bits
 * of its data; a read returns the stored word, masked to log_width bits unless
 * it is a raw read. Ports A and B share one array. The harness keeps its own
 * record of what it wrote (ref_memory) and counts passed and failed checks.
 */
module M20k {

  /** The configuration the harness instantiates by default: 8-bit words, 2048 of them. */
  const DEFAULT_WIDTH: nat := 8
  const DEFAULT_DEPTH: nat := 2048

  datatype Option<T> = None | Some(value: T)

  /** The data mask (1 << log_width) - 1; only defined for widths below 32. */
  function Mask(logWidth: nat): bv32
    requires logWidth < 32
  {
    ((1 as bv32) << logWidth) - 1
  }

  /** The low log_width bits of a data word: data & ((1 << log_width) - 1). */
  function Truncate(data: bv32, logWidth: nat): bv32
    requires logWidth < 32
  {
    data & Mask(logWidth)
  }

  /** Truncating twice is truncating once, so a pre-masked write and a raw write store the same word. */
  lemma TruncateIdempotent(data: bv32, logWidth: nat)
    requires logWidth < 32
    ensures Truncate(Truncate(data, logWidth), logWidth) == Truncate(data, logWidth)
  {
  }

  /** Bits written above log_width are never observable: base | (x << log_width) truncates to base. */
  lemma UpperBitsIgnored(base: bv32, x: bv32, logWidth: nat)
    requires logWidth < 32
    ensures Truncate(Truncate(base, logWidth) | (x << logWidth), logWidth) == Truncate(base, logWidth)
  {
  }

  /** The mask itself fits the width: writing all ones of the width reads back unchanged. */
  lemma MaskFits(logWidth: nat)
    requires logWidth < 32
    ensures Truncate(Mask(logWidth), logWidth) == Mask(logWidth)
  {
  }

  /** Every stored word fits the width, as every write truncates its data. */
  ghost predicate AllTruncated(mem: map<nat, bv32>, logWidth: nat)
    requires logWidth < 32
  {
    forall a :: a in mem ==> Truncate(mem[a], logWidth) == mem[a]
  }

  /** Storing a truncated word keeps every stored word within the width. */
  lemma StoreKeepsTruncated(mem: map<nat, bv32>, addr: nat, data: bv32, logWidth: nat)
    requires logWidth < 32 && AllTruncated(mem, logWidth)
    ensures AllTruncated(mem[addr := Truncate(data, logWidth)], logWidth)
  {
    TruncateIdempotent(data, logWidth);
  }

  /** A walking-one word whose bit is below the width fits the width. */
  lemma WalkingOneFits(bit: nat, logWidth: nat)
    requires bit < logWidth < 32
    ensures Truncate(WalkingOne(bit), logWidth) == WalkingOne(bit)
  {
  }

  /** A walking-zero word (the mask with one bit cleared) fits the width. */
  lemma WalkingZeroFits(bit: nat, logWidth: nat)
    requires bit < logWidth < 32
    ensures Truncate(WalkingZero(bit, logWidth), logWidth) == WalkingZero(bit, logWidth)
  {
  }

  /** An int converted to uint32, as C++ converts it: reduced modulo 2^32. */
  function U32(x: int): (r: nat)
    ensures r < 0x1_0000_0000
    ensures (x - r) % 0x1_0000_0000 == 0
    ensures 0 <= x < 0x1_0000_0000 ==> r == x
  {
    x % 0x1_0000_0000
  }

  /** The two ports of the block. */
  datatype Port = PortA | PortB

  /** What one port does in one cycle. */
  datatype PortOp = Idle | WriteOp(addr: nat, data: bv32) | ReadOp(addr: nat)

  /** The new contents of the block after one cycle, and what each port read. */
  datatype CycleResult = CycleResult(mem: map<nat, bv32>, outA: Option<bv32>, outB: Option<bv32>)

  /** The word stored at an address, if one was written. */
  function Lookup(mem: map<nat, bv32>, addr: nat): (r: Option<bv32>)
    ensures r.Some? <==> addr in mem
    ensures r.Some? ==> r.value == mem[addr]
  {
    if addr in mem then Some(mem[addr]) else None
  }

  /** What a port reads in a cycle: the word stored before the cycle, for a read; nothing otherwise. */
  function ReadOut(mem: map<nat, bv32>, op: PortOp): Option<bv32>
  {
    if op.ReadOp? then Lookup(mem, op.addr) else None
  }

  /** The contents after a port's write: the truncated data at the written address. */
  function WriteIn(mem: map<nat, bv32>, op: PortOp, logWidth: nat): map<nat, bv32>
    requires logWidth < 32
  {
    if op.WriteOp? then mem[op.addr := Truncate(op.data, logWidth)] else mem
  }

  /** Two writes to one address in the same cycle: the harness never issues them. */
  predicate WriteConflict(opA: PortOp, opB: PortOp)
  {
    opA.WriteOp? && opB.WriteOp? && opA.addr == opB.addr
  }

  /**
   * One cycle of the dual-port block: both ports read the contents before the
   * cycle, then both writes take effect.
   */
  function Cycle(mem: map<nat, bv32>, opA: PortOp, opB: PortOp, logWidth: nat): (r: CycleResult)
    requires logWidth < 32 && !WriteConflict(opA, opB)
    ensures r.outA == ReadOut(mem, opA) && r.outB == ReadOut(mem, opB)
  {
    CycleResult(WriteIn(WriteIn(mem, opA, logWidth), opB, logWidth), ReadOut(mem, opA), ReadOut(mem, opB))
  }

  /** The order in which the two ports' writes are applied does not matter. */
  lemma CycleWritesCommute(mem: map<nat, bv32>, opA: PortOp, opB: PortOp, logWidth: nat)
    requires logWidth < 32 && !WriteConflict(opA, opB)
    ensures Cycle(mem, opA, opB, logWidth).mem == WriteIn(WriteIn(mem, opB, logWidth), opA, logWidth)
  {
    var left := Cycle(mem, opA, opB, logWidth).mem;
    var right := WriteIn(WriteIn(mem, opB, logWidth), opA, logWidth);
    assert forall a :: a in left <==> a in right;
    forall a | a in left ensures left[a] == right[a] {
    }
  }

  /** A port's operation on its own: the other port idles. */
  function SinglePort(mem: map<nat, bv32>, port: Port, op: PortOp, logWidth: nat): CycleResult
    requires logWidth < 32
  {
    if port == PortA then Cycle(mem, op, Idle, logWidth) else Cycle(mem, Idle, op, logWidth)
  }

  /** Both ports see one array: a write through either port leaves the same contents. */
  lemma PortsShareArray(mem: map<nat, bv32>, op: PortOp, logWidth: nat)
    requires logWidth < 32
    ensures SinglePort(mem, PortA, op, logWidth).mem == SinglePort(mem, PortB, op, logWidth).mem
    ensures SinglePort(mem, PortA, op, logWidth).outA == SinglePort(mem, PortB, op, logWidth).outB
  {
  }

  /**
   * A write truncates its data and changes only its own address: afterwards
   * the address reads the truncated data and every other address reads as before.
   */
  lemma WriteThenRead(mem: map<nat, bv32>, addr: nat, data: bv32, other: nat, logWidth: nat)
    requires logWidth < 32 && other != addr
    ensures Lookup(WriteIn(mem, WriteOp(addr, data), logWidth), addr) == Some(Truncate(data, logWidth))
    ensures Lookup(WriteIn(mem, WriteOp(addr, data), logWidth), other) == Lookup(mem, other)
  {
    var m := WriteIn(mem, WriteOp(addr, data), logWidth);
    assert m == mem[addr := Truncate(data, logWidth)];
  }

  /** What a port outputs in a cycle. */
  function PortOut(r: CycleResult, port: Port): Option<bv32>
  {
    if port == PortA then r.outA else r.outB
  }

  /** A port reading on its own outputs the stored word and changes nothing. */
  lemma SinglePortRead(mem: map<nat, bv32>, port: Port, addr: nat, logWidth: nat)
    requires logWidth < 32
    ensures PortOut(SinglePort(mem, port, ReadOp(addr), logWidth), port) == Lookup(mem, addr)
    ensures SinglePort(mem, port, ReadOp(addr), logWidth).mem == mem
  {
  }

  /** Holding a write for a second cycle stores nothing new. */
  lemma HeldWriteIdempotent(mem: map<nat, bv32>, port: Port, op: PortOp, logWidth: nat)
    requires logWidth < 32
    ensures SinglePort(SinglePort(mem, port, op, logWidth).mem, port, op, logWidth).mem
            == SinglePort(mem, port, op, logWidth).mem
  {
    if op.WriteOp? {
      TruncateIdempotent(op.data, logWidth);
    }
  }

  /**
   * A write on port A and a read of the same address on port B in one cycle:
   * the read returns the word from before the write, and a later read the new word.
   */
  lemma CollisionReadsOld(mem: map<nat, bv32>, addr: nat, data: bv32, logWidth: nat)
    requires logWidth < 32
    ensures Cycle(mem, WriteOp(addr, data), ReadOp(addr), logWidth).outB == Lookup(mem, addr)
    ensures Lookup(Cycle(mem, WriteOp(addr, data), ReadOp(addr), logWidth).mem, addr) == Some(Truncate(data, logWidth))
  {
  }

  /** Simultaneous writes to two different addresses through the two ports both take effect. */
  lemma DualWritesTakeEffect(mem: map<nat, bv32>, addrA: nat, dataA: bv32, addrB: nat, dataB: bv32, logWidth: nat)
    requires logWidth < 32 && addrA != addrB
    ensures Lookup(Cycle(mem, WriteOp(addrA, dataA), WriteOp(addrB, dataB), logWidth).mem, addrA) == Some(Truncate(dataA, logWidth))
    ensures Lookup(Cycle(mem, WriteOp(addrA, dataA), WriteOp(addrB, dataB), logWidth).mem, addrB) == Some(Truncate(dataB, logWidth))
  {
  }

  /** The value a read helper returns for the device's output: masked, unless raw. */
  function ReadValue(dataOut: bv32, raw: bool, logWidth: nat): bv32
    requires logWidth < 32
  {
    if raw then dataOut else Truncate(dataOut, logWidth)
  }

  /** A stored word is already truncated, so a raw read and a masked read of it agree. */
  lemma RawReadOfStoredWord(data: bv32, logWidth: nat)
    requires logWidth < 32
    ensures ReadValue(Truncate(data, logWidth), true, logWidth) == ReadValue(Truncate(data, logWidth), false, logWidth)
  {
  }

  /** The contents after storing words[i] at addrs[i], for i = 0, 1, ... in that order. */
  function Stores(mem: map<nat, bv32>, addrs: seq<nat>, words: seq<bv32>): map<nat, bv32>
    requires |addrs| == |words|
  {
    if |addrs| == 0 then mem
    else Stores(mem, addrs[..|addrs| - 1], words[..|words| - 1])[addrs[|addrs| - 1] := words[|words| - 1]]
  }

  /** One more store in the order: the first i + 1 stores are the first i followed by store i. */
  lemma StoresStep(mem: map<nat, bv32>, addrs: seq<nat>, words: seq<bv32>, i: nat)
    requires |addrs| == |words| && i < |addrs|
    ensures Stores(mem, addrs[..i + 1], words[..i + 1]) == Stores(mem, addrs[..i], words[..i])[addrs[i] := words[i]]
  {
    assert addrs[..i + 1][..i] == addrs[..i];
    assert words[..i + 1][..i] == words[..i];
  }

  /** An address that no store names keeps what it held. */
  lemma {:induction false} StoresOther(mem: map<nat, bv32>, addrs: seq<nat>, words: seq<bv32>, a: nat)
    requires |addrs| == |words| && a !in addrs
    ensures Lookup(Stores(mem, addrs, words), a) == Lookup(mem, a)
  {
    if |addrs| > 0 {
      var n := |addrs| - 1;
      StoresOther(mem, addrs[..n], words[..n], a);
    }
  }

  /** An address holds the word of its last store. */
  lemma {:induction false} StoresLast(mem: map<nat, bv32>, addrs: seq<nat>, words: seq<bv32>, i: nat)
    requires |addrs| == |words| && i < |addrs|
    requires forall j :: i < j < |addrs| ==> addrs[j] != addrs[i]
    ensures Lookup(Stores(mem, addrs, words), addrs[i]) == Some(words[i])
  {
    var n := |addrs| - 1;
    if i < n {
      StoresLast(mem, addrs[..n], words[..n], i);
    }
  }

  /** What a stored address holds does not depend on the contents before the stores. */
  lemma {:induction false} StoresOverride(mem1: map<nat, bv32>, mem2: map<nat, bv32>, addrs: seq<nat>, words: seq<bv32>, a: nat)
    requires |addrs| == |words| && a in addrs
    ensures Lookup(Stores(mem1, addrs, words), a) == Lookup(Stores(mem2, addrs, words), a)
  {
    var n := |addrs| - 1;
    if addrs[n] != a {
      assert a in addrs[..n] by {
        var j :| 0 <= j < |addrs| && addrs[j] == a;
        assert addrs[..n][j] == a;
      }
      StoresOverride(mem1, mem2, addrs[..n], words[..n], a);
    }
  }

  /** The stores leave defined exactly the addresses defined before and the addresses stored. */
  lemma {:induction false} StoresKeys(mem: map<nat, bv32>, addrs: seq<nat>, words: seq<bv32>, a: nat)
    requires |addrs| == |words|
    ensures a in Stores(mem, addrs, words) <==> a in mem || a in addrs
  {
    if |addrs| > 0 {
      var n := |addrs| - 1;
      StoresKeys(mem, addrs[..n], words[..n], a);
      assert a in addrs <==> a in addrs[..n] || a == addrs[n] by {
        assert addrs == addrs[..n] + [addrs[n]];
      }
    }
  }

  /** Storing one list after another is storing their concatenation. */
  lemma {:induction false} StoresAppend(mem: map<nat, bv32>, addrs1: seq<nat>, words1: seq<bv32>, addrs2: seq<nat>, words2: seq<bv32>)
    requires |addrs1| == |words1| && |addrs2| == |words2|
    ensures Stores(mem, addrs1 + addrs2, words1 + words2) == Stores(Stores(mem, addrs1, words1), addrs2, words2)
  {
    if |addrs2| == 0 {
      assert addrs1 + addrs2 == addrs1 && words1 + words2 == words1;
    } else {
      var n := |addrs2| - 1;
      assert (addrs1 + addrs2)[..|addrs1| + n] == addrs1 + addrs2[..n];
      assert (words1 + words2)[..|words1| + n] == words1 + words2[..n];
      StoresAppend(mem, addrs1, words1, addrs2[..n], words2[..n]);
    }
  }

  /** The data of test 1, before masking. */
  const BASIC_DATA: seq<bv32> := [0x00, 0xFF, 0xAA, 0x55]

  /** The addresses test 1 writes: 0, 1, log_depth / 2 and log_depth - 1, as uint32_t. */
  function BasicAddrs(logDepth: nat): seq<nat>
  {
    [0, 1, U32(logDepth / 2), U32(logDepth - 1)]
  }

  /** The words test 1 writes: its data masked to the width. */
  function BasicWords(logWidth: nat): seq<bv32>
    requires logWidth < 32
  {
    seq(|BASIC_DATA|, i requires 0 <= i < |BASIC_DATA| => Truncate(BASIC_DATA[i], logWidth))
  }

  /** The addresses test 2 writes: 0, 1, and the quarter points and last two words of the depth, as uint32_t. */
  function BoundaryAddrs(logDepth: nat): seq<nat>
  {
    [0, 1, U32(logDepth / 4), U32(logDepth / 2), U32(3 * logDepth / 4), U32(logDepth - 2), U32(logDepth - 1)]
  }

  /** The word test 2 writes at an address: (addr * 0x13) masked to the width. */
  function BoundaryWord(addr: nat, logWidth: nat): bv32
    requires logWidth < 32
  {
    Truncate(U32(addr * 0x13) as bv32, logWidth)
  }

  /** The words test 2 writes, one per boundary address. */
  function BoundaryWords(logDepth: nat, logWidth: nat): seq<bv32>
    requires logWidth < 32
  {
    var addrs := BoundaryAddrs(logDepth);
    seq(|addrs|, i requires 0 <= i < |addrs| => BoundaryWord(addrs[i], logWidth))
  }

  /** Walking ones: 1 << bit at address bit, for every bit of the width. */
  function WalkingOneAddrs(logWidth: nat): seq<nat>
  {
    seq(logWidth, bit requires 0 <= bit => bit as nat)
  }

  /** The walking-one word for a bit: 1 << bit. */
  function WalkingOne(bit: nat): bv32
    requires bit < 32
  {
    (1 as bv32) << bit
  }

  function WalkingOneWords(logWidth: nat): seq<bv32>
    requires logWidth < 32
  {
    seq(logWidth, bit requires 0 <= bit < logWidth => WalkingOne(bit))
  }

  /** Walking zeros: the mask without bit, at address log_width + bit. */
  function WalkingZeroAddrs(logWidth: nat): seq<nat>
  {
    seq(logWidth, bit requires 0 <= bit => (logWidth + bit) as nat)
  }

  /** The walking-zero word for a bit: max_data & ~(1 << bit). */
  function WalkingZero(bit: nat, logWidth: nat): bv32
    requires bit < logWidth < 32
  {
    Mask(logWidth) & !WalkingOne(bit)
  }

  function WalkingZeroWords(logWidth: nat): seq<bv32>
    requires logWidth < 32
  {
    seq(logWidth, bit requires 0 <= bit < logWidth => WalkingZero(bit, logWidth))
  }

  /** The checkerboard patterns of test 3, before masking. */
  const CHECKERBOARD_DATA: seq<bv32> := [0xAA, 0x55, 0xCC, 0x33]

  /** Checkerboards: the patterns masked, from address 2 * log_width on. */
  function CheckerboardAddrs(logWidth: nat): seq<nat>
  {
    seq(|CHECKERBOARD_DATA|, i requires 0 <= i => (2 * logWidth + i) as nat)
  }

  function CheckerboardWords(logWidth: nat): seq<bv32>
    requires logWidth < 32
  {
    seq(|CHECKERBOARD_DATA|, i requires 0 <= i < |CHECKERBOARD_DATA| => Truncate(CHECKERBOARD_DATA[i], logWidth))
  }

  /** All writes of test 3, in order: walking ones, walking zeros, checkerboards. */
  function PatternAddrs(logWidth: nat): seq<nat>
  {
    WalkingOneAddrs(logWidth) + WalkingZeroAddrs(logWidth) + CheckerboardAddrs(logWidth)
  }

  function PatternWords(logWidth: nat): seq<bv32>
    requires logWidth < 32
  {
    WalkingOneWords(logWidth) + WalkingZeroWords(logWidth) + CheckerboardWords(logWidth)
  }

  /** The oversized words of test 5, wider than any width below 9 bits. */
  const OVERSIZED_DATA: seq<bv32> := [0x100 | 0xAB, 0x1234, 0xABCD_5678, 0xFFFF_FFFF]

  /** The oversized writes of test 5: one address after another from base + 1 on. */
  function OversizedAddrs(base: nat): seq<nat>
  {
    seq(|OVERSIZED_DATA|, i requires 0 <= i => (base + 1 + i) as nat)
  }

  function OversizedWords(logWidth: nat): seq<bv32>
    requires logWidth < 32
  {
    seq(|OVERSIZED_DATA|, i requires 0 <= i < |OVERSIZED_DATA| => Truncate(OVERSIZED_DATA[i], logWidth))
  }

  /** The word test 5 writes through both ports, and the base pattern under its upper-bits word. */
  const DUAL_TEST_DATA: bv32 := 0x1234_5678
  const BASE_PATTERN: bv32 := 0x55

  /**
   * All writes of test 5, in order, at addresses 50 to 57: the mask itself,
   * the four oversized words, the upper-bits word (recorded as the base
   * pattern), and the dual-port word through A and through B.
   */
  function WidthAddrs(): seq<nat>
  {
    [50] + OversizedAddrs(50) + [55, 56, 57]
  }

  function WidthWords(logWidth: nat): seq<bv32>
    requires logWidth < 32
  {
    [Mask(logWidth)] + OversizedWords(logWidth)
      + [Truncate(BASE_PATTERN, logWidth), Truncate(DUAL_TEST_DATA, logWidth), Truncate(DUAL_TEST_DATA, logWidth)]
  }

  /** Test 5 writes the eight addresses 50 to 57, each once. */
  lemma WidthAddrsConsecutive()
    ensures |WidthAddrs()| == |WidthWords(0)| == 8
    ensures forall i :: 0 <= i < 8 ==> WidthAddrs()[i] == 50 + i
  {
    assert WidthAddrs() == [50, 51, 52, 53, 54, 55, 56, 57];
  }

  /** Test 5's writes as its steps perform them: 50, then 51 to 54, then 55, 56 and 57. */
  lemma WidthStores(mem: map<nat, bv32>, logWidth: nat)
    requires logWidth < 32
    ensures Stores(mem, WidthAddrs(), WidthWords(logWidth))
         == Stores(mem[50 := Mask(logWidth)], OversizedAddrs(50), OversizedWords(logWidth))
              [55 := Truncate(BASE_PATTERN, logWidth)]
              [56 := Truncate(DUAL_TEST_DATA, logWidth)][57 := Truncate(DUAL_TEST_DATA, logWidth)]
  {
    var first, firstW := [50], [Mask(logWidth)];
    var last := [55, 56, 57];
    var lastW := [Truncate(BASE_PATTERN, logWidth), Truncate(DUAL_TEST_DATA, logWidth), Truncate(DUAL_TEST_DATA, logWidth)];
    StoresAppend(mem, first, firstW, OversizedAddrs(50), OversizedWords(logWidth));
    StoresAppend(mem, first + OversizedAddrs(50), firstW + OversizedWords(logWidth), last, lastW);
    assert Stores(mem, first, firstW) == mem[50 := Mask(logWidth)] by {
      assert first[..0] == [] && firstW[..0] == [];
    }
    var m := Stores(mem[50 := Mask(logWidth)], OversizedAddrs(50), OversizedWords(logWidth));
    assert Stores(m, last, lastW) == m[55 := lastW[0]][56 := lastW[1]][57 := lastW[2]] by {
      StoresStep(m, last, lastW, 0);
      StoresStep(m, last, lastW, 1);
      StoresStep(m, last, lastW, 2);
      assert last[..0] == [] && lastW[..0] == [];
      assert last[..3] == last && lastW[..3] == lastW;
    }
  }

  /** The word test 6 writes first through port A, and the word it writes in the collision cycle. */
  function CollisionFirst(logWidth: nat): bv32
    requires logWidth < 32
  {
    Truncate(0x77, logWidth)
  }

  function CollisionSecond(logWidth: nat): bv32
    requires logWidth < 32
  {
    Truncate(0x88, logWidth)
  }

  /** The two words of test 6 differ exactly when the width is at least one bit. */
  lemma CollisionWordsDiffer(logWidth: nat)
    requires logWidth < 32
    ensures CollisionFirst(logWidth) != CollisionSecond(logWidth) <==> logWidth >= 1
  {
  }

  /**
   * ref_memory after run_core_tests: test 5 cleared it and recorded addresses
   * 50 to 57, and test 6 recorded its first word at address 100.
   */
  function CoreTestsRecord(logWidth: nat): map<nat, bv32>
    requires logWidth < 32
  {
    Stores(map[], WidthAddrs(), WidthWords(logWidth))[100 := CollisionFirst(logWidth)]
  }

  /** The block after run_core_tests: every write of tests 1 to 6, in order. */
  function CoreTestsBlock(device: map<nat, bv32>, logWidth: nat, logDepth: nat): map<nat, bv32>
    requires logWidth < 32
  {
    var afterBasic := Stores(device, BasicAddrs(logDepth), BasicWords(logWidth));
    var afterBoundaries := Stores(afterBasic, BoundaryAddrs(logDepth), BoundaryWords(logDepth, logWidth));
    var afterPatterns := Stores(afterBoundaries, PatternAddrs(logWidth), PatternWords(logWidth));
    var afterDual := afterPatterns[10 := Truncate(0x12, logWidth)][20 := Truncate(0x34, logWidth)];
    var afterWidth := Stores(afterDual, WidthAddrs(), WidthWords(logWidth));
    afterWidth[100 := CollisionFirst(logWidth)][100 := CollisionSecond(logWidth)]
  }

  /**
   * After the core tests ref_memory holds exactly addresses 50 to 57 and 100;
   * it agrees with the block at 50 to 57, whatever the block held before, but
   * at 100 it keeps the word from before the collision write, which differs
   * from the block's word whenever the width is at least one bit.
   */
  lemma CoreTestsRecordStale(device: map<nat, bv32>, logWidth: nat, logDepth: nat)
    requires 1 <= logWidth < 32
    ensures forall a: nat :: a in CoreTestsRecord(logWidth) <==> 50 <= a <= 57 || a == 100
    ensures forall a: nat :: 50 <= a <= 57 ==>
      Lookup(CoreTestsRecord(logWidth), a) == Lookup(CoreTestsBlock(device, logWidth, logDepth), a)
    ensures Lookup(CoreTestsRecord(logWidth), 100) == Some(CollisionFirst(logWidth))
    ensures Lookup(CoreTestsBlock(device, logWidth, logDepth), 100) == Some(CollisionSecond(logWidth))
    ensures CollisionFirst(logWidth) != CollisionSecond(logWidth)
  {
    var addrs, words := WidthAddrs(), WidthWords(logWidth);
    var record := Stores(map[], addrs, words);
    var afterBasic := Stores(device, BasicAddrs(logDepth), BasicWords(logWidth));
    var afterBoundaries := Stores(afterBasic, BoundaryAddrs(logDepth), BoundaryWords(logDepth, logWidth));
    var afterPatterns := Stores(afterBoundaries, PatternAddrs(logWidth), PatternWords(logWidth));
    var afterDual := afterPatterns[10 := Truncate(0x12, logWidth)][20 := Truncate(0x34, logWidth)];
    WidthAddrsConsecutive();
    forall a: nat ensures a in CoreTestsRecord(logWidth) <==> 50 <= a <= 57 || a == 100 {
      StoresKeys(map[], addrs, words, a);
      if 50 <= a <= 57 {
        assert addrs[a - 50] == a;
      }
    }
    forall a: nat | 50 <= a <= 57
      ensures Lookup(CoreTestsRecord(logWidth), a) == Lookup(CoreTestsBlock(device, logWidth, logDepth), a)
    {
      assert addrs[a - 50] == a;
      StoresOverride(map[], afterDual, addrs, words, a);
    }
    CollisionWordsDiffer(logWidth);
  }

  /** The harness: its configuration, its record of written words, and its check counters. */
  class M20kTester {
    const logWidth: nat
    const logDepth: nat
    var testCount: nat
    var passCount: nat
    var failCount: nat
    /** ref_memory: the word the harness expects at each address it wrote through a helper. */
    var refMemory: map<nat, bv32>

    ghost predicate Valid()
      reads this
    {
      logWidth < 32 && testCount == passCount + failCount && AllTruncated(refMemory, logWidth)
    }

    /** A tester for a logical width below 32 bits (the mask is undefined otherwise). */
    constructor (width: nat, depth: nat)
      requires width < 32
      ensures Valid()
      ensures logWidth == width && logDepth == depth
      ensures testCount == 0 && passCount == 0 && failCount == 0 && refMemory == map[]
    {
      logWidth := width;
      logDepth := depth;
      testCount := 0;
      passCount := 0;
      failCount := 0;
      refMemory := map[];
    }

    /** dut_reset pulses the device's reset; the harness keeps its record, as the device keeps its contents. */
    method DutReset()
      requires Valid()
      modifies this
      ensures Valid()
      ensures refMemory == old(refMemory)
      ensures testCount == old(testCount) && passCount == old(passCount) && failCount == old(failCount)
    {
    }

    /** assert_test counts one check, as passed or as failed. */
    method AssertTest(condition: bool)
      requires Valid()
      modifies this
      ensures Valid()
      ensures testCount == old(testCount) + 1
      ensures condition ==> passCount == old(passCount) + 1 && failCount == old(failCount)
      ensures !condition ==> failCount == old(failCount) + 1 && passCount == old(passCount)
      ensures refMemory == old(refMemory)
    {
      testCount := testCount + 1;
      if condition {
        passCount := passCount + 1;
      } else {
        failCount := failCount + 1;
      }
    }

    /**
     * The write helpers (write_port_a/b and their raw forms): drive the data,
     * masked unless raw, at the address on the port, and record the masked
     * word in ref_memory. Returns the operation driven on the port.
     */
    method WritePort(port: Port, addr: nat, data: bv32, raw: bool) returns (op: PortOp)
      requires Valid()
      modifies this
      ensures Valid()
      ensures op == WriteOp(addr, if raw then data else Truncate(data, logWidth))
      ensures refMemory == old(refMemory)[addr := Truncate(data, logWidth)]
      ensures testCount == old(testCount) && passCount == old(passCount) && failCount == old(failCount)
    {
      var maskedData := Truncate(data, logWidth);
      StoreKeepsTruncated(refMemory, addr, data, logWidth);
      op := WriteOp(addr, if raw then data else maskedData);
      refMemory := refMemory[addr := maskedData];
    }

    /** The read helpers (read_port_a/b): the device's output for the port, masked unless raw. */
    method ReadPort(port: Port, addr: nat, raw: bool, dataOut: bv32) returns (value: bv32)
      requires Valid()
      ensures value == ReadValue(dataOut, raw, logWidth)
      ensures !raw ==> Truncate(value, logWidth) == value
    {
      if raw {
        return dataOut;
      }
      value := dataOut & Mask(logWidth);
    }

    /**
     * Test 1: writes four words by driving port A's pins directly, reads each
     * back masked, and records each in ref_memory after its check.
     */
    method TestBasicSinglePortRw(device: map<nat, bv32>) returns (deviceOut: map<nat, bv32>)
      requires Valid()
      modifies this
      ensures Valid()
      ensures refMemory == Stores(old(refMemory), BasicAddrs(logDepth), BasicWords(logWidth))
      ensures deviceOut == Stores(device, BasicAddrs(logDepth), BasicWords(logWidth))
      ensures testCount == old(testCount) + 4 && passCount == old(passCount) + 4 && failCount == old(failCount)
    {
      DutReset();
      var testAddrs := BasicAddrs(logDepth);
      var testData := BASIC_DATA;
      ghost var words := BasicWords(logWidth);
      deviceOut := device;
      var i := 0;
      while i < |testAddrs|
        invariant 0 <= i <= |testAddrs|
        invariant Valid()
        invariant refMemory == Stores(old(refMemory), testAddrs[..i], words[..i])
        invariant deviceOut == Stores(device, testAddrs[..i], words[..i])
        invariant testCount == old(testCount) + i && passCount == old(passCount) + i && failCount == old(failCount)
      {
        var addr := testAddrs[i];
        var data := Truncate(testData[i], logWidth);
        TruncateIdempotent(testData[i], logWidth);
        StoresStep(old(refMemory), testAddrs, words, i);
        StoresStep(device, testAddrs, words, i);
        deviceOut := SinglePort(deviceOut, PortA, WriteOp(addr, data), logWidth).mem;
        var out := PortOut(SinglePort(deviceOut, PortA, ReadOp(addr), logWidth), PortA);
        var readData := out.value & Mask(logWidth);
        AssertTest(readData == data);
        StoreKeepsTruncated(refMemory, addr, testData[i], logWidth);
        refMemory := refMemory[addr := data];
        i := i + 1;
      }
      assert testAddrs[..|testAddrs|] == testAddrs && words[..|words|] == words;
    }

    /** Test 2: writes (addr * 0x13) masked at the boundary addresses through the helper and reads each back. */
    method TestAddressBoundaries(device: map<nat, bv32>) returns (deviceOut: map<nat, bv32>)
      requires Valid()
      modifies this
      ensures Valid()
      ensures refMemory == Stores(old(refMemory), BoundaryAddrs(logDepth), BoundaryWords(logDepth, logWidth))
      ensures deviceOut == Stores(device, BoundaryAddrs(logDepth), BoundaryWords(logDepth, logWidth))
      ensures testCount == old(testCount) + 7 && passCount == old(passCount) + 7 && failCount == old(failCount)
    {
      DutReset();
      var boundaryAddrs := BoundaryAddrs(logDepth);
      ghost var words := BoundaryWords(logDepth, logWidth);
      deviceOut := device;
      var i := 0;
      while i < |boundaryAddrs|
        invariant 0 <= i <= |boundaryAddrs|
        invariant Valid()
        invariant refMemory == Stores(old(refMemory), boundaryAddrs[..i], words[..i])
        invariant deviceOut == Stores(device, boundaryAddrs[..i], words[..i])
        invariant testCount == old(testCount) + i && passCount == old(passCount) + i && failCount == old(failCount)
      {
        var addr := boundaryAddrs[i];
        var testData := BoundaryWord(addr, logWidth);
        StoresStep(old(refMemory), boundaryAddrs, words, i);
        StoresStep(device, boundaryAddrs, words, i);
        deviceOut := WriteRead(PortA, addr, testData, false, deviceOut);
        i := i + 1;
      }
      assert boundaryAddrs[..|boundaryAddrs|] == boundaryAddrs && words[..|words|] == words;
    }

    /**
     * One write through a helper followed by one masked read through the
     * helper of the same port, checked against the data written; used where
     * the data already fits the width.
     */
    method WriteRead(port: Port, addr: nat, data: bv32, raw: bool, device: map<nat, bv32>) returns (deviceOut: map<nat, bv32>)
      requires Valid() && Truncate(data, logWidth) == data
      modifies this
      ensures Valid()
      ensures deviceOut == device[addr := data]
      ensures refMemory == old(refMemory)[addr := data]
      ensures testCount == old(testCount) + 1 && passCount == old(passCount) + 1 && failCount == old(failCount)
    {
      var op := WritePort(port, addr, data, raw);
      deviceOut := SinglePort(device, port, op, logWidth).mem;
      SinglePortRead(deviceOut, port, addr, logWidth);
      var out := PortOut(SinglePort(deviceOut, port, ReadOp(addr), logWidth), port);
      var readData := ReadPort(port, addr, false, out.value);
      AssertTest(readData == data);
    }

    /** Test 3: walking ones, walking zeros and four checkerboard words, each written and read back through port A. */
    method TestDataPatterns(device: map<nat, bv32>) returns (deviceOut: map<nat, bv32>)
      requires Valid()
      modifies this
      ensures Valid()
      ensures refMemory == Stores(old(refMemory), PatternAddrs(logWidth), PatternWords(logWidth))
      ensures deviceOut == Stores(device, PatternAddrs(logWidth), PatternWords(logWidth))
      ensures testCount == old(testCount) + 2 * logWidth + 4
      ensures passCount == old(passCount) + 2 * logWidth + 4 && failCount == old(failCount)
    {
      DutReset();
      deviceOut := WalkingOnes(device);
      deviceOut := WalkingZeros(deviceOut);
      deviceOut := Checkerboards(deviceOut);
      var onesA, zerosA, boardA := WalkingOneAddrs(logWidth), WalkingZeroAddrs(logWidth), CheckerboardAddrs(logWidth);
      var onesW, zerosW, boardW := WalkingOneWords(logWidth), WalkingZeroWords(logWidth), CheckerboardWords(logWidth);
      StoresAppend(old(refMemory), onesA, onesW, zerosA, zerosW);
      StoresAppend(old(refMemory), onesA + zerosA, onesW + zerosW, boardA, boardW);
      StoresAppend(device, onesA, onesW, zerosA, zerosW);
      StoresAppend(device, onesA + zerosA, onesW + zerosW, boardA, boardW);
    }

    /** The walking-ones part of test 3: 1 << bit at address bit, for every bit of the width. */
    method WalkingOnes(device: map<nat, bv32>) returns (deviceOut: map<nat, bv32>)
      requires Valid()
      modifies this
      ensures Valid()
      ensures refMemory == Stores(old(refMemory), WalkingOneAddrs(logWidth), WalkingOneWords(logWidth))
      ensures deviceOut == Stores(device, WalkingOneAddrs(logWidth), WalkingOneWords(logWidth))
      ensures testCount == old(testCount) + logWidth && passCount == old(passCount) + logWidth && failCount == old(failCount)
    {
      ghost var addrs, words := WalkingOneAddrs(logWidth), WalkingOneWords(logWidth);
      deviceOut := device;
      var bit := 0;
      while bit < logWidth
        invariant 0 <= bit <= logWidth
        invariant Valid()
        invariant refMemory == Stores(old(refMemory), addrs[..bit], words[..bit])
        invariant deviceOut == Stores(device, addrs[..bit], words[..bit])
        invariant testCount == old(testCount) + bit && passCount == old(passCount) + bit && failCount == old(failCount)
      {
        WalkingOneFits(bit, logWidth);
        StoresStep(old(refMemory), addrs, words, bit);
        StoresStep(device, addrs, words, bit);
        deviceOut := WriteRead(PortA, bit, WalkingOne(bit), false, deviceOut);
        bit := bit + 1;
      }
      assert addrs[..logWidth] == addrs && words[..logWidth] == words;
    }

    /** The walking-zeros part of test 3: the mask without bit, at address log_width + bit. */
    method WalkingZeros(device: map<nat, bv32>) returns (deviceOut: map<nat, bv32>)
      requires Valid()
      modifies this
      ensures Valid()
      ensures refMemory == Stores(old(refMemory), WalkingZeroAddrs(logWidth), WalkingZeroWords(logWidth))
      ensures deviceOut == Stores(device, WalkingZeroAddrs(logWidth), WalkingZeroWords(logWidth))
      ensures testCount == old(testCount) + logWidth && passCount == old(passCount) + logWidth && failCount == old(failCount)
    {
      ghost var addrs, words := WalkingZeroAddrs(logWidth), WalkingZeroWords(logWidth);
      deviceOut := device;
      var bit := 0;
      while bit < logWidth
        invariant 0 <= bit <= logWidth
        invariant Valid()
        invariant refMemory == Stores(old(refMemory), addrs[..bit], words[..bit])
        invariant deviceOut == Stores(device, addrs[..bit], words[..bit])
        invariant testCount == old(testCount) + bit && passCount == old(passCount) + bit && failCount == old(failCount)
      {
        var addr, data := logWidth + bit, WalkingZero(bit, logWidth);
        assert addr == addrs[bit] && data == words[bit];
        WalkingZeroFits(bit, logWidth);
        StoresStep(old(refMemory), addrs, words, bit);
        StoresStep(device, addrs, words, bit);
        deviceOut := WriteRead(PortA, addr, data, false, deviceOut);
        bit := bit + 1;
      }
      assert addrs[..logWidth] == addrs && words[..logWidth] == words;
    }

    /** The checkerboard part of test 3: 0xAA, 0x55, 0xCC and 0x33, masked, from address 2 * log_width on. */
    method Checkerboards(device: map<nat, bv32>) returns (deviceOut: map<nat, bv32>)
      requires Valid()
      modifies this
      ensures Valid()
      ensures refMemory == Stores(old(refMemory), CheckerboardAddrs(logWidth), CheckerboardWords(logWidth))
      ensures deviceOut == Stores(device, CheckerboardAddrs(logWidth), CheckerboardWords(logWidth))
      ensures testCount == old(testCount) + 4 && passCount == old(passCount) + 4 && failCount == old(failCount)
    {
      ghost var addrs, words := CheckerboardAddrs(logWidth), CheckerboardWords(logWidth);
      var patterns := CHECKERBOARD_DATA;
      deviceOut := device;
      var i := 0;
      while i < |patterns|
        invariant 0 <= i <= |patterns|
        invariant Valid()
        invariant refMemory == Stores(old(refMemory), addrs[..i], words[..i])
        invariant deviceOut == Stores(device, addrs[..i], words[..i])
        invariant testCount == old(testCount) + i && passCount == old(passCount) + i && failCount == old(failCount)
      {
        var addr, data := 2 * logWidth + i, Truncate(patterns[i], logWidth);
        assert addr == addrs[i] && data == words[i];
        TruncateIdempotent(patterns[i], logWidth);
        StoresStep(old(refMemory), addrs, words, i);
        StoresStep(device, addrs, words, i);
        deviceOut := WriteRead(PortA, addr, data, false, deviceOut);
        i := i + 1;
      }
      assert addrs[..|patterns|] == addrs && words[..|patterns|] == words;
    }

    /**
     * Test 4: one cycle writing through both ports at addresses 10 and 20, then
     * one cycle reading through both ports; the address pins still hold 10 and
     * 20, and the outputs are compared unmasked. The pins are driven directly,
     * so ref_memory records nothing.
     */
    method TestDualPortIndependent(device: map<nat, bv32>) returns (deviceOut: map<nat, bv32>)
      requires Valid()
      modifies this
      ensures Valid()
      ensures refMemory == old(refMemory)
      ensures deviceOut == device[10 := Truncate(0x12, logWidth)][20 := Truncate(0x34, logWidth)]
      ensures testCount == old(testCount) + 2 && passCount == old(passCount) + 2 && failCount == old(failCount)
    {
      DutReset();
      var addrA, addrB := 10, 20;
      var dataA, dataB := Truncate(0x12, logWidth), Truncate(0x34, logWidth);
      TruncateIdempotent(0x12, logWidth);
      TruncateIdempotent(0x34, logWidth);
      DualWritesTakeEffect(device, addrA, dataA, addrB, dataB, logWidth);
      deviceOut := Cycle(device, WriteOp(addrA, dataA), WriteOp(addrB, dataB), logWidth).mem;
      var readCycle := Cycle(deviceOut, ReadOp(addrA), ReadOp(addrB), logWidth);
      var readA, readB := readCycle.outA.value, readCycle.outB.value;
      AssertTest(readA == dataA);
      AssertTest(readB == dataB);
    }

    /**
     * Test 5: clears ref_memory, then writes raw through the helpers (the mask
     * itself, four oversized words, a word with bits set above the width, and
     * one word through each port) and checks that each reads back truncated.
     */
    method TestDataWidthHandling(device: map<nat, bv32>) returns (deviceOut: map<nat, bv32>)
      requires Valid()
      modifies this
      ensures Valid()
      ensures refMemory == Stores(map[], WidthAddrs(), WidthWords(logWidth))
      ensures deviceOut == Stores(device, WidthAddrs(), WidthWords(logWidth))
      ensures testCount == old(testCount) + 7 && passCount == old(passCount) + 7 && failCount == old(failCount)
    {
      refMemory := map[];
      DutReset();
      var testAddr := 50;
      var dataMask := Mask(logWidth);
      MaskFits(logWidth);
      deviceOut := WriteRead(PortA, testAddr, dataMask, true, device);
      deviceOut := OversizedTruncation(testAddr, deviceOut);
      testAddr := testAddr + 4;
      // log_width < 32 holds for every tester, so the upper-bits check always runs.
      testAddr := testAddr + 1;
      deviceOut := UpperBitsCheck(testAddr, deviceOut);
      testAddr := testAddr + 1;
      deviceOut := DualPortWidthConsistency(testAddr, deviceOut);
      WidthStores(map[], logWidth);
      WidthStores(device, logWidth);
    }

    /** The upper-bits part of test 5: the base pattern with 0xDEADBEEF above the width, raw-written at addr. */
    method UpperBitsCheck(addr: nat, device: map<nat, bv32>) returns (deviceOut: map<nat, bv32>)
      requires Valid()
      modifies this
      ensures Valid()
      ensures refMemory == old(refMemory)[addr := Truncate(BASE_PATTERN, logWidth)]
      ensures deviceOut == device[addr := Truncate(BASE_PATTERN, logWidth)]
      ensures testCount == old(testCount) + 1 && passCount == old(passCount) + 1 && failCount == old(failCount)
    {
      var basePattern := BASE_PATTERN & Mask(logWidth);
      var withUpperBits := basePattern | (0xDEAD_BEEF << logWidth);
      UpperBitsIgnored(BASE_PATTERN, 0xDEAD_BEEF, logWidth);
      deviceOut := WriteReadTruncated(PortA, addr, withUpperBits, basePattern, device);
    }

    /** The oversized part of test 5: four words wider than the width, raw-written from address base + 1 on. */
    method OversizedTruncation(base: nat, device: map<nat, bv32>) returns (deviceOut: map<nat, bv32>)
      requires Valid()
      modifies this
      ensures Valid()
      ensures refMemory == Stores(old(refMemory), OversizedAddrs(base), OversizedWords(logWidth))
      ensures deviceOut == Stores(device, OversizedAddrs(base), OversizedWords(logWidth))
      ensures testCount == old(testCount) + 4 && passCount == old(passCount) + 4 && failCount == old(failCount)
    {
      ghost var addrs, words := OversizedAddrs(base), OversizedWords(logWidth);
      var oversizedData := OVERSIZED_DATA;
      deviceOut := device;
      var testAddr := base;
      var i := 0;
      while i < |oversizedData|
        invariant 0 <= i <= |oversizedData|
        invariant Valid() && testAddr == base + i
        invariant refMemory == Stores(old(refMemory), addrs[..i], words[..i])
        invariant deviceOut == Stores(device, addrs[..i], words[..i])
        invariant testCount == old(testCount) + i && passCount == old(passCount) + i && failCount == old(failCount)
      {
        var bigData := oversizedData[i];
        var expected := Truncate(bigData, logWidth);
        StoresStep(old(refMemory), addrs, words, i);
        StoresStep(device, addrs, words, i);
        testAddr := testAddr + 1;
        deviceOut := WriteReadTruncated(PortA, testAddr, bigData, expected, deviceOut);
        i := i + 1;
      }
      assert addrs[..|oversizedData|] == addrs && words[..|oversizedData|] == words;
    }

    /**
     * The last part of test 5: the same word raw-written through port A at addr
     * and through port B at addr + 1, then read back through the same ports.
     */
    method DualPortWidthConsistency(addr: nat, device: map<nat, bv32>) returns (deviceOut: map<nat, bv32>)
      requires Valid()
      modifies this
      ensures Valid()
      ensures refMemory == old(refMemory)[addr := Truncate(DUAL_TEST_DATA, logWidth)][addr + 1 := Truncate(DUAL_TEST_DATA, logWidth)]
      ensures deviceOut == device[addr := Truncate(DUAL_TEST_DATA, logWidth)][addr + 1 := Truncate(DUAL_TEST_DATA, logWidth)]
      ensures testCount == old(testCount) + 1 && passCount == old(passCount) + 1 && failCount == old(failCount)
    {
      var dualTestData := DUAL_TEST_DATA;
      var expectedDual := dualTestData & Mask(logWidth);
      var opA := WritePort(PortA, addr, dualTestData, true);
      deviceOut := SinglePort(device, PortA, opA, logWidth).mem;
      var opB := WritePort(PortB, addr + 1, dualTestData, true);
      deviceOut := SinglePort(deviceOut, PortB, opB, logWidth).mem;
      var outA := PortOut(SinglePort(deviceOut, PortA, ReadOp(addr), logWidth), PortA);
      var readA := ReadPort(PortA, addr, false, outA.value);
      var outB := PortOut(SinglePort(deviceOut, PortB, ReadOp(addr + 1), logWidth), PortB);
      var readB := ReadPort(PortB, addr + 1, false, outB.value);
      TruncateIdempotent(dualTestData, logWidth);
      AssertTest(readA == expectedDual && readB == expectedDual);
    }

    /** A raw write through port A's helper and a masked read back, checked against the expected truncation. */
    method WriteReadTruncated(port: Port, addr: nat, data: bv32, expected: bv32, device: map<nat, bv32>) returns (deviceOut: map<nat, bv32>)
      requires Valid() && expected == Truncate(data, logWidth)
      modifies this
      ensures Valid()
      ensures deviceOut == device[addr := expected]
      ensures refMemory == old(refMemory)[addr := expected]
      ensures testCount == old(testCount) + 1 && passCount == old(passCount) + 1 && failCount == old(failCount)
    {
      var op := WritePort(port, addr, data, true);
      deviceOut := SinglePort(device, port, op, logWidth).mem;
      SinglePortRead(deviceOut, port, addr, logWidth);
      var out := PortOut(SinglePort(deviceOut, port, ReadOp(addr), logWidth), port);
      var readBack := ReadPort(port, addr, false, out.value);
      TruncateIdempotent(data, logWidth);
      AssertTest(readBack == expected);
    }

    /**
     * Test 6: writes and reads back address 100 through port A, then in one
     * cycle writes a new word through port A while port B reads the same
     * address, then reads it through port B. The collision read is reported,
     * not checked; it returns the word from before the write. The collision
     * write drives the pins directly, so ref_memory keeps the first word.
     */
    method TestSameAddressAccess(device: map<nat, bv32>) returns (deviceOut: map<nat, bv32>, collisionRead: bv32)
      requires Valid()
      modifies this
      ensures Valid()
      ensures collisionRead == CollisionFirst(logWidth)
      ensures refMemory == old(refMemory)[100 := CollisionFirst(logWidth)]
      ensures deviceOut == device[100 := CollisionFirst(logWidth)][100 := CollisionSecond(logWidth)]
      ensures testCount == old(testCount) + 2 && passCount == old(passCount) + 2 && failCount == old(failCount)
    {
      DutReset();
      var addr := 100;
      var dataA, dataB := Truncate(0x77, logWidth), Truncate(0x88, logWidth);
      TruncateIdempotent(0x77, logWidth);
      TruncateIdempotent(0x88, logWidth);
      deviceOut := WriteRead(PortA, addr, dataA, false, device);
      CollisionReadsOld(deviceOut, addr, dataB, logWidth);
      var collision := Cycle(deviceOut, WriteOp(addr, dataB), ReadOp(addr), logWidth);
      deviceOut := collision.mem;
      collisionRead := collision.outB.value & Mask(logWidth);
      deviceOut := ReadCheck(PortB, addr, dataB, deviceOut);
    }

    /** A masked read through a helper, checked against the word the address should hold. */
    method ReadCheck(port: Port, addr: nat, expected: bv32, device: map<nat, bv32>) returns (deviceOut: map<nat, bv32>)
      requires Valid() && Lookup(device, addr) == Some(expected) && Truncate(expected, logWidth) == expected
      modifies this
      ensures Valid() && deviceOut == device && refMemory == old(refMemory)
      ensures testCount == old(testCount) + 1 && passCount == old(passCount) + 1 && failCount == old(failCount)
    {
      SinglePortRead(device, port, addr, logWidth);
      deviceOut := SinglePort(device, port, ReadOp(addr), logWidth).mem;
      var out := PortOut(SinglePort(device, port, ReadOp(addr), logWidth), port);
      var readData := ReadPort(port, addr, false, out.value);
      AssertTest(readData == expected);
    }

    /** run_core_tests: tests 1 to 6 in order, against one device. */
    method RunCoreTests(device: map<nat, bv32>) returns (deviceOut: map<nat, bv32>)
      requires Valid()
      modifies this
      ensures Valid()
      ensures refMemory == CoreTestsRecord(logWidth)
      ensures deviceOut == CoreTestsBlock(device, logWidth, logDepth)
      ensures testCount == old(testCount) + 2 * logWidth + 26
      ensures passCount == old(passCount) + 2 * logWidth + 26 && failCount == old(failCount)
    {
      deviceOut := TestBasicSinglePortRw(device);
      deviceOut := TestAddressBoundaries(deviceOut);
      deviceOut := TestDataPatterns(deviceOut);
      deviceOut := TestDualPortIndependent(deviceOut);
      deviceOut := TestDataWidthHandling(deviceOut);
      var collisionRead;
      deviceOut, collisionRead := TestSameAddressAccess(deviceOut);
    }
  }

  /**
   * test_memory_configurations: a fresh 8 x 2048 tester runs the core tests;
   * against a block that behaves as the reference, all 42 checks pass.
   */
  method TestMemoryConfigurations(device: map<nat, bv32>) returns (tester: M20kTester)
    ensures fresh(tester) && tester.Valid()
    ensures tester.testCount == 42 && tester.passCount == 42 && tester.failCount == 0
    ensures tester.refMemory == CoreTestsRecord(DEFAULT_WIDTH)
  {
    tester := new M20kTester(DEFAULT_WIDTH, DEFAULT_DEPTH);
    var deviceOut := tester.RunCoreTests(device);
  }
}

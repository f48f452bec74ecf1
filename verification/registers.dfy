/** Register windows of the TSB UniPro block and the bit positions the CPort
    engine derives from a CPort identifier.

    The numeric offsets of the windows are defined in a chip header that is
    not part of this model, so a register is named by the window it belongs
    to and a byte offset inside that window. Distinct windows are taken not
    to overlap. */
module Registers {

  import opened Wrappers

  /** The register windows, relative to AIO_UNIPRO_BASE. */
  datatype Bank =
    | TxQueueEmpty        // CPB_TXQUEUEEMPTY_0: one "queue empty" bit per CPort, 32 per word
    | TxSwReset           // TX_SW_RESET_00: per-CPort transmit reset strobe
    | RxSwReset           // RX_SW_RESET_00: per-CPort receive reset strobe
    | AhmAddress          // AHM_ADDRESS_00: per-CPort receive buffer address
    | RxPauseSize         // REG_RX_PAUSE_SIZE_00: per-CPort restart flag and receive size
    | RxEomStatus         // AHM_RX_EOM_INT_BEF_0: two end-of-message bits per CPort, write one to clear
    | RxEotStatus         // AHM_RX_EOT_INT_BEF_0: one end-of-transfer bit per CPort
    | RxTransferredSize   // CPB_RX_TRANSFERRED_DATA_SIZE_00: per-CPort received byte count
    | RxE2efcEn0          // CPB_RX_E2EFC_EN_0: end-to-end flow control enables, first word
    | RxE2efcEn1          // CPB_RX_E2EFC_EN_1: end-to-end flow control enables, second word
    | EomTrigger          // CPORT_EOM_BIT(cport): per-CPort end-of-message trigger byte

  datatype Reg = Reg(bank: Bank, offset: nat)

  /** Banks that hold one 32-bit register per CPort at `base + (cportid << 2)`. */
  predicate PerCportBank(b: Bank)
  {
    b in {TxSwReset, RxSwReset, AhmAddress, RxPauseSize, RxTransferredSize, EomTrigger}
  }

  /** The register of CPort `id` in a per-CPort bank. */
  function CportReg(b: Bank, id: nat): Reg
    requires PerCportBank(b)
  {
    Reg(b, id * 4)
  }

  /** The CPort a register belongs to, if it lies in a per-CPort bank. */
  function CportOf(r: Reg): (c: Option<nat>)
    ensures c.Some? <==> PerCportBank(r.bank) && r.offset % 4 == 0
    ensures c.Some? ==> CportReg(r.bank, c.value) == r
  {
    if PerCportBank(r.bank) && r.offset % 4 == 0 then Some(r.offset / 4) else None
  }

  lemma CportOfCportReg(b: Bank, id: nat)
    requires PerCportBank(b)
    ensures CportOf(CportReg(b, id)) == Some(id)
  {
  }

  const EomStatusReg: Reg := Reg(RxEomStatus, 0)
  const EotStatusReg: Reg := Reg(RxEotStatus, 0)

  /** The status word holding CPort `id`'s queue-empty bit:
      `CPB_TXQUEUEEMPTY_0 + ((id >> 5) << 2)`; for an unsigned id the shift
      right by five is the division by 32. */
  function QueueEmptyWord(id: nat): Reg
  {
    Reg(TxQueueEmpty, (id / 32) * 4)
  }

  /** The word with only bit `n` set, built by doubling; it equals the
      source's `1 << n` (ShiftOneIsShift). */
  function ShiftOne(n: nat): bv32
    requires n < 32
  {
    if n == 0 then 1 else ShiftOne(n - 1) << 1
  }

  lemma {:induction false} ShiftOneIsShift(n: nat)
    requires n < 32
    ensures ShiftOne(n) == (1 as bv32) << n
  {
    if n > 0 {
      ShiftOneIsShift(n - 1);
    }
  }

  /** CPort `id`'s bit in its queue-empty word: `1 << (id & 31)`. */
  function QueueEmptyBit(id: nat): (b: bv32)
  {
    ShiftOne(id % 32)
  }

  /** Normal end-of-message bit: `0x01 << (id << 1)`. The shift is defined
      for the sixteen CPorts a 32-bit word can describe. */
  function EomNomBit(id: nat): (b: bv32)
    requires id < 16
  {
    ShiftOne(2 * id)
  }

  /** Error end-of-message bit: `0x02 << (id << 1)`, the bit just above the
      normal one. */
  function EomErrBit(id: nat): (b: bv32)
    requires id < 16
  {
    ShiftOne(2 * id + 1)
  }

  /** End-of-transfer (overflow) bit: `1 << id`. */
  function EotBit(id: nat): (b: bv32)
    requires id < 32
  {
    ShiftOne(id)
  }

  /** The test `(v & bit) != 0`. */
  predicate BitSet(v: bv32, bit: bv32)
  {
    v & bit != 0
  }

  predicate SingleBit(b: bv32)
  {
    b != 0 && b & (b - 1) == 0
  }

  /** Words with different single bits set share no bit. */
  lemma {:induction false} ShiftOneDisjoint(m: nat, n: nat)
    requires m < 32 && n < 32 && m != n
    ensures ShiftOne(m) & ShiftOne(n) == 0
  {
    if m == 0 {
      var x := ShiftOne(n - 1);
      assert 1 & (x << 1) == 0;
    } else if n == 0 {
      var x := ShiftOne(m - 1);
      assert (x << 1) & 1 == 0;
    } else {
      ShiftOneDisjoint(m - 1, n - 1);
      var x, y := ShiftOne(m - 1), ShiftOne(n - 1);
      assert (x << 1) & (y << 1) == (x & y) << 1;
    }
  }

  /** ShiftOne(n) has exactly one bit set. */
  lemma {:induction false} ShiftOneSingleBit(n: nat)
    requires n < 32
    ensures SingleBit(ShiftOne(n))
  {
    if n > 0 {
      var x := ShiftOne(n - 1);
      ShiftOneSingleBit(n - 1);
      ShiftOneDisjoint(n - 1, 31);
      ShiftOneIsShift(31);
      assert x & 0x8000_0000 == 0;
      assert SingleBit(x << 1);
    }
  }

  /** Every CPort has a single bit of its own in the queue-empty status: no
      two CPorts share both the word and the bit. */
  lemma QueueEmptyPositionUnique(i: nat, j: nat)
    ensures SingleBit(QueueEmptyBit(i))
    ensures QueueEmptyWord(i) == QueueEmptyWord(j) && QueueEmptyBit(i) == QueueEmptyBit(j) ==> i == j
  {
    ShiftOneSingleBit(i % 32);
    if i % 32 != j % 32 {
      ShiftOneSingleBit(j % 32);
      ShiftOneDisjoint(i % 32, j % 32);
    }
  }

  lemma EomNomBitShape(i: nat)
    requires i < 16
    ensures SingleBit(EomNomBit(i)) && EomErrBit(i) == EomNomBit(i) << 1
  {
    ShiftOneSingleBit(2 * i);
  }

  lemma EomNomNotErr(i: nat, j: nat)
    requires i < 16 && j < 16
    ensures EomNomBit(i) & EomErrBit(j) == 0
  {
    ShiftOneDisjoint(2 * i, 2 * j + 1);
  }

  lemma EomNomBitsDistinct(i: nat, j: nat)
    requires i < 16 && j < 16 && i != j
    ensures EomNomBit(i) & EomNomBit(j) == 0
  {
    ShiftOneDisjoint(2 * i, 2 * j);
  }

  lemma EomErrBitsDistinct(i: nat, j: nat)
    requires i < 16 && j < 16 && i != j
    ensures EomErrBit(i) & EomErrBit(j) == 0
  {
    ShiftOneDisjoint(2 * i + 1, 2 * j + 1);
  }

  /** The end-of-message status word gives every CPort two bits of its own,
      the error bit just above the normal bit: no CPort's normal bit is
      another CPort's normal bit or anyone's error bit. Writing EomNomBit(id)
      to the write-one-to-clear register clears CPort `id`'s normal bit and
      no other status bit. */
  lemma EomBitsDisjoint(i: nat, j: nat)
    requires i < 16 && j < 16
    ensures SingleBit(EomNomBit(i)) && EomErrBit(i) == EomNomBit(i) << 1
    ensures EomNomBit(i) & EomErrBit(j) == 0
    ensures i != j ==> EomNomBit(i) & EomNomBit(j) == 0 && EomErrBit(i) & EomErrBit(j) == 0
  {
    EomNomBitShape(i);
    EomNomNotErr(i, j);
    if i != j {
      EomNomBitsDistinct(i, j);
      EomErrBitsDistinct(i, j);
    }
  }

  /** Distinct CPorts have distinct end-of-transfer bits. */
  lemma EotBitsDisjoint(i: nat, j: nat)
    requires i < 32 && j < 32 && i != j
    ensures SingleBit(EotBit(i)) && EotBit(i) & EotBit(j) == 0
  {
    ShiftOneSingleBit(i);
    ShiftOneDisjoint(i, j);
  }
}

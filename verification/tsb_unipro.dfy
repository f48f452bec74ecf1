/** The TSB UniPro CPort engine: the statically allocated CPort table, the
    register file as the engine writes it, and the engine's operations.

    A Chip holds the CPort table, the map of registers the engine has
    written, the trace of every access it has made, and the two feeds that
    answer its register reads and attribute accesses. Every operation is
    proved to append exactly the events of its specification function in
    ResetSpec or EngineSpec and to consume the feeds as that function says. */
module TsbUnipro {

  import opened Wrappers
  import opened Registers
  import opened Effects
  import opened ResetSpec
  import opened EngineSpec

  /** Entries of `cporttable`: DECLARE_CPORT(0) .. DECLARE_CPORT(3). */
  const TableSize: nat := 4

  /** One entry of the CPort table: its id, its transmit and receive buffers
      in buffer RAM, and the bus address of the receive buffer (the value of
      `(uint32_t)cport->rx_buf`). */
  class CPort {
    const cportid: nat
    const txBuf: array<bv8>
    const rxBuf: array<bv8>
    const rxAddr: bv32

    constructor(id: nat, bufSize: nat, addr: bv32)
      ensures cportid == id && rxAddr == addr
      ensures fresh(txBuf) && fresh(rxBuf) && txBuf != rxBuf
      ensures txBuf.Length == bufSize && rxBuf.Length == bufSize
    {
      cportid := id;
      txBuf := new bv8[bufSize];
      rxBuf := new bv8[bufSize];
      rxAddr := addr;
    }
  }

  class Chip {
    const cportMax: nat       // CPORT_MAX
    const bufSize: nat        // CPORT_BUF_SIZE
    const rxPauseSize: bv32   // RX_PAUSE_RESTART | CPORT_RX_BUF_SIZE
    const linkUp: bv32        // POWERSTATE_LINKUP
    const table: seq<CPort>   // cporttable

    /** Every access the engine has made, in order. */
    var trace: seq<Event>
    /** The values the next register reads return. */
    var hw: seq<bv32>
    /** The outcomes of the next attribute accesses. */
    var attrs: seq<AttrOutcome>

    /** The CPort table as DECLARE_CPORT lays it out. Every field it reads is
        a constant, so no operation can falsify it. */
    ghost predicate Valid()
    {
      && |table| == TableSize && cportMax <= TableSize
      && (forall i :: 0 <= i < TableSize ==>
            table[i].cportid == i && table[i].txBuf.Length == bufSize && table[i].rxBuf.Length == bufSize)
      && (forall i, j :: 0 <= i < TableSize && 0 <= j < TableSize && i != j ==> table[i].txBuf != table[j].txBuf)
      && (forall i, j :: 0 <= i < TableSize && 0 <= j < TableSize && i != j ==> table[i].rxBuf != table[j].rxBuf)
      && (forall i, j :: 0 <= i < TableSize && 0 <= j < TableSize ==> table[i].txBuf != table[j].rxBuf)
    }

    /** The register file as the engine has written it: the last value
        written to each register. */
    ghost function Registers(): map<Reg, bv32>
      reads this
    {
      ApplyWrites(map[], trace)
    }

    /** A chip whose register reads will return `hw` and whose attribute
        accesses will report `attrs`. CPORT_MAX may not exceed the table
        size, which the source checks at compile time. */
    constructor(cportMax: nat, bufSize: nat, rxPauseSize: bv32, linkUp: bv32,
                rxAddrs: seq<bv32>, hw: seq<bv32>, attrs: seq<AttrOutcome>)
      requires cportMax <= TableSize
      requires |rxAddrs| == TableSize
      ensures Valid()
      ensures this.cportMax == cportMax && this.bufSize == bufSize
      ensures this.rxPauseSize == rxPauseSize && this.linkUp == linkUp
      ensures forall i :: 0 <= i < TableSize ==> table[i].rxAddr == rxAddrs[i]
      ensures trace == [] && this.hw == hw && this.attrs == attrs
    {
      this.cportMax := cportMax;
      this.bufSize := bufSize;
      this.rxPauseSize := rxPauseSize;
      this.linkUp := linkUp;
      var c0 := new CPort(0, bufSize, rxAddrs[0]);
      var c1 := new CPort(1, bufSize, rxAddrs[1]);
      var c2 := new CPort(2, bufSize, rxAddrs[2]);
      var c3 := new CPort(3, bufSize, rxAddrs[3]);
      table := [c0, c1, c2, c3];
      trace := [];
      this.hw := hw;
      this.attrs := attrs;
    }

    // ------------------------------------------------------------ primitives

    /** Appends an event to the trace. */
    method Record(e: Event)
      requires Valid()
      modifies this`trace
      ensures Valid() && trace == old(trace) + [e]
    {
      trace := trace + [e];
    }

    /** tsb_unipro_read / getreg32: the value comes from the read feed. */
    method ReadReg(r: Reg) returns (v: bv32)
      requires Valid()
      modifies this`trace, this`hw
      ensures Valid()
      ensures v == NextValue(old(hw)) && hw == Rest(old(hw))
      ensures trace == old(trace) + [RegRead(r, v)]
    {
      v := NextValue(hw);
      hw := Rest(hw);
      Record(RegRead(r, v));
    }

    /** tsb_unipro_write / putreg32. */
    method WriteReg(r: Reg, v: bv32)
      requires Valid()
      modifies this`trace
      ensures Valid()
      ensures trace == old(trace) + [RegWrite(r, v)]
    {
      Record(RegWrite(r, v));
    }

    /** putreg8 to a trigger register. */
    method WriteByte(r: Reg, b: bv8)
      requires Valid()
      modifies this`trace
      ensures Valid() && trace == old(trace) + [ByteWrite(r, b)]
    {
      Record(ByteWrite(r, b));
    }

    /** chip_unipro_attr_write: the return code comes from the attribute feed. */
    method WriteAttr(attr: Attr, value: bv32, selector: nat, peer: bool) returns (rc: int)
      requires Valid()
      modifies this`trace, this`attrs
      ensures Valid()
      ensures rc == NextOutcome(old(attrs)).rc && attrs == Rest(old(attrs))
      ensures trace == old(trace) + [AttrWrite(attr, value, selector, peer, rc)]
    {
      rc := NextOutcome(attrs).rc;
      attrs := Rest(attrs);
      Record(AttrWrite(attr, value, selector, peer, rc));
    }

    /** chip_unipro_attr_read: return code and value come from the attribute feed. */
    method ReadAttr(attr: Attr, selector: nat, peer: bool) returns (rc: int, v: bv32)
      requires Valid()
      modifies this`trace, this`attrs
      ensures Valid()
      ensures rc == NextOutcome(old(attrs)).rc && v == NextOutcome(old(attrs)).value
      ensures attrs == Rest(old(attrs))
      ensures trace == old(trace) + [AttrRead(attr, selector, peer, rc, v)]
    {
      var o := NextOutcome(attrs);
      rc, v := o.rc, o.value;
      attrs := Rest(attrs);
      Record(AttrRead(attr, selector, peer, rc, v));
    }

    // ----------------------------------------------------------------- reset

    /** The busy-wait on CPort `cportid`'s queue-empty bit. It returns true
        once a read shows the bit set, and false if the read feed runs out
        first (the source would still be polling). */
    method WaitTxQueueEmpty(cportid: nat) returns (drained: bool)
      requires Valid()
      modifies this`trace, this`hw
      ensures Valid()
      ensures drained == DrainedAt(cportid, old(hw)).Some?
      ensures drained ==> var n := DrainedAt(cportid, old(hw)).value;
        trace == old(trace) + Reads(QueueEmptyWord(cportid), old(hw)[..n + 1]) && hw == old(hw)[n + 1..]
      ensures !drained ==> trace == old(trace) + Reads(QueueEmptyWord(cportid), old(hw)) && hw == []
    {
      var word := QueueEmptyWord(cportid);
      var bit := QueueEmptyBit(cportid);
      ghost var polled: nat := 0;
      while true
        invariant Valid()
        invariant polled <= |old(hw)| && hw == old(hw)[polled..]
        invariant trace == old(trace) + Reads(word, old(hw)[..polled])
        invariant forall j :: 0 <= j < polled ==> !QueueDrained(cportid, old(hw)[j])
        decreases |hw|
      {
        if hw == [] {
          assert old(hw)[..polled] == old(hw);
          return false;
        }
        var v := ReadReg(word);
        assert Reads(word, old(hw)[..polled + 1]) == Reads(word, old(hw)[..polled]) + [RegRead(word, v)];
        polled := polled + 1;
        if BitSet(v, bit) {
          DrainedAtFirst(cportid, old(hw), polled - 1);
          return true;
        }
      }
    }

    /** The four clearing writes of a reset: connection state, local buffer
        space, peer buffer space and credits to send are set to 0 on the
        local entity, stopping at the first write that fails. */
    method ClearConnectionAttrs(cportid: nat) returns (cleared: bool)
      requires Valid()
      modifies this`trace, this`attrs
      ensures Valid()
      ensures cleared == FirstClearFailure(old(attrs)).None?
      ensures var k := ClearsIssued(old(attrs));
        trace == old(trace) + ClearEvents(cportid, old(attrs), k) && attrs == Drop(old(attrs), k)
    {
      ghost var a0 := attrs;
      assert trace == old(trace) + ClearEvents(cportid, a0, 0);
      assert attrs == Drop(a0, 0);

      ClearStep(cportid, a0, 0);
      var rc := WriteAttr(TConnectionState, 0, cportid, AttrLocal);
      AppendAssoc(old(trace), ClearEvents(cportid, a0, 0), [AttrWrite(TConnectionState, 0, cportid, AttrLocal, rc)]);
      if rc != 0 {
        FirstClearFailureAt(a0, 0);
        return false;
      }
      ClearStep(cportid, a0, 1);
      rc := WriteAttr(TLocalBufferSpace, 0, cportid, AttrLocal);
      AppendAssoc(old(trace), ClearEvents(cportid, a0, 1), [AttrWrite(TLocalBufferSpace, 0, cportid, AttrLocal, rc)]);
      if rc != 0 {
        FirstClearFailureAt(a0, 1);
        return false;
      }
      ClearStep(cportid, a0, 2);
      rc := WriteAttr(TPeerBufferSpace, 0, cportid, AttrLocal);
      AppendAssoc(old(trace), ClearEvents(cportid, a0, 2), [AttrWrite(TPeerBufferSpace, 0, cportid, AttrLocal, rc)]);
      if rc != 0 {
        FirstClearFailureAt(a0, 2);
        return false;
      }
      ClearStep(cportid, a0, 3);
      rc := WriteAttr(TCreditsToSend, 0, cportid, AttrLocal);
      AppendAssoc(old(trace), ClearEvents(cportid, a0, 3), [AttrWrite(TCreditsToSend, 0, cportid, AttrLocal, rc)]);
      if rc != 0 {
        FirstClearFailureAt(a0, 3);
        return false;
      }
      NoClearFailure(a0);
      return true;
    }

    /** tsb_unipro_reset_cport. */
    method ResetCport(cportid: nat) returns (exit: Exit)
      requires Valid()
      modifies this`trace, this`hw, this`attrs
      ensures Valid()
      ensures var run := ResetOne(cportid, cportMax, old(hw), old(attrs));
        exit == run.exit && trace == old(trace) + run.events && hw == run.hwLeft && attrs == run.attrsLeft
    {
      if cportid >= cportMax {
        return Returned(-EINVAL);
      }
      ghost var t0, a0 := trace, attrs;
      ghost var h0 := hw;
      var drained := WaitTxQueueEmpty(cportid);
      if !drained {
        return StillPolling;
      }
      ghost var n := DrainedAt(cportid, h0).value;
      ResetOneDrained(cportid, cportMax, h0, a0, n);
      var rc := ResetDrainedCport(cportid);
      AppendAssoc(t0, Reads(QueueEmptyWord(cportid), h0[..n + 1]), DrainedEvents(cportid, a0));
      return Returned(rc);
    }

    /** The part of tsb_unipro_reset_cport after the queue has drained: the
        transmit reset, the four clearing writes, and on success the release
        of both resets. */
    method ResetDrainedCport(cportid: nat) returns (rc: int)
      requires Valid()
      modifies this`trace, this`attrs
      ensures Valid()
      ensures rc == DrainedRc(old(attrs))
      ensures trace == old(trace) + DrainedEvents(cportid, old(attrs))
      ensures attrs == Drop(old(attrs), ClearsIssued(old(attrs)))
    {
      ghost var t0, a0 := trace, attrs;
      var txReset := CportReg(TxSwReset, cportid);
      var rxReset := CportReg(RxSwReset, cportid);

      WriteReg(txReset, CportSwResetBits);
      var cleared := ClearConnectionAttrs(cportid);
      ghost var opening := [RegWrite(TxReset(cportid), CportSwResetBits)];
      ghost var clears := ClearEvents(cportid, a0, ClearsIssued(a0));
      AppendAssoc(t0, opening, clears);
      if !cleared {
        assert opening + clears + [] == opening + clears;
        return -EIO;
      }

      ghost var t2 := trace;
      WriteReg(rxReset, CportSwResetBits);
      WriteReg(txReset, 0);
      WriteReg(rxReset, 0);
      AppendThree(t2, RegWrite(rxReset, CportSwResetBits), RegWrite(txReset, 0), RegWrite(rxReset, 0));
      AppendAssoc(t0, opening + clears, ReleaseEvents(cportid));
      return 0;
    }

    /** tsb_reset_all_cports. */
    method ResetAllCports() returns (exit: Exit)
      requires Valid()
      modifies this`trace, this`hw, this`attrs
      ensures Valid()
      ensures var run := ResetAllFrom(cportMax, 0, old(hw), old(attrs));
        exit == run.exit && trace == old(trace) + run.events && hw == run.hwLeft && attrs == run.attrsLeft
    {
      ResetAllAfterIsFrom(cportMax, 0, trace, hw, attrs);
      ghost var all := ResetAllAfter(cportMax, 0, trace, hw, attrs);
      var i := 0;
      while i < cportMax
        invariant i <= cportMax
        invariant ResetAllAfter(cportMax, i, trace, hw, attrs) == all
      {
        var rc := ResetCport(i);
        if rc != Returned(0) {
          return rc;
        }
        i := i + 1;
      }
      return Returned(0);
    }

    /** tsb_reset_before_jump: resets all CPorts and ignores the result. */
    method ResetBeforeJump()
      requires Valid()
      modifies this`trace, this`hw, this`attrs
      ensures Valid()
      ensures var run := ResetAllFrom(cportMax, 0, old(hw), old(attrs));
        trace == old(trace) + run.events && hw == run.hwLeft && attrs == run.attrsLeft
    {
      var ignored := ResetAllCports();
    }

    // ------------------------------------------------------ re-arm and init

    /** tsb_unipro_restart_rx. */
    method RestartRx(cport: CPort)
      requires Valid()
      modifies this`trace
      ensures Valid()
      ensures trace == old(trace) + RearmEvents(cport.cportid, cport.rxAddr, rxPauseSize)
    {
      var cportid := cport.cportid;
      WriteReg(CportReg(AhmAddress, cportid), cport.rxAddr);
      WriteReg(CportReg(RxPauseSize, cportid), rxPauseSize);
    }

    /** tsb_unipro_init_cport. */
    method InitCport(cportid: nat) returns (rc: int)
      requires Valid()
      modifies this`trace
      ensures Valid()
      ensures cportid >= cportMax ==> rc == -EINVAL && trace == old(trace)
      ensures cportid < cportMax ==>
        rc == 0 && trace == old(trace) + RearmEvents(cportid, table[cportid].rxAddr, rxPauseSize)
    {
      if cportid >= cportMax {
        return -EINVAL;
      }
      var cport := table[cportid];
      RestartRx(cport);
      return 0;
    }

    // ------------------------------------------------------------- handshake

    /** tsb_unipro_recv_cport. `read_mailbox` reports `mbRc` and the value
        `mbValue`; `ack_mailbox` reports `ackRc`. `cportidIn` is the caller's
        variable behind `*cportid` before the call, `cportidOut` after it. */
    method RecvCport(cportidIn: nat, mbRc: int, mbValue: bv32, ackRc: int) returns (rc: int, cportidOut: nat)
      requires Valid()
      modifies this`trace
      ensures Valid()
      ensures mbRc != 0 ==>
        rc == mbRc && cportidOut == cportidIn && trace == old(trace) + [MailboxRead(mbRc, mbValue)]
      ensures mbRc == 0 ==> cportidOut == MailboxCport(mbValue)
      ensures mbRc == 0 && DecodeAssignment(mbValue, cportMax).None? ==>
        rc == -EINVAL && trace == old(trace) + [MailboxRead(mbRc, mbValue)]
      ensures mbRc == 0 && DecodeAssignment(mbValue, cportMax).Some? ==>
        rc == ackRc && trace == old(trace) + [MailboxRead(mbRc, mbValue), MailboxAck(mbValue as int, ackRc)]
    {
      Record(MailboxRead(mbRc, mbValue));
      if mbRc != 0 {
        return mbRc, cportidIn;
      }
      var cportRecv := MailboxCport(mbValue);
      cportidOut := cportRecv;
      if cportRecv >= cportMax {
        return -EINVAL, cportidOut;
      }
      AckEchoesMailboxValue(mbValue, cportMax);
      Record(MailboxAck(AckValue(cportRecv), ackRc));
      rc := ackRc;
    }

    // -------------------------------------------------------------- transmit

    /** chip_unipro_send: copies `len` bytes of `data` into the CPort's
        transmit buffer and hits its end-of-message trigger. */
    method Send(cportid: nat, data: seq<bv8>, len: nat) returns (rc: int)
      requires Valid()
      requires cportid < cportMax && len <= bufSize ==> len <= |data|
      modifies this`trace, if cportid < cportMax && len <= bufSize then {table[cportid].txBuf} else {}
      ensures Valid()
      ensures cportid >= cportMax || len > bufSize ==> rc == -1 && trace == old(trace)
      ensures cportid < TableSize && (cportid >= cportMax || len > bufSize) ==>
        table[cportid].txBuf[..] == old(table[cportid].txBuf[..])
      ensures cportid < cportMax && len <= bufSize ==>
        && rc == 0
        && table[cportid].txBuf[..len] == data[..len]
        && table[cportid].txBuf[len..] == old(table[cportid].txBuf[len..])
        && trace == old(trace) + [ByteWrite(CportReg(EomTrigger, cportid), 1)]
    {
      if cportid >= cportMax || len > bufSize {
        return -1;
      }
      var cport := table[cportid];
      var i := 0;
      while i < len
        invariant i <= len
        invariant forall k :: 0 <= k < i ==> cport.txBuf[k] == data[k]
        invariant forall k :: i <= k < cport.txBuf.Length ==> cport.txBuf[k] == old(cport.txBuf[k])
        modifies cport.txBuf
      {
        cport.txBuf[i] := data[i];
        i := i + 1;
      }
      WriteByte(CportReg(EomTrigger, cportid), 1);
      return 0;
    }

    // --------------------------------------------------------------- receive

    /** The frame path of chip_unipro_receive: reads the received size,
        clears the CPort's end-of-message bit, calls the handler if there is
        one, and re-arms the receive buffer. */
    method DeliverFrame(cportid: nat, handler: Option<Handler>) returns (rc: int)
      requires Valid() && cportid < cportMax
      modifies this`trace, this`hw
      ensures Valid()
      ensures var c := table[cportid];
        var n := NextValue(old(hw));
        && rc == DispatchRc(handler, cportid, c.rxBuf[..], n) && hw == Rest(old(hw))
        && trace == FrameAfter(cportid, handler, old(trace), c.rxBuf[..], n, c.rxAddr, rxPauseSize)
    {
      var cport := table[cportid];
      var bytesReceived := ReadReg(CportReg(RxTransferredSize, cportid));
      WriteReg(EomStatusReg, EomNomBit(cportid));
      rc := 0;
      if handler.Some? {
        rc := handler.value(cportid, cport.rxBuf[..], bytesReceived);
        Record(HandlerCall(cportid, bytesReceived, rc));
      }
      RestartRx(cport);
    }

    /** chip_unipro_receive. Returns StillPolling when a blocking receive
        exhausts the read feed without an error, an overflow or a frame. */
    method Receive(cportid: nat, handler: Option<Handler>, blocking: bool) returns (exit: Exit)
      requires Valid()
      modifies this`trace, this`hw
      ensures Valid()
      ensures cportid >= cportMax ==> exit == Returned(-1) && trace == old(trace) && hw == old(hw)
      ensures cportid < cportMax ==>
        var c := table[cportid];
        var run := RxPolls(cportid, handler, blocking, old(hw), c.rxBuf[..], c.rxAddr, rxPauseSize);
        exit == run.exit && trace == old(trace) + run.events && hw == run.hwLeft
    {
      if cportid >= cportMax {
        return Returned(-1);
      }
      var cport := table[cportid];
      ghost var rx := cport.rxBuf[..];
      RxPollsAfterIsPolls(cportid, handler, blocking, trace, hw, rx, cport.rxAddr, rxPauseSize);
      ghost var all := RxPollsAfter(cportid, handler, blocking, trace, hw, rx, cport.rxAddr, rxPauseSize);
      var rc := 0;
      while true
        invariant rc == 0
        invariant RxPollsAfter(cportid, handler, blocking, trace, hw, rx, cport.rxAddr, rxPauseSize) == all
        decreases |hw|
      {
        if blocking && hw == [] {
          return StillPolling;
        }
        var eom := ReadReg(EomStatusReg);
        var eot := ReadReg(EotStatusReg);

        var eomNomBit := EomNomBit(cportid);
        var eomErrBit := EomErrBit(cportid);
        var eotBit := EotBit(cportid);

        if BitSet(eom, eomErrBit) {
          return Returned(-1);
        }
        if BitSet(eot, eotBit) {
          return Returned(-1);
        }
        if BitSet(eom, eomNomBit) {
          rc := DeliverFrame(cportid, handler);
          return Returned(rc);
        }
        if !blocking {
          return Returned(rc);
        }
      }
    }

    // ------------------------------------------------------------- readiness

    /** tsb_disable_all_e2efc. */
    method DisableAllE2efc()
      requires Valid()
      modifies this`trace
      ensures Valid() && trace == old(trace) + E2efcOffEvents()
      ensures Registers() == ApplyWrites(old(Registers()), E2efcOffEvents())
      ensures E2efcEn0Reg in Registers() && Registers()[E2efcEn0Reg] == 0
      ensures E2efcEn1Reg in Registers() && Registers()[E2efcEn1Reg] == 0
    {
      WriteReg(E2efcEn0Reg, 0);
      WriteReg(E2efcEn1Reg, 0);
      ApplyWritesAppend(map[], old(trace), E2efcOffEvents());
      E2efcOffClearsBothWords(old(Registers()), E2efcEn0Reg);
    }

    /** tsb_reset_before_ready: only the flow-control disable. */
    method ResetBeforeReady()
      requires Valid()
      modifies this`trace
      ensures Valid() && trace == old(trace) + E2efcOffEvents()
      ensures Registers() == ApplyWrites(old(Registers()), E2efcOffEvents())
      ensures E2efcEn0Reg in Registers() && Registers()[E2efcEn0Reg] == 0
      ensures E2efcEn1Reg in Registers() && Registers()[E2efcEn1Reg] == 0
    {
      DisableAllE2efc();
    }

    /** chip_wait_for_link_up. Returns true when an attribute read fails or
        reports link-up, and false if the attribute feed runs out first (the
        source would still be polling). */
    method WaitForLinkUp() returns (done: bool)
      requires Valid()
      modifies this`trace, this`attrs
      ensures Valid()
      ensures done == LinkUpAt(old(attrs), linkUp).Some?
      ensures done ==> var n := LinkUpAt(old(attrs), linkUp).value;
        trace == old(trace) + PowerStateReads(old(attrs)[..n + 1]) && attrs == old(attrs)[n + 1..]
      ensures !done ==> trace == old(trace) + PowerStateReads(old(attrs)) && attrs == []
    {
      ghost var polled: nat := 0;
      while true
        invariant Valid()
        invariant polled <= |old(attrs)| && attrs == old(attrs)[polled..]
        invariant trace == old(trace) + PowerStateReads(old(attrs)[..polled])
        invariant forall j :: 0 <= j < polled ==> old(attrs)[j].rc == 0 && old(attrs)[j].value != linkUp
        decreases |attrs|
      {
        if attrs == [] {
          assert old(attrs)[..polled] == old(attrs);
          return false;
        }
        var rc, tempval := ReadAttr(TsbPowerState, 0, AttrLocal);
        assert PowerStateReads(old(attrs)[..polled + 1])
            == PowerStateReads(old(attrs)[..polled]) + [AttrRead(TsbPowerState, 0, AttrLocal, rc, tempval)];
        polled := polled + 1;
        if !(rc == 0 && tempval != linkUp) {
          LinkUpExitCondition(old(attrs), linkUp, polled - 1);
          return true;
        }
      }
    }
  }
}

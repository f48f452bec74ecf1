/** The receive path, the link-up wait and the mailbox assignment handshake,
    as functions from the hardware's answers to the events they cause. */
module EngineSpec {

  import opened Wrappers
  import opened Registers
  import opened Effects

  // ---------------------------------------------------------------- re-arm

  /** Re-arming CPort `id`'s receive path: its buffer address, then the
      restart flag with the buffer size (RX_PAUSE_RESTART | CPORT_RX_BUF_SIZE). */
  function RearmEvents(id: nat, rxAddr: bv32, pauseSize: bv32): seq<Event>
  {
    [RegWrite(CportReg(AhmAddress, id), rxAddr), RegWrite(CportReg(RxPauseSize, id), pauseSize)]
  }

  // ------------------------------------------------- end-to-end flow control

  const E2efcEn0Reg: Reg := Reg(RxE2efcEn0, 0)
  const E2efcEn1Reg: Reg := Reg(RxE2efcEn1, 0)

  /** Disabling end-to-end flow control on every CPort: both enable words
      cleared, in that order. */
  function E2efcOffEvents(): seq<Event>
  {
    [RegWrite(E2efcEn0Reg, 0), RegWrite(E2efcEn1Reg, 0)]
  }

  /** After the flow-control disable both enable words read back 0 and
      every other register keeps its value. */
  lemma E2efcOffClearsBothWords(m: map<Reg, bv32>, r: Reg)
    ensures var m' := ApplyWrites(m, E2efcOffEvents());
      && E2efcEn0Reg in m' && m'[E2efcEn0Reg] == 0
      && E2efcEn1Reg in m' && m'[E2efcEn1Reg] == 0
      && (r != E2efcEn0Reg && r != E2efcEn1Reg ==> (r in m' <==> r in m) && (r in m ==> m'[r] == m[r]))
  {
    var es := E2efcOffEvents();
    assert es[..1][..0] == [];
    assert ApplyWrites(m, es[..1]) == m[E2efcEn0Reg := 0];
    assert ApplyWrites(m, es) == m[E2efcEn0Reg := 0][E2efcEn1Reg := 0];
  }

  // --------------------------------------------------------------- receive

  /** What one poll of the end-of-message and end-of-transfer words says
      about a CPort. */
  datatype Verdict = RxError | Overflow | Frame | Idle

  /** The classification of one poll, with its priority: the error bit wins
      over the overflow bit, which wins over the normal end-of-message bit. */
  function Classify(id: nat, eom: bv32, eot: bv32): (v: Verdict)
    requires id < 16
    ensures v == RxError <==> BitSet(eom, EomErrBit(id))
    ensures v == Overflow <==> !BitSet(eom, EomErrBit(id)) && BitSet(eot, EotBit(id))
    ensures v == Frame <==> !BitSet(eom, EomErrBit(id)) && !BitSet(eot, EotBit(id)) && BitSet(eom, EomNomBit(id))
    ensures v == Idle <==> !BitSet(eom, EomErrBit(id)) && !BitSet(eot, EotBit(id)) && !BitSet(eom, EomNomBit(id))
  {
    if BitSet(eom, EomErrBit(id)) then RxError
    else if BitSet(eot, EotBit(id)) then Overflow
    else if BitSet(eom, EomNomBit(id)) then Frame
    else Idle
  }

  /** The result of dispatching a frame of `n` bytes: the handler's return
      code, or 0 without a handler. */
  function DispatchRc(handler: Option<Handler>, id: nat, rx: seq<bv8>, n: bv32): int
  {
    if handler.Some? then handler.value(id, rx, n) else 0
  }

  /** The events of a completed frame of `n` bytes: read the byte count,
      clear the CPort's normal end-of-message bit (write one to clear),
      call the handler if there is one, re-arm. */
  function FrameEvents(id: nat, handler: Option<Handler>, rx: seq<bv8>, n: bv32,
                       rxAddr: bv32, pauseSize: bv32): seq<Event>
    requires id < 16
  {
    [RegRead(CportReg(RxTransferredSize, id), n), RegWrite(EomStatusReg, EomNomBit(id))]
    + (if handler.Some? then [HandlerCall(id, n, DispatchRc(handler, id, rx, n))] else [])
    + RearmEvents(id, rxAddr, pauseSize)
  }

  /** `verdict` is the classification of the last poll (Idle when none was
      made). */
  datatype RxRun = RxRun(exit: Exit, events: seq<Event>, hwLeft: seq<bv32>, verdict: Verdict)

  /** The receive loop for a known CPort `id`: each poll reads the
      end-of-message word and then the end-of-transfer word; a non-blocking
      receive polls exactly once. */
  function RxPolls(id: nat, handler: Option<Handler>, blocking: bool, hw: seq<bv32>,
                   rx: seq<bv8>, rxAddr: bv32, pauseSize: bv32): RxRun
    requires id < 16
    decreases |hw|
  {
    if blocking && hw == [] then RxRun(StillPolling, [], [], Idle)
    else
      var eom := NextValue(hw);
      var eot := NextValue(Rest(hw));
      var after := Rest(Rest(hw));
      var polled := [RegRead(EomStatusReg, eom), RegRead(EotStatusReg, eot)];
      match Classify(id, eom, eot)
      case RxError => RxRun(Returned(-1), polled, after, RxError)
      case Overflow => RxRun(Returned(-1), polled, after, Overflow)
      case Frame =>
        var n := NextValue(after);
        RxRun(Returned(DispatchRc(handler, id, rx, n)),
              polled + FrameEvents(id, handler, rx, n, rxAddr, pauseSize), Rest(after), Frame)
      case Idle =>
        if !blocking then RxRun(Returned(0), polled, after, Idle)
        else
          var more := RxPolls(id, handler, blocking, after, rx, rxAddr, pauseSize);
          RxRun(more.exit, polled + more.events, more.hwLeft, more.verdict)
  }

  /** Reads of the two status words, nothing else. */
  ghost predicate StatusReadsOnly(es: seq<Event>)
  {
    forall i :: 0 <= i < |es| ==> es[i].RegRead? && es[i].reg in {EomStatusReg, EotStatusReg}
  }

  lemma StatusReadsAppend(a: seq<Event>, b: seq<Event>)
    requires StatusReadsOnly(a) && StatusReadsOnly(b)
    ensures StatusReadsOnly(a + b)
  {
    forall i | 0 <= i < |a + b|
      ensures (a + b)[i].RegRead? && (a + b)[i].reg in {EomStatusReg, EotStatusReg}
    {
      if i >= |a| {
        assert (a + b)[i] == b[i - |a|];
      }
    }
  }

  /** FrameEvents appended to `trace` one access at a time. */
  function FrameAfter(id: nat, handler: Option<Handler>, trace: seq<Event>, rx: seq<bv8>, n: bv32,
                      rxAddr: bv32, pauseSize: bv32): seq<Event>
    requires id < 16
  {
    var cleared := trace + [RegRead(CportReg(RxTransferredSize, id), n)] + [RegWrite(EomStatusReg, EomNomBit(id))];
    var dispatched := if handler.Some? then cleared + [HandlerCall(id, n, DispatchRc(handler, id, rx, n))] else cleared;
    dispatched + RearmEvents(id, rxAddr, pauseSize)
  }

  /** RxPolls with the trace so far carried along: each access is appended
      to `trace` as it is made. */
  function RxPollsAfter(id: nat, handler: Option<Handler>, blocking: bool, trace: seq<Event>,
                        hw: seq<bv32>, rx: seq<bv8>, rxAddr: bv32, pauseSize: bv32): RxRun
    requires id < 16
    decreases |hw|
  {
    if blocking && hw == [] then RxRun(StillPolling, trace, [], Idle)
    else
      var eom := NextValue(hw);
      var eot := NextValue(Rest(hw));
      var after := Rest(Rest(hw));
      var polled := trace + [RegRead(EomStatusReg, eom)] + [RegRead(EotStatusReg, eot)];
      match Classify(id, eom, eot)
      case RxError => RxRun(Returned(-1), polled, after, RxError)
      case Overflow => RxRun(Returned(-1), polled, after, Overflow)
      case Frame =>
        var n := NextValue(after);
        RxRun(Returned(DispatchRc(handler, id, rx, n)), FrameAfter(id, handler, polled, rx, n, rxAddr, pauseSize),
              Rest(after), Frame)
      case Idle =>
        if !blocking then RxRun(Returned(0), polled, after, Idle)
        else RxPollsAfter(id, handler, blocking, polled, after, rx, rxAddr, pauseSize)
  }

  lemma {:induction false} RxPollsAfterIsPolls(id: nat, handler: Option<Handler>, blocking: bool, trace: seq<Event>,
                                               hw: seq<bv32>, rx: seq<bv8>, rxAddr: bv32, pauseSize: bv32)
    requires id < 16
    ensures var run := RxPolls(id, handler, blocking, hw, rx, rxAddr, pauseSize);
      RxPollsAfter(id, handler, blocking, trace, hw, rx, rxAddr, pauseSize) == run.(events := trace + run.events)
    decreases |hw|
  {
    if !(blocking && hw == []) {
      var eom := NextValue(hw);
      var eot := NextValue(Rest(hw));
      var after := Rest(Rest(hw));
      var polled := [RegRead(EomStatusReg, eom), RegRead(EotStatusReg, eot)];
      assert trace + [RegRead(EomStatusReg, eom)] + [RegRead(EotStatusReg, eot)] == trace + polled;
      match Classify(id, eom, eot)
      case RxError =>
      case Overflow =>
      case Frame =>
        var n := NextValue(after);
        var rc := DispatchRc(handler, id, rx, n);
        var fr := FrameEvents(id, handler, rx, n, rxAddr, pauseSize);
        var cleared := trace + polled + [RegRead(CportReg(RxTransferredSize, id), n)] + [RegWrite(EomStatusReg, EomNomBit(id))];
        var dispatched := if handler.Some? then cleared + [HandlerCall(id, n, rc)] else cleared;
        assert FrameAfter(id, handler, trace + polled, rx, n, rxAddr, pauseSize) == dispatched + RearmEvents(id, rxAddr, pauseSize);
        assert dispatched + RearmEvents(id, rxAddr, pauseSize) == trace + (polled + fr);
      case Idle =>
        if blocking {
          var more := RxPolls(id, handler, blocking, after, rx, rxAddr, pauseSize);
          RxPollsAfterIsPolls(id, handler, blocking, trace + polled, after, rx, rxAddr, pauseSize);
          AppendAssoc(trace, polled, more.events);
        }
    }
  }

  /** Unless a frame completes, a receive only reads the two status words:
      no register write, no handler call, no re-arm. An error or an
      overflow fails with -1; a non-blocking poll that finds nothing
      returns 0 after a single poll; a blocking receive returns only on an
      error, an overflow or a frame. */
  lemma {:induction false} RxNoEffectsUnlessFrame(id: nat, handler: Option<Handler>, blocking: bool,
                                                  hw: seq<bv32>, rx: seq<bv8>, rxAddr: bv32, pauseSize: bv32)
    requires id < 16
    ensures var run := RxPolls(id, handler, blocking, hw, rx, rxAddr, pauseSize);
      && (run.verdict != Frame ==> StatusReadsOnly(run.events))
      && (run.verdict in {RxError, Overflow} ==> run.exit == Returned(-1))
      && (run.verdict == Idle && !blocking ==> run.exit == Returned(0) && |run.events| == 2)
      && (run.verdict == Idle && blocking ==> run.exit == StillPolling)
      && (run.exit == StillPolling ==> blocking && run.verdict == Idle)
    decreases |hw|
  {
    var run := RxPolls(id, handler, blocking, hw, rx, rxAddr, pauseSize);
    if !(blocking && hw == []) {
      var eom := NextValue(hw);
      var eot := NextValue(Rest(hw));
      var after := Rest(Rest(hw));
      var polled := [RegRead(EomStatusReg, eom), RegRead(EotStatusReg, eot)];
      if Classify(id, eom, eot) == Idle && blocking {
        var more := RxPolls(id, handler, blocking, after, rx, rxAddr, pauseSize);
        RxNoEffectsUnlessFrame(id, handler, blocking, after, rx, rxAddr, pauseSize);
        assert run.events == polled + more.events;
        if more.verdict != Frame {
          StatusReadsAppend(polled, more.events);
        }
      }
    }
  }

  /** When a frame completes, the receive has polled the status words, then
      read the byte count n, cleared exactly the CPort's normal
      end-of-message bit, called the handler with (id, buffer, n) if there
      is one, and re-armed with the CPort's own buffer address; it returns
      the handler's result, or 0 without a handler. */
  lemma {:induction false} RxFrameDispatch(id: nat, handler: Option<Handler>, blocking: bool,
                                           hw: seq<bv32>, rx: seq<bv8>, rxAddr: bv32, pauseSize: bv32)
    requires id < 16
    requires RxPolls(id, handler, blocking, hw, rx, rxAddr, pauseSize).verdict == Frame
    ensures var run := RxPolls(id, handler, blocking, hw, rx, rxAddr, pauseSize);
      exists k: nat, n: bv32 :: k <= |run.events|
        && StatusReadsOnly(run.events[..k])
        && run.events[k..] == FrameEvents(id, handler, rx, n, rxAddr, pauseSize)
        && run.exit == Returned(DispatchRc(handler, id, rx, n))
    decreases |hw|
  {
    var run := RxPolls(id, handler, blocking, hw, rx, rxAddr, pauseSize);
    var eom := NextValue(hw);
    var eot := NextValue(Rest(hw));
    var after := Rest(Rest(hw));
    var polled := [RegRead(EomStatusReg, eom), RegRead(EotStatusReg, eot)];
    if Classify(id, eom, eot) == Frame {
      var n := NextValue(after);
      assert run.events[..2] == polled;
      assert run.events[2..] == FrameEvents(id, handler, rx, n, rxAddr, pauseSize);
    } else {
      var more := RxPolls(id, handler, blocking, after, rx, rxAddr, pauseSize);
      RxFrameDispatch(id, handler, blocking, after, rx, rxAddr, pauseSize);
      var k: nat, n: bv32 :| k <= |more.events|
        && StatusReadsOnly(more.events[..k])
        && more.events[k..] == FrameEvents(id, handler, rx, n, rxAddr, pauseSize)
        && more.exit == Returned(DispatchRc(handler, id, rx, n));
      assert run.events == polled + more.events;
      SliceAppend(polled, more.events, k);
      StatusReadsAppend(polled, more.events[..k]);
      assert k + 2 <= |run.events| && StatusReadsOnly(run.events[..k + 2])
        && run.events[k + 2..] == FrameEvents(id, handler, rx, n, rxAddr, pauseSize)
        && run.exit == Returned(DispatchRc(handler, id, rx, n));
    }
  }

  /** Whole polls, each a read of the end-of-message word then of the
      end-of-transfer word, that all classify as Idle for CPort `id`. */
  ghost predicate IdlePolls(id: nat, es: seq<Event>)
    requires id < 16
    decreases |es|
  {
    es == []
    || (&& |es| >= 2
        && es[0].RegRead? && es[0].reg == EomStatusReg
        && es[1].RegRead? && es[1].reg == EotStatusReg
        && Classify(id, es[0].value, es[1].value) == Idle
        && IdlePolls(id, es[2..]))
  }

  /** The run's poll at `k` is its last one and decides it: every earlier
      poll was Idle, the verdict is the classification of the two words read
      at `k`, and after them comes nothing, or, on a frame, exactly the frame
      events for the byte count read next, with the dispatch result. */
  ghost predicate DecidedAt(id: nat, handler: Option<Handler>, rx: seq<bv8>, rxAddr: bv32, pauseSize: bv32,
                            run: RxRun, k: nat)
    requires id < 16
  {
    && k + 2 <= |run.events|
    && IdlePolls(id, run.events[..k])
    && run.events[k].RegRead? && run.events[k].reg == EomStatusReg
    && run.events[k + 1].RegRead? && run.events[k + 1].reg == EotStatusReg
    && run.verdict == Classify(id, run.events[k].value, run.events[k + 1].value)
    && (run.verdict != Frame ==> |run.events| == k + 2)
    && (run.verdict == Frame ==>
          && k + 3 <= |run.events| && run.events[k + 2].RegRead?
          && run.events[k + 2..] == FrameEvents(id, handler, rx, run.events[k + 2].value, rxAddr, pauseSize)
          && run.exit == Returned(DispatchRc(handler, id, rx, run.events[k + 2].value)))
  }

  /** Where the deciding poll of a receive starts in its events: two events
      further on for every Idle poll a blocking receive goes past. */
  function LastPoll(id: nat, blocking: bool, hw: seq<bv32>): nat
    requires id < 16
    decreases |hw|
  {
    if blocking && hw == [] then 0
    else if blocking && Classify(id, NextValue(hw), NextValue(Rest(hw))) == Idle then
      2 + LastPoll(id, blocking, Rest(Rest(hw)))
    else 0
  }

  /** An Idle poll in front of a decided run moves its deciding poll by two. */
  lemma DecidedAfterIdlePoll(id: nat, handler: Option<Handler>, rx: seq<bv8>, rxAddr: bv32, pauseSize: bv32,
                             polled: seq<Event>, more: RxRun, run: RxRun, k: nat)
    requires id < 16
    requires |polled| == 2
    requires polled[0].RegRead? && polled[0].reg == EomStatusReg
    requires polled[1].RegRead? && polled[1].reg == EotStatusReg
    requires Classify(id, polled[0].value, polled[1].value) == Idle
    requires run == more.(events := polled + more.events)
    requires DecidedAt(id, handler, rx, rxAddr, pauseSize, more, k)
    ensures DecidedAt(id, handler, rx, rxAddr, pauseSize, run, k + 2)
  {
    var es := run.events;
    assert es[..k + 2][2..] == more.events[..k];
    assert es[k + 2] == more.events[k] && es[k + 3] == more.events[k + 1];
    if run.verdict == Frame {
      assert es[k + 4] == more.events[k + 2];
      assert es[k + 4..] == more.events[k + 2..];
    }
  }

  /** A receive that returns was decided by its last poll: the verdict it
      reports is the classification of the last pair of status words it
      read, every earlier poll was Idle, and only a frame is followed by
      further events: the byte count, the frame's effects and the handler's
      result. */
  lemma {:induction false} RxLastPollDecides(id: nat, handler: Option<Handler>, blocking: bool,
                                             hw: seq<bv32>, rx: seq<bv8>, rxAddr: bv32, pauseSize: bv32)
    requires id < 16
    ensures var run := RxPolls(id, handler, blocking, hw, rx, rxAddr, pauseSize);
      run.exit != StillPolling ==> DecidedAt(id, handler, rx, rxAddr, pauseSize, run, LastPoll(id, blocking, hw))
    decreases |hw|
  {
    if !(blocking && hw == []) {
      var eom := NextValue(hw);
      var eot := NextValue(Rest(hw));
      if blocking && Classify(id, eom, eot) == Idle {
        var after := Rest(Rest(hw));
        RxPollsIdleStep(id, handler, hw, rx, rxAddr, pauseSize);
        RxLastPollDecides(id, handler, blocking, after, rx, rxAddr, pauseSize);
        var more := RxPolls(id, handler, blocking, after, rx, rxAddr, pauseSize);
        if more.exit != StillPolling {
          DecidedAfterIdlePoll(id, handler, rx, rxAddr, pauseSize, [RegRead(EomStatusReg, eom), RegRead(EotStatusReg, eot)],
                               more, RxPolls(id, handler, blocking, hw, rx, rxAddr, pauseSize), LastPoll(id, blocking, after));
        }
      } else {
        DecidedAtFirstPoll(id, handler, blocking, hw, rx, rxAddr, pauseSize);
      }
    }
  }

  /** A blocking receive whose first poll is Idle goes on polling after it. */
  lemma RxPollsIdleStep(id: nat, handler: Option<Handler>, hw: seq<bv32>, rx: seq<bv8>, rxAddr: bv32, pauseSize: bv32)
    requires id < 16 && hw != []
    requires Classify(id, NextValue(hw), NextValue(Rest(hw))) == Idle
    ensures var more := RxPolls(id, handler, true, Rest(Rest(hw)), rx, rxAddr, pauseSize);
      RxPolls(id, handler, true, hw, rx, rxAddr, pauseSize)
        == more.(events := [RegRead(EomStatusReg, NextValue(hw)), RegRead(EotStatusReg, NextValue(Rest(hw)))] + more.events)
    ensures LastPoll(id, true, hw) == 2 + LastPoll(id, true, Rest(Rest(hw)))
  {
  }

  /** A receive whose first poll is not an Idle poll it goes past is
      decided by that poll. */
  lemma DecidedAtFirstPoll(id: nat, handler: Option<Handler>, blocking: bool,
                           hw: seq<bv32>, rx: seq<bv8>, rxAddr: bv32, pauseSize: bv32)
    requires id < 16 && !(blocking && hw == [])
    requires !(blocking && Classify(id, NextValue(hw), NextValue(Rest(hw))) == Idle)
    ensures DecidedAt(id, handler, rx, rxAddr, pauseSize, RxPolls(id, handler, blocking, hw, rx, rxAddr, pauseSize), 0)
  {
    var eom := NextValue(hw);
    var eot := NextValue(Rest(hw));
    var run := RxPolls(id, handler, blocking, hw, rx, rxAddr, pauseSize);
    if Classify(id, eom, eot) == Frame {
      DecidedByFrame(id, handler, rx, rxAddr, pauseSize, run, eom, eot, NextValue(Rest(Rest(hw))));
    } else {
      DecidedByPoll(id, handler, rx, rxAddr, pauseSize, run, eom, eot);
    }
  }

  /** A run made of one poll that is not a frame is decided by it. */
  lemma DecidedByPoll(id: nat, handler: Option<Handler>, rx: seq<bv8>, rxAddr: bv32, pauseSize: bv32,
                      run: RxRun, eom: bv32, eot: bv32)
    requires id < 16 && Classify(id, eom, eot) != Frame
    requires run.events == [RegRead(EomStatusReg, eom), RegRead(EotStatusReg, eot)]
    requires run.verdict == Classify(id, eom, eot)
    ensures DecidedAt(id, handler, rx, rxAddr, pauseSize, run, 0)
  {
    assert run.events[..0] == [];
  }

  /** A run made of one poll that finds a frame, then that frame's events,
      is decided by that poll. */
  lemma DecidedByFrame(id: nat, handler: Option<Handler>, rx: seq<bv8>, rxAddr: bv32, pauseSize: bv32,
                       run: RxRun, eom: bv32, eot: bv32, n: bv32)
    requires id < 16 && Classify(id, eom, eot) == Frame
    requires run.events == [RegRead(EomStatusReg, eom), RegRead(EotStatusReg, eot)]
                           + FrameEvents(id, handler, rx, n, rxAddr, pauseSize)
    requires run.verdict == Frame && run.exit == Returned(DispatchRc(handler, id, rx, n))
    ensures DecidedAt(id, handler, rx, rxAddr, pauseSize, run, 0)
  {
    assert run.events[..0] == [];
    assert run.events[2..] == FrameEvents(id, handler, rx, n, rxAddr, pauseSize);
  }

  // --------------------------------------------------------------- link-up

  /** An attribute read ends the link-up wait when it fails or reports the
      link-up power state. */
  predicate EndsLinkWait(o: AttrOutcome, linkUp: bv32)
  {
    o.rc != 0 || o.value == linkUp
  }

  /** The read that ends the link-up wait. */
  function LinkUpAt(attrs: seq<AttrOutcome>, linkUp: bv32): (r: Option<nat>)
    ensures r.Some? ==> r.value < |attrs| && EndsLinkWait(attrs[r.value], linkUp)
    ensures r.Some? ==> forall i :: 0 <= i < r.value ==> !EndsLinkWait(attrs[i], linkUp)
    ensures r.None? ==> forall i :: 0 <= i < |attrs| ==> !EndsLinkWait(attrs[i], linkUp)
  {
    if attrs == [] then None
    else if EndsLinkWait(attrs[0], linkUp) then Some(0)
    else match LinkUpAt(attrs[1..], linkUp)
      case None => None
      case Some(k) => Some(k + 1)
  }

  /** One read event of the local power state per outcome. */
  function PowerStateReads(os: seq<AttrOutcome>): (es: seq<Event>)
    ensures |es| == |os|
    ensures forall i :: 0 <= i < |os| ==> es[i] == AttrRead(TsbPowerState, 0, AttrLocal, os[i].rc, os[i].value)
  {
    seq(|os|, i requires 0 <= i < |os| => AttrRead(TsbPowerState, 0, AttrLocal, os[i].rc, os[i].value))
  }

  /** The wait ends at read `i` exactly when read `i` fails or reports
      link-up and every earlier read succeeded with another state: a failed
      read ends the wait, it does not keep polling. */
  lemma LinkUpExitCondition(attrs: seq<AttrOutcome>, linkUp: bv32, i: nat)
    ensures LinkUpAt(attrs, linkUp) == Some(i) <==>
      && i < |attrs|
      && (attrs[i].rc != 0 || attrs[i].value == linkUp)
      && forall j :: 0 <= j < i ==> attrs[j].rc == 0 && attrs[j].value != linkUp
  {
  }

  // ------------------------------------------------------------- handshake

  /** The mailbox value decremented in unsigned 32-bit arithmetic
      (`--cport_recv`): the result is reduced modulo 2^32, so value 0 wraps
      to 0xFFFFFFFF. */
  function MailboxCport(value: bv32): (c: nat)
    ensures c < 0x1_0000_0000
    ensures c == (value as int - 1) % 0x1_0000_0000
  {
    if value as int == 0 then 0xFFFF_FFFF else value as int - 1
  }

  /** The CPort a 1-based mailbox value assigns, if it is below cportMax:
      a value of 0 underflows and is rejected like any value above cportMax. */
  function DecodeAssignment(value: bv32, cportMax: nat): (r: Option<nat>)
    requires cportMax <= 0xFFFF_FFFF
    ensures r.Some? <==> 1 <= value as int <= cportMax
    ensures r.Some? ==> r.value + 1 == value as int
  {
    var id := MailboxCport(value);
    if id < cportMax then Some(id) else None
  }

  /** The acknowledgement value `(uint16_t)(cport_recv + 1)`, as a number. */
  function AckValue(cport: nat): (a: nat)
    ensures a < 0x1_0000
  {
    (cport + 1) % 0x1_0000
  }

  /** For any accepted assignment the acknowledgement echoes the value read
      from the mailbox. */
  lemma AckEchoesMailboxValue(value: bv32, cportMax: nat)
    requires cportMax <= 0xFFFF
    requires DecodeAssignment(value, cportMax).Some?
    ensures AckValue(DecodeAssignment(value, cportMax).value) == value as int
  {
  }
}

/** The firmware-over-UniPro data loader: the `cport_connected` flag, the
    connect and disconnect notifications that update it, and the loader's
    init operation that polls the control CPort until the data CPort is
    connected.

    The loader uses the CPort engine only through two calls, which are
    recorded rather than modelled here: the CPort initialisation made on
    connect, and the receive on the control CPort. What a receive does is
    supplied in advance as a feed of steps: the code it returns and whether
    the control CPort handler reported the data CPort connected while it
    ran. A receive beyond the end of the feed returns 0 and connects
    nothing. */
module FwOverUnipro {

  import opened Effects

  /** A call the loader makes into the CPort engine. */
  datatype Call =
    | InitCportCall(cportid: nat)               // chip_unipro_init_cport
    | ReceiveCall(cportid: nat, rc: int)        // chip_unipro_receive, with its return code

  /** One receive on the control CPort: its return code, and whether the
      handler called fwou_cport_connected during it. */
  datatype RxStep = RxStep(rc: int, connects: bool)

  function NextStep(steps: seq<RxStep>): RxStep
  {
    if steps == [] then RxStep(0, false) else steps[0]
  }

  // ---------------------------------------------------------- notifications

  datatype Notified = Notified(rc: int, connected: bool, calls: seq<Call>)

  /** fwou_cport_connected on a loader whose flag is `connected`. */
  function Connect(dataCport: nat, connected: bool): Notified
  {
    if connected then Notified(-1, connected, [])
    else Notified(0, true, [InitCportCall(dataCport)])
  }

  /** fwou_cport_disconnected on a loader whose flag is `connected`. */
  function Disconnect(connected: bool): (r: Notified)
    ensures r.connected == connected && r.calls == []
    ensures r.rc == 0 <==> connected
    ensures r.rc == -1 <==> !connected
  {
    if !connected then Notified(-1, connected, []) else Notified(0, connected, [])
  }

  /** A connect always leaves the flag set. It succeeds exactly when the
      flag was clear, and then initialises the data CPort once; otherwise it
      is refused and initialises nothing. */
  lemma ConnectOutcomes(dataCport: nat, connected: bool)
    ensures var r := Connect(dataCport, connected);
      && r.connected
      && (r.rc == 0 <==> !connected)
      && (r.rc == -1 <==> connected)
      && r.calls == (if connected then [] else [InitCportCall(dataCport)])
  {
  }

  /** Once connected, the loader stays connected: a connect always leaves
      the flag set, a disconnect never clears it, and a second connect is
      refused without initialising the data CPort again. */
  lemma SecondConnectRefused(dataCport: nat, connected: bool)
    ensures var first := Connect(dataCport, connected);
      var second := Connect(dataCport, first.connected);
      && second.rc == -1 && second.calls == [] && second.connected
      && Disconnect(first.connected) == Notified(0, true, [])
  {
  }

  // ------------------------------------------------------------------- init

  datatype InitRun = InitRun(exit: Exit, calls: seq<Call>, connected: bool, stepsLeft: seq<RxStep>)

  /** The receive steps that data_load_unipro_init consumes, carried on top
      of the calls made so far. */
  function InitAfter(dataCport: nat, controlCport: nat, connected: bool, calls: seq<Call>,
                     steps: seq<RxStep>): InitRun
    decreases |steps|
  {
    if connected then InitRun(Returned(0), calls, connected, steps)
    else if steps == [] then InitRun(StillPolling, calls, connected, steps)
    else
      var s := steps[0];
      var n := Connect(dataCport, connected);
      var during := if s.connects then calls + n.calls else calls;
      var now := if s.connects then n.connected else connected;
      var calls' := during + [ReceiveCall(controlCport, s.rc)];
      if s.rc == -1 then InitRun(Returned(-1), calls', now, steps[1..])
      else InitAfter(dataCport, controlCport, now, calls', steps[1..])
  }

  /** The calls made before the loop are kept as they are. */
  lemma {:induction false} InitKeepsEarlierCalls(dataCport: nat, controlCport: nat, connected: bool,
                                                 calls: seq<Call>, steps: seq<RxStep>)
    ensures var run := InitAfter(dataCport, controlCport, connected, calls, steps);
      |calls| <= |run.calls| && run.calls[..|calls|] == calls
    decreases |steps|
  {
    if !connected && steps != [] {
      var s := steps[0];
      var during := if s.connects then calls + [InitCportCall(dataCport)] else calls;
      var calls' := during + [ReceiveCall(controlCport, s.rc)];
      if s.rc != -1 {
        InitKeepsEarlierCalls(dataCport, controlCport, s.connects, calls', steps[1..]);
        var run := InitAfter(dataCport, controlCport, s.connects, calls', steps[1..]);
        assert run.calls[..|calls'|][..|calls|] == run.calls[..|calls|];
      }
    }
  }

  /** If the flag is already set, init returns 0 at once and calls nothing. */
  lemma InitConnectedOnEntry(dataCport: nat, controlCport: nat, calls: seq<Call>, steps: seq<RxStep>)
    ensures InitAfter(dataCport, controlCport, true, calls, steps) == InitRun(Returned(0), calls, true, steps)
  {
  }

  /** Init's outcomes: it returns 0 only once the data CPort is connected;
      it returns -1 only right after a receive that returned -1 (whose
      handler may have connected the data CPort all the same); otherwise it
      is still polling, unconnected, with every step consumed. The flag is
      never cleared, and steps are consumed from the front. */
  lemma {:induction false} InitOutcomes(dataCport: nat, controlCport: nat, connected: bool,
                                        calls: seq<Call>, steps: seq<RxStep>)
    ensures var run := InitAfter(dataCport, controlCport, connected, calls, steps);
      && (run.exit == Returned(0) ==> run.connected)
      && (run.connected && run.exit != Returned(0) ==> run.exit == Returned(-1))
      && (run.exit == Returned(-1) ==>
            && |run.calls| > |calls| && run.calls[|run.calls| - 1] == ReceiveCall(controlCport, -1))
      && (run.exit == StillPolling ==> !run.connected && run.stepsLeft == [])
      && (run.exit in {Returned(0), Returned(-1), StillPolling})
      && (connected ==> run.connected)
      && |run.stepsLeft| <= |steps| && run.stepsLeft == steps[|steps| - |run.stepsLeft|..]
    decreases |steps|
  {
    if !connected && steps != [] {
      var s := steps[0];
      var during := if s.connects then calls + [InitCportCall(dataCport)] else calls;
      var calls' := during + [ReceiveCall(controlCport, s.rc)];
      if s.rc != -1 {
        InitOutcomes(dataCport, controlCport, s.connects, calls', steps[1..]);
        var run := InitAfter(dataCport, controlCport, s.connects, calls', steps[1..]);
        assert steps[1..][|steps[1..]| - |run.stepsLeft|..] == steps[|steps| - |run.stepsLeft|..];
      }
    }
  }

  /** Init stops at the first receive that returns exactly -1: that receive
      is the last call made, and no later step is consumed. Any other code,
      0 or an error, keeps it polling while the flag is clear. */
  lemma InitStopsOnMinusOne(dataCport: nat, controlCport: nat, calls: seq<Call>, steps: seq<RxStep>)
    requires steps != [] && steps[0].rc == -1
    ensures var run := InitAfter(dataCport, controlCport, false, calls, steps);
      && run.exit == Returned(-1) && run.stepsLeft == steps[1..]
      && run.calls[|run.calls| - 1] == ReceiveCall(controlCport, -1)
  {
  }

  lemma InitPollsOnOtherCodes(dataCport: nat, controlCport: nat, calls: seq<Call>, steps: seq<RxStep>)
    requires steps != [] && steps[0].rc != -1 && !steps[0].connects
    ensures InitAfter(dataCport, controlCport, false, calls, steps)
         == InitAfter(dataCport, controlCport, false, calls + [ReceiveCall(controlCport, steps[0].rc)], steps[1..])
  {
  }

  /** The number of times `calls` initialises a CPort. */
  function InitCount(calls: seq<Call>): (k: nat)
    ensures k <= |calls|
  {
    if calls == [] then 0
    else InitCount(calls[..|calls| - 1]) + (if calls[|calls| - 1].InitCportCall? then 1 else 0)
  }

  lemma {:induction false} InitCountAppend(a: seq<Call>, b: seq<Call>)
    ensures InitCount(a + b) == InitCount(a) + InitCount(b)
    decreases |b|
  {
    if b == [] {
      assert a + b == a;
    } else {
      assert (a + b)[..|a + b| - 1] == a + b[..|b| - 1];
      InitCountAppend(a, b[..|b| - 1]);
    }
  }

  /** Init initialises the data CPort at most once: once if it was not yet
      connected and a handler connected it, never otherwise. */
  lemma {:induction false} InitInitialisesAtMostOnce(dataCport: nat, controlCport: nat, connected: bool,
                                                     calls: seq<Call>, steps: seq<RxStep>)
    ensures var run := InitAfter(dataCport, controlCport, connected, calls, steps);
      && InitCount(run.calls) == InitCount(calls) + (if run.connected && !connected then 1 else 0)
    decreases |steps|
  {
    if !connected && steps != [] {
      var s := steps[0];
      var during := if s.connects then calls + [InitCportCall(dataCport)] else calls;
      var calls' := during + [ReceiveCall(controlCport, s.rc)];
      InitCountAppend(during, [ReceiveCall(controlCport, s.rc)]);
      assert InitCount([ReceiveCall(controlCport, s.rc)]) == 0;
      if s.connects {
        InitCountAppend(calls, [InitCportCall(dataCport)]);
        assert InitCount([InitCportCall(dataCport)]) == 1;
      }
      if s.rc != -1 {
        InitInitialisesAtMostOnce(dataCport, controlCport, s.connects, calls', steps[1..]);
        if s.connects {
          InitOutcomes(dataCport, controlCport, s.connects, calls', steps[1..]);
        }
      }
    }
  }

  // ----------------------------------------------------------------- loader

  class DataLoader {
    const dataCport: nat       // FW_OVER_UNIPRO_CPORT
    const controlCport: nat    // CONTROL_CPORT

    /** cport_connected: only ever 0 or 1. */
    var connected: bool
    /** Every call into the CPort engine, in order. */
    var calls: seq<Call>
    /** What the next receives on the control CPort do. */
    var steps: seq<RxStep>

    /** The loader at boot: `cport_connected` starts at 0. */
    constructor(dataCport: nat, controlCport: nat, steps: seq<RxStep>)
      ensures this.dataCport == dataCport && this.controlCport == controlCport
      ensures !connected && calls == [] && this.steps == steps
    {
      this.dataCport := dataCport;
      this.controlCport := controlCport;
      connected := false;
      calls := [];
      this.steps := steps;
    }

    /** fwou_cport_connected. */
    method Connected() returns (rc: int)
      modifies this`connected, this`calls
      ensures var n := Connect(dataCport, old(connected));
        rc == n.rc && connected == n.connected && calls == old(calls) + n.calls
    {
      if connected {
        return -1;
      }
      calls := calls + [InitCportCall(dataCport)];
      connected := true;
      return 0;
    }

    /** fwou_cport_disconnected. */
    method Disconnected() returns (rc: int)
      ensures rc == Disconnect(connected).rc
    {
      if !connected {
        return -1;
      }
      return 0;
    }

    /** chip_unipro_receive on the control CPort: the handler may report the
        data CPort connected while the receive runs. */
    method ReceiveControl() returns (rc: int)
      modifies this`connected, this`calls, this`steps
      ensures var s := NextStep(old(steps));
        var n := Connect(dataCport, old(connected));
        && rc == s.rc
        && connected == (if s.connects then n.connected else old(connected))
        && calls == (if s.connects then old(calls) + n.calls else old(calls)) + [ReceiveCall(controlCport, s.rc)]
        && steps == (if old(steps) == [] then [] else old(steps)[1..])
    {
      var s := NextStep(steps);
      steps := if steps == [] then [] else steps[1..];
      if s.connects {
        var ignored := Connected();
      }
      calls := calls + [ReceiveCall(controlCport, s.rc)];
      rc := s.rc;
    }

    /** data_load_unipro_init. Returns StillPolling when the receive feed
        runs out while the data CPort is still unconnected. */
    method Init() returns (exit: Exit)
      modifies this`connected, this`calls, this`steps
      ensures var run := InitAfter(dataCport, controlCport, old(connected), old(calls), old(steps));
        exit == run.exit && calls == run.calls && connected == run.connected && steps == run.stepsLeft
    {
      ghost var all := InitAfter(dataCport, controlCport, connected, calls, steps);
      while !connected
        invariant InitAfter(dataCport, controlCport, connected, calls, steps) == all
        decreases |steps|
      {
        if steps == [] {
          return StillPolling;
        }
        var rc := ReceiveControl();
        if rc == -1 {
          return Returned(-1);
        }
      }
      return Returned(0);
    }

    /** data_load_unipro_load: a stub that accepts any request. */
    method Load(dest: nat, length: bv32, hash: bool) returns (rc: int)
      ensures rc == 0
    {
      return 0;
    }

    /** data_load_unipro_finish: does nothing. */
    method Finish()
    {
    }
  }
}

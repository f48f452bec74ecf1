/** What the CPort engine does to its environment, and what the environment
    answers.

    Every register access, attribute access, mailbox access and handler
    call is recorded as an Event in an append-only trace. Values that the
    hardware or an external primitive chooses are supplied in advance as a
    feed: the values successive register reads return, the outcomes of
    successive attribute accesses. A read beyond the end of its feed returns
    0 and an attribute access beyond the end of its feed succeeds with value
    0, as the stubbed attribute primitives of the ES1 chip do. */
module Effects {

  import opened Wrappers
  import opened Registers

  /** errno values returned by the engine (Linux numbering). */
  const EINVAL: int := 22
  const EIO: int := 5

  /** The UniPro attributes the engine reads or writes. */
  datatype Attr =
    | TConnectionState    // T_CONNECTIONSTATE
    | TLocalBufferSpace   // T_LOCALBUFFERSPACE
    | TPeerBufferSpace    // T_PEERBUFFERSPACE
    | TCreditsToSend      // T_CREDITSTOSEND
    | TsbPowerState       // TSB_POWERSTATE

  /** ATTR_LOCAL: the access targets the local entity, not the peer. */
  const AttrLocal: bool := false

  /** What the attribute primitive reports for one access: its return code
      and, for a read, the value read. */
  datatype AttrOutcome = AttrOutcome(rc: int, value: bv32)

  /** A receive handler: called with the CPort id, the receive buffer and the
      number of bytes received; its return code is the receive's result. */
  type Handler = (nat, seq<bv8>, bv32) -> int

  datatype Event =
    | RegRead(reg: Reg, value: bv32)                                         // getreg32
    | RegWrite(reg: Reg, value: bv32)                                        // putreg32
    | ByteWrite(reg: Reg, byte: bv8)                                         // putreg8 to a trigger
    | AttrWrite(attr: Attr, value: bv32, selector: nat, peer: bool, rc: int) // chip_unipro_attr_write
    | AttrRead(attr: Attr, selector: nat, peer: bool, rc: int, read: bv32)   // chip_unipro_attr_read
    | MailboxRead(rc: int, received: bv32)                                   // read_mailbox
    | MailboxAck(acked: nat, rc: int)                                        // ack_mailbox (a 16-bit value)
    | HandlerCall(cportid: nat, length: bv32, rc: int)                       // the receive handler

  /** How an operation ends: it returns a code, or it is still busy-waiting
      when the supplied observations run out. */
  datatype Exit = Returned(rc: int) | StillPolling

  function NextValue(hw: seq<bv32>): bv32
  {
    if hw == [] then 0 else hw[0]
  }

  function NextOutcome(attrs: seq<AttrOutcome>): AttrOutcome
  {
    if attrs == [] then AttrOutcome(0, 0) else attrs[0]
  }

  function Rest<T>(s: seq<T>): seq<T>
  {
    if s == [] then [] else s[1..]
  }

  /** The feed after `n` accesses. */
  function Drop<T>(s: seq<T>, n: nat): seq<T>
  {
    if n <= |s| then s[n..] else []
  }

  /** Return code of the `i`-th attribute access from now. */
  function RcAt(attrs: seq<AttrOutcome>, i: nat): int
  {
    if i < |attrs| then attrs[i].rc else 0
  }

  /** Regrouping a trace that was extended piece by piece. */
  lemma AppendAssoc(a: seq<Event>, b: seq<Event>, c: seq<Event>)
    ensures a + b + c == a + (b + c)
  {
  }

  /** Three single events appended one at a time. */
  lemma AppendThree(t: seq<Event>, x: Event, y: Event, z: Event)
    ensures t + [x] + [y] + [z] == t + [x, y, z]
  {
  }

  /** Cutting a concatenation inside its second part. */
  lemma SliceAppend(a: seq<Event>, b: seq<Event>, k: nat)
    requires k <= |b|
    ensures (a + b)[..|a| + k] == a + b[..k]
    ensures (a + b)[|a| + k..] == b[k..]
  {
  }

  /** One read event per value, all of register `r`. */
  function Reads(r: Reg, vs: seq<bv32>): (es: seq<Event>)
    ensures |es| == |vs|
    ensures forall i :: 0 <= i < |vs| ==> es[i] == RegRead(r, vs[i])
  {
    seq(|vs|, i requires 0 <= i < |vs| => RegRead(r, vs[i]))
  }

  /** The register map after the writes among `es`, applied in order. */
  function ApplyWrites(m: map<Reg, bv32>, es: seq<Event>): map<Reg, bv32>
  {
    if es == [] then m
    else
      var m' := ApplyWrites(m, es[..|es| - 1]);
      var e := es[|es| - 1];
      if e.RegWrite? then m'[e.reg := e.value] else m'
  }

  lemma {:induction false} ApplyWritesAppend(m: map<Reg, bv32>, a: seq<Event>, b: seq<Event>)
    ensures ApplyWrites(m, a + b) == ApplyWrites(ApplyWrites(m, a), b)
    decreases |b|
  {
    if b == [] {
      assert a + b == a;
    } else {
      assert (a + b)[..|a + b| - 1] == a + b[..|b| - 1];
      ApplyWritesAppend(m, a, b[..|b| - 1]);
    }
  }

  /** A register that no event of `es` writes keeps its value. */
  lemma {:induction false} ApplyWritesUntouched(m: map<Reg, bv32>, es: seq<Event>, r: Reg)
    requires forall i :: 0 <= i < |es| ==> !(es[i].RegWrite? && es[i].reg == r)
    ensures (r in ApplyWrites(m, es)) == (r in m)
    ensures r in m ==> ApplyWrites(m, es)[r] == m[r]
    decreases |es|
  {
    if es != [] {
      ApplyWritesUntouched(m, es[..|es| - 1], r);
    }
  }

  /** A register holds the value of the last write to it. */
  lemma ApplyWritesLast(m: map<Reg, bv32>, es: seq<Event>, k: nat)
    requires k < |es| && es[k].RegWrite?
    requires forall i :: k < i < |es| ==> !(es[i].RegWrite? && es[i].reg == es[k].reg)
    ensures es[k].reg in ApplyWrites(m, es) && ApplyWrites(m, es)[es[k].reg] == es[k].value
  {
    var r := es[k].reg;
    assert es == es[..k + 1] + es[k + 1..];
    ApplyWritesAppend(m, es[..k + 1], es[k + 1..]);
    assert es[..k + 1][..k] == es[..k];
    ApplyWritesUntouched(ApplyWrites(m, es[..k + 1]), es[k + 1..], r);
  }

  /** The attribute writes among `es`, in order. */
  function AttrWrites(es: seq<Event>): (ws: seq<Event>)
    ensures forall i :: 0 <= i < |ws| ==> ws[i].AttrWrite?
    ensures |ws| <= |es|
  {
    if es == [] then []
    else (if es[0].AttrWrite? then [es[0]] else []) + AttrWrites(es[1..])
  }

  lemma {:induction false} AttrWritesAppend(a: seq<Event>, b: seq<Event>)
    ensures AttrWrites(a + b) == AttrWrites(a) + AttrWrites(b)
  {
    if a == [] {
      assert a + b == b;
    } else {
      assert (a + b)[1..] == a[1..] + b;
      AttrWritesAppend(a[1..], b);
    }
  }

  /** The events that concern CPort `id` in particular: writes to its
      per-CPort registers, reads of its per-CPort registers, attribute writes
      with `id` as selector and handler calls for it. The one attribute read
      of the engine, of the power state, is not about a CPort. */
  predicate Touches(e: Event, id: nat)
  {
    match e
    case RegRead(r, _) => CportOf(r) == Some(id)
    case RegWrite(r, _) => CportOf(r) == Some(id)
    case ByteWrite(r, _) => CportOf(r) == Some(id)
    case AttrWrite(_, _, sel, _, _) => sel == id
    case AttrRead(_, _, _, _, _) => false
    case MailboxRead(_, _) => false
    case MailboxAck(_, _) => false
    case HandlerCall(c, _, _) => c == id
  }
}

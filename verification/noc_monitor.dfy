/** The NoC router's status and interrupt registers (noc_router.h): sticky status bits, cleared by
writing ones, and an interrupt output that must never be stale. */
module NocMonitor {
  import opened Prelude

  const VERSION: nat := 0x0001_0000

  // Bits of STATUS and IRQ_EN.
  const TIMEOUT: nat := 0
  const DECODE_ERR: nat := 1
  const CACHE_EVICT: nat := 2

  /** `initId` is the initiator of the last decode error. */
  datatype Monitor = Monitor(timeoutCfg: nat, status: set<nat>, initId: nat, irqEn: set<nat>, irq: bool)

  function PowerUp(): Monitor {
    Monitor(0xFFFF, {}, 0, {}, false)
  }

  /** The set bits among the low three. */
  function ThreeBits(val: nat): (s: set<nat>)
    ensures s <= {TIMEOUT, DECODE_ERR, CACHE_EVICT}
  {
    (if Flag(val, 1) then {TIMEOUT} else {}) + (if Flag(val, 2) then {DECODE_ERR} else {}) +
      (if Flag(val, 4) then {CACHE_EVICT} else {})
  }

  function PackThree(s: set<nat>): nat {
    One(TIMEOUT in s) + 2 * One(DECODE_ERR in s) + 4 * One(CACHE_EVICT in s)
  }

  /** Recompute the output. */
  function UpdateIrq(m: Monitor): Monitor {
    m.(irq := m.status * m.irqEn != {})
  }

  function WriteMonitor(m: Monitor, addr: nat, val: nat): Monitor {
    if addr == 0x000 then UpdateIrq(m)
    else if addr == 0x008 then m.(timeoutCfg := val % 0x10000)
    else if addr == 0x00C then UpdateIrq(m.(status := m.status - ThreeBits(val)))
    else if addr == 0x010 then UpdateIrq(m.(irqEn := ThreeBits(val)))
    else m
  }

  function ReadMonitor(m: Monitor, addr: nat): nat {
    if addr == 0x008 then m.timeoutCfg
    else if addr == 0x00C then PackThree(m.status) + 16 * m.initId
    else if addr == 0x010 then PackThree(m.irqEn)
    else VERSION
  }

  /** A decode error of initiator `id`. */
  function DecodeFailed(m: Monitor, id: nat): Monitor {
    UpdateIrq(m.(status := m.status + {DECODE_ERR}, initId := id % 16))
  }

  /** A fill replaced a valid line. */
  function Evicted(m: Monitor): Monitor {
    UpdateIrq(m.(status := m.status + {CACHE_EVICT}))
  }

  /** An in-flight request has expired. */
  function TimedOut(m: Monitor): Monitor {
    UpdateIrq(m.(status := m.status + {TIMEOUT}))
  }

  datatype Event = Wrote(addr: nat, val: nat) | Failed(id: nat) | Replaced | Overdue

  function Next(m: Monitor, e: Event): Monitor {
    match e
    case Wrote(addr, val) => WriteMonitor(m, addr, val)
    case Failed(id) => DecodeFailed(m, id)
    case Replaced => Evicted(m)
    case Overdue => TimedOut(m)
  }

  function Run(m: Monitor, es: seq<Event>): Monitor
    decreases |es|
  {
    if es == [] then m else Run(Next(m, es[0]), es[1..])
  }

  /** The output is up exactly while some enabled status bit is set. */
  ghost predicate IrqExact(m: Monitor) {
    && m.irqEn <= {TIMEOUT, DECODE_ERR, CACHE_EVICT}
    && (m.irq <==> exists b :: b in m.status && b in m.irqEn)
  }

  /** The three-term disjunction of the program. */
  predicate AnyEnabled(m: Monitor) {
    || (TIMEOUT in m.irqEn && TIMEOUT in m.status)
    || (DECODE_ERR in m.irqEn && DECODE_ERR in m.status)
    || (CACHE_EVICT in m.irqEn && CACHE_EVICT in m.status)
  }

  lemma AnyEnabledIsOverlap(m: Monitor)
    requires m.irqEn <= {TIMEOUT, DECODE_ERR, CACHE_EVICT}
    ensures AnyEnabled(m) <==> m.status * m.irqEn != {}
  {
    var both := m.status * m.irqEn;
    if both != {} {
      var b :| b in both;
    }
    if AnyEnabled(m) {
      assert TIMEOUT in both || DECODE_ERR in both || CACHE_EVICT in both;
    }
  }

  lemma NextKeepsIrqExact(m: Monitor, e: Event)
    requires IrqExact(m)
    ensures IrqExact(Next(m, e))
  {
    var r := Next(m, e);
    assert forall b :: b in r.status * r.irqEn <==> b in r.status && b in r.irqEn;
  }

  ghost predicate Raises(e: Event, b: nat) {
    (e.Failed? && b == DECODE_ERR) || (e.Replaced? && b == CACHE_EVICT) || (e.Overdue? && b == TIMEOUT)
  }

  ghost predicate Clears(e: Event, b: nat) {
    e.Wrote? && e.addr == 0x00C && b in ThreeBits(e.val)
  }

  /** The last event of the run that raises or clears bit `b`, if any, says whether it is set. */
  ghost predicate Up(was: bool, es: seq<Event>, b: nat)
    decreases |es|
  {
    if es == [] then was
    else
      var last := es[|es| - 1];
      if Raises(last, b) then true else if Clears(last, b) then false else Up(was, es[..|es| - 1], b)
  }

  lemma {:induction false} RunLast(m: Monitor, es: seq<Event>)
    requires es != []
    ensures Run(m, es) == Next(Run(m, es[..|es| - 1]), es[|es| - 1])
    decreases |es|
  {
    hide Next;
    if |es| == 1 {
      assert es[..0] == [] && es[1..] == [];
    } else {
      RunLast(Next(m, es[0]), es[1..]);
      assert es[..|es| - 1][1..] == es[1..][..|es| - 2];
    }
  }

  /** Status bits are sticky: over any run a bit is set exactly if it has been raised, or was set
      to begin with, and has not been cleared since; and the output is never stale. */
  lemma {:induction false} StatusIsSticky(m: Monitor, es: seq<Event>, b: nat)
    requires IrqExact(m)
    ensures b in Run(m, es).status <==> Up(b in m.status, es, b)
    ensures IrqExact(Run(m, es))
    decreases |es|
  {
    hide Run, IrqExact;
    if es != [] {
      var front, last := es[..|es| - 1], es[|es| - 1];
      StatusIsSticky(m, front, b);
      RunLast(m, es);
      NextKeepsIrqExact(Run(m, front), last);
    } else {
      RunNothing(m);
    }
  }

  lemma RunNothing(m: Monitor)
    ensures Run(m, []) == m
  {}

  lemma ThreeBitsPack(val: nat)
    ensures PackThree(ThreeBits(val)) == val % 8
  {
    var a := val / 2;
    assert val / 4 == a / 2;
    assert val % 8 == val % 2 + 2 * (a % 2) + 4 * (a / 2 % 2);
  }
}

/** The DMA controller (dma_controller.h): channel registers and state machine, the arbitration of
running channels, and the burst engine over a byte-addressed bus. One event is one register
access or one arbitration with its burst. */
module DmaState {
  import opened Prelude
  import opened CyclicScan
  import opened Words

  /** `uint32_t` arithmetic. */
  function U32(x: int): (r: nat)
    ensures r < WORD_RANGE
  {
    x % WORD_RANGE
  }

  datatype ChannelState = Idle | Configured | Running | Suspended | Complete | Error

  /** The persistent bits of CH_CTRL. */
  datatype Ctrl = Ctrl(circular: bool, width: nat, burst: nat, prio: nat)

  datatype Link = Link(on: bool, target: nat)

  datatype Channel = Channel(state: ChannelState, src: nat, dst: nat, size: nat, ctrl: Ctrl, config: nat,
                             currSrc: nat, currDst: nat, remaining: nat, wraps: nat, link: Link,
                             half: bool, pausePending: bool, abortPending: bool)

  /** The arbiter's memory: last top priority, how long it has lasted, scan position. */
  datatype Arb = Arb(last: int, consec: nat, rr: nat)

  /** `intStatus` and `intMask` are sets of bit numbers; channel `n` owns the bits `3n` (complete
      or wrap), `3n + 1` (half) and `3n + 2` (error). The bus answers an access with an error
      unless it decodes every byte of it. */
  datatype Dma = Dma(chs: seq<Channel>, enable: bool, intStatus: set<nat>, intMask: set<nat>, arb: Arb,
                     irq: seq<bool>, irqGlobal: bool, mem: map<nat, Byte>)

  ghost predicate WellFormedChannel(ch: Channel) {
    && ch.src < WORD_RANGE && ch.dst < WORD_RANGE && ch.size <= 0x10000
    && ch.ctrl.width < 4 && ch.ctrl.burst < 4 && ch.ctrl.prio < 4 && ch.config < 16
    && ch.currSrc < WORD_RANGE && ch.currDst < WORD_RANGE && ch.remaining < WORD_RANGE
    && ch.link.target < 4
  }

  /** Up to ten channels fit the interrupt word. */
  ghost predicate WellFormed(d: Dma) {
    && 1 <= |d.chs| <= 10
    && (forall i :: 0 <= i < |d.chs| ==> WellFormedChannel(d.chs[i]))
    && d.arb.rr < |d.chs| && -1 <= d.arb.last <= 3
  }

  predicate Active(ch: Channel) {
    ch.state == Running || ch.state == Suspended
  }

  function ResetChannel(): Channel {
    Channel(Idle, 0, 0, 0, Ctrl(false, 0, 0, 0), 0, 0, 0, 0, 0, Link(false, 0), false, false, false)
  }

  function TwelveBits(): set<nat> {
    {0, 1, 2, 3, 4, 5, 6, 7, 8, 9, 10, 11}
  }

  ghost function Reset(n: nat, mem: map<nat, Byte>): Dma {
    Dma(seq(n, i => ResetChannel()), false, {}, TwelveBits(), Arb(-1, 0, 0), seq(n, i => false), false, mem)
  }

  // ---------- Interrupt outputs ----------

  ghost predicate Raised(d: Dma, i: nat) {
    exists bit :: 3 * i <= bit < 3 * i + 3 && bit in d.intStatus && bit !in d.intMask
  }

  ghost function UpdateIrqs(d: Dma): (r: Dma)
    ensures r == d.(irq := r.irq, irqGlobal := r.irqGlobal)
    ensures |r.irq| == |d.chs| && forall i :: 0 <= i < |d.chs| ==> r.irq[i] == Raised(d, i)
    ensures r.irqGlobal <==> exists i :: 0 <= i < |d.chs| && r.irq[i]
  {
    var lines := seq(|d.chs|, i requires 0 <= i < |d.chs| => Raised(d, i));
    d.(irq := lines, irqGlobal := Somewhere(lines))
  }

  ghost function Raise(d: Dma, bit: nat): (r: Dma)
    ensures r == d.(intStatus := d.intStatus + {bit}, irq := r.irq, irqGlobal := r.irqGlobal)
  {
    UpdateIrqs(d.(intStatus := d.intStatus + {bit}))
  }

  function Put(d: Dma, i: nat, ch: Channel): (r: Dma)
    requires i < |d.chs|
    ensures |r.chs| == |d.chs| && r.mem == d.mem
  {
    d.(chs := d.chs[i := ch])
  }

  // ---------- Starting a channel ----------

  function WidthOf(ch: Channel): (w: nat)
    ensures w in {1, 2, 4}
  {
    if ch.ctrl.width == 0 then 1 else if ch.ctrl.width == 1 then 2 else 4
  }

  function BurstOf(ch: Channel): (b: nat)
    ensures b in {1, 4, 8, 16}
  {
    if ch.ctrl.burst == 0 then 1 else if ch.ctrl.burst == 1 then 4 else if ch.ctrl.burst == 2 then 8 else 16
  }

  /** The validation at START. */
  predicate Startable(ch: Channel) {
    && ch.ctrl.width != 3
    && 0 < ch.size <= 65536
    && ch.size % WidthOf(ch) == 0 && ch.src % WidthOf(ch) == 0 && ch.dst % WidthOf(ch) == 0
  }

  /** A transfer at its first byte. */
  function Loaded(ch: Channel): Channel {
    ch.(state := Running, currSrc := ch.src, currDst := ch.dst, remaining := ch.size,
        wraps := 0, half := false, pausePending := false, abortPending := false)
  }

  function StartChannel(ch: Channel, fromLink: bool, enable: bool): Channel {
    if Active(ch) then ch
    else
      var c := if ch.state == Complete || ch.state == Idle then ch.(state := Configured) else ch;
      if !fromLink && !enable then c
      else if !Startable(c) then c.(state := Error)
      else Loaded(c)
  }

  function Start(d: Dma, i: nat, fromLink: bool): (r: Dma)
    requires i < |d.chs|
    ensures |r.chs| == |d.chs| && r.mem == d.mem
  {
    Put(d, i, StartChannel(d.chs[i], fromLink, d.enable))
  }

  // ---------- Register writes ----------

  function CtrlOf(w: nat): Ctrl {
    Ctrl(Flag(w, 0x2), w / 0x40 % 4, w / 0x100 % 4, w / 0x400 % 4)
  }

  /** A channel after a register write, and whether the write raises its error interrupt. */
  datatype Effect = Effect(ch: Channel, error: bool)

  function Started(ch: Channel, w: nat, enable: bool): Channel {
    if Flag(w, 0x1) then StartChannel(ch, false, enable) else ch
  }

  function Paused(ch: Channel, w: nat): Channel {
    if Flag(w, 0x4) && ch.state == Running then ch.(pausePending := true) else ch
  }

  function Resumed(ch: Channel, w: nat): Channel {
    if Flag(w, 0x8) && ch.state == Suspended then ch.(state := Running, pausePending := false) else ch
  }

  /** ABORT of a suspended channel takes effect at once, of a running one at its next burst. */
  function Aborted(ch: Channel, w: nat): Effect {
    if Flag(w, 0x10) && Active(ch) then
      Effect(ch.(abortPending := true, state := if ch.state == Suspended then Error else ch.state),
        ch.state == Suspended)
    else Effect(ch, false)
  }

  function Cleared(ch: Channel, w: nat): Channel {
    if Flag(w, 0x20) && ch.state == Error then ch.(state := Idle) else ch
  }

  /** The action bits of CH_CTRL, in ascending bit order. */
  function Actions(ch: Channel, w: nat, enable: bool): Effect {
    var e := Aborted(Resumed(Paused(Started(ch, w, enable), w), w), w);
    Effect(Cleared(e.ch, w), e.error)
  }

  function WriteCtrl(ch: Channel, w: nat, enable: bool): Effect {
    if ch.state == Error then Effect(Cleared(ch, w), false)
    else if Active(ch) then Actions(ch.(ctrl := ch.ctrl.(circular := Flag(w, 0x2), prio := w / 0x400 % 4)), w, enable)
    else if ch.state == Complete then Actions(ch, w, enable)
    else Actions(ch.(ctrl := CtrlOf(w), state := Configured), w, enable)
  }

  /** XFER_SIZE keeps 17 bits; a value above 0x10000 loses bit 16. */
  function SizeOf(w: nat): (v: nat)
    ensures v <= 0x10000
  {
    var v := w % 0x20000;
    if v > 0x10000 then v % 0x10000 else v
  }

  function ToInt32(x: nat): int {
    if x < 0x8000_0000 then x else x - WORD_RANGE
  }

  /** Reprogramming the size of a suspended transfer. */
  function Resize(ch: Channel, val: nat): Channel {
    var transferred := U32(ch.size - ch.remaining);
    var left := val - ToInt32(transferred);
    var rem := if left <= 0 then 0 else left;
    ch.(size := val, remaining := rem / WidthOf(ch) * WidthOf(ch))
  }

  /** Writes to the data registers, by register offset. */
  function WriteData(ch: Channel, off: nat, w: nat): Channel {
    var free := ch.state == Idle || ch.state == Configured;
    if off == 0x00 then
      if free then ch.(src := w, state := Configured)
      else if ch.state == Suspended then ch.(src := w, currSrc := w) else ch
    else if off == 0x04 then
      if free then ch.(dst := w, state := Configured)
      else if ch.state == Suspended then ch.(dst := w, currDst := w) else ch
    else if off == 0x08 then
      if free then ch.(size := SizeOf(w), state := Configured)
      else if ch.state == Suspended then Resize(ch, SizeOf(w)) else ch
    else if off == 0x10 then
      if free then ch.(config := w % 16, state := Configured) else ch
    else if off == 0x28 then ch.(link := Link(Flag(w, 0x80), w % 4))
    else ch
  }

  /** A write to a channel's register block; any but the status register acknowledges COMPLETE. */
  function Written(ch: Channel, off: nat, w: nat, enable: bool): Effect {
    var c := if ch.state == Complete && off != 0x14 then ch.(state := Idle) else ch;
    if off == 0x0C then WriteCtrl(c, w, enable) else Effect(WriteData(c, off, w), false)
  }

  ghost function WriteChannel(d: Dma, i: nat, off: nat, w: nat): (r: Dma)
    requires i < |d.chs|
    ensures |r.chs| == |d.chs| && r.mem == d.mem && r.arb == d.arb
    ensures r.chs == d.chs[i := Written(d.chs[i], off, w, d.enable).ch]
  {
    var e := Written(d.chs[i], off, w, d.enable);
    if e.error then Raise(Put(d, i, e.ch), 3 * i + 2) else Put(d, i, e.ch)
  }

  ghost function WriteGlobal(d: Dma, addr: nat, w: nat): (r: Dma)
    ensures |r.chs| == |d.chs| && r.mem == d.mem
  {
    if addr == 0x008 then UpdateIrqs(d.(intStatus := d.intStatus - BitsOf(w) * TwelveBits()))
    else if addr == 0x00C then
      if Flag(w, 0x2) then UpdateIrqs(Reset(|d.chs|, d.mem)) else d.(enable := Flag(w, 0x1))
    else if addr == 0x014 then UpdateIrqs(d.(intMask := BitsOf(w) * TwelveBits()))
    else d
  }

  datatype Command = ReadCmd | WriteCmd | OtherCmd

  datatype Status = Ok | AddressError | GenericError

  /** The checks on a register access, in the program's order. */
  function Check(n: nat, cmd: Command, addr: nat, len: nat): Status {
    if cmd.OtherCmd? || len != 4 || addr % 4 != 0 then GenericError
    else if addr > 0x1FF || 0x018 <= addr < 0x100 then AddressError
    else if addr >= 0x100 && (addr - 0x100) / 0x40 >= n then AddressError
    else Ok
  }

  ghost function WriteReg(d: Dma, addr: nat, w: nat): (r: Dma)
    requires Check(|d.chs|, WriteCmd, addr, 4) == Ok
    ensures |r.chs| == |d.chs| && r.mem == d.mem
  {
    if addr < 0x018 then WriteGlobal(d, addr, w)
    else WriteChannel(d, (addr - 0x100) / 0x40, (addr - 0x100) % 0x40, w)
  }

  // ---------- Register reads ----------

  function PackCtrl(c: Ctrl): nat {
    One(c.circular) * 0x2 + c.width * 0x40 + c.burst * 0x100 + c.prio * 0x400
  }

  /** CH_STATUS: busy, error and complete bits and the two-bit state. */
  function PackStatus(ch: Channel): nat {
    One(Active(ch)) + One(ch.state == Error) * 2 + One(ch.state == Complete) * 4 +
    (if ch.state == Configured then 1
     else if ch.state == Running then 2
     else if ch.state == Suspended then 3
     else 0) * 8
  }

  function ReadChannel(ch: Channel, off: nat): nat {
    if off == 0x00 then ch.src
    else if off == 0x04 then ch.dst
    else if off == 0x08 then ch.size
    else if off == 0x0C then PackCtrl(ch.ctrl)
    else if off == 0x10 then ch.config
    else if off == 0x14 then PackStatus(ch)
    else if off == 0x18 then ch.currSrc
    else if off == 0x1C then ch.currDst
    else if off == 0x20 then ch.remaining
    else if off == 0x24 then ch.wraps
    else if off == 0x28 then One(ch.link.on) * 0x80 + ch.link.target
    else 0
  }

  ghost function ActiveBits(d: Dma): set<nat> {
    set i | 0 <= i < |d.chs| && Active(d.chs[i])
  }

  ghost function ReadReg(d: Dma, addr: nat): nat
    requires Check(|d.chs|, ReadCmd, addr, 4) == Ok
  {
    if addr == 0x000 then WordOf(ActiveBits(d))
    else if addr == 0x004 then WordOf(d.intStatus)
    else if addr == 0x008 then 0
    else if addr == 0x00C then One(d.enable)
    else if addr == 0x010 then 0x444D4102
    else if addr == 0x014 then WordOf(d.intMask)
    else ReadChannel(d.chs[(addr - 0x100) / 0x40], (addr - 0x100) % 0x40)
  }

  lemma SixBits(q: nat)
    ensures q % 64 == q % 4 + q / 4 % 4 * 4 + q / 16 % 4 * 16
  {
    var b, c, e := q / 4, q / 16, q / 64;
    assert c == b / 4 && e == c / 4;
  }

  /** The control register of an idle channel reads back what was written, without the action
      bits and the reserved ones. */
  lemma CtrlReadsBack(w: nat)
    ensures PackCtrl(CtrlOf(w)) == w / 0x2 % 2 * 0x2 + w / 0x40 % 64 * 0x40
  {
    var q := w / 0x40;
    assert w / 0x100 == q / 4 && w / 0x400 == q / 16;
    SixBits(q);
  }

  // ---------- Arbitration ----------

  ghost function RunningOf(chs: seq<Channel>): (r: seq<bool>)
    ensures |r| == |chs|
  {
    seq(|chs|, i requires 0 <= i < |chs| => chs[i].state == Running)
  }

  ghost function PrioOf(chs: seq<Channel>): (r: seq<nat>)
    ensures |r| == |chs|
  {
    seq(|chs|, i requires 0 <= i < |chs| => chs[i].ctrl.prio)
  }

  /** The highest priority below `limit` of a running channel among the first `k`, or -1. */
  ghost function TopBelow(running: seq<bool>, prio: seq<nat>, k: nat, limit: int): (p: int)
    requires |running| == |prio| && k <= |prio|
    ensures p >= -1
    ensures p >= 0 ==> p < limit && exists i :: 0 <= i < k && running[i] && prio[i] == p
    ensures forall i :: 0 <= i < k && running[i] && prio[i] < limit ==> prio[i] <= p
  {
    if k == 0 then -1
    else
      var p := TopBelow(running, prio, k - 1, limit);
      if running[k - 1] && prio[k - 1] < limit && p < prio[k - 1] then prio[k - 1] else p
  }

  ghost function Level(running: seq<bool>, prio: seq<nat>, p: int): (e: seq<bool>)
    requires |running| == |prio|
    ensures |e| == |prio|
  {
    seq(|prio|, i requires 0 <= i < |prio| => running[i] && prio[i] == p)
  }

  datatype Choice = Choice(sel: nat, arb: Arb)

  const NO_LIMIT: int := 4

  ghost function Top(running: seq<bool>, prio: seq<nat>): int
    requires |running| == |prio|
  {
    TopBelow(running, prio, |prio|, NO_LIMIT)
  }

  ghost function NextTop(running: seq<bool>, prio: seq<nat>): int
    requires |running| == |prio|
  {
    TopBelow(running, prio, |prio|, Top(running, prio))
  }

  /** Eight consecutive arbitrations at one top priority force one grant to the next level. */
  ghost predicate Forced(a: Arb, running: seq<bool>, prio: seq<nat>)
    requires |running| == |prio|
  {
    Top(running, prio) == a.last && a.consec + 1 >= 8 && NextTop(running, prio) >= 0
  }

  /** One arbitration: the channel granted, or `|prio|` when nothing is running. */
  ghost function Choose(a: Arb, running: seq<bool>, prio: seq<nat>): (c: Choice)
    requires |running| == |prio| && a.rr < |prio|
    ensures c.arb.rr < |prio|
  {
    var top := Top(running, prio);
    if top < 0 then Choice(|prio|, a)
    else
      var consec := if top == a.last then a.consec + 1 else 1;
      var forced := Forced(a, running, prio);
      var level := Level(running, prio, if forced then NextTop(running, prio) else top);
      var w := Nearest(level, a.rr);
      Choice(w, Arb(top, if forced then 0 else consec, if w < |prio| then Next(|prio|, w) else a.rr))
  }

  /** The search within the chosen level always finds a channel. */
  lemma ChooseFinds(a: Arb, running: seq<bool>, prio: seq<nat>)
    requires |running| == |prio| && a.rr < |prio|
    ensures var c := Choose(a, running, prio);
      && c.sel <= |prio|
      && (c.sel < |prio| <==> Top(running, prio) >= 0)
      && (c.sel < |prio| ==> running[c.sel])
      && (c.sel < |prio| ==>
           prio[c.sel] == if Forced(a, running, prio) then NextTop(running, prio) else Top(running, prio))
  {
    var top := Top(running, prio);
    if top >= 0 {
      var p := if Forced(a, running, prio) then NextTop(running, prio) else top;
      var i :| 0 <= i < |prio| && running[i] && prio[i] == p;
      assert Level(running, prio, p)[i];
    }
  }

  // ---------- One burst ----------

  function BeatCount(ch: Channel): (k: nat)
    ensures 1 <= k <= 16
  {
    var k := Min(BurstOf(ch), ch.remaining / WidthOf(ch));
    if k == 0 then 1 else k
  }

  function Advance(addr: nat, mode: nat, w: nat): (r: nat)
    requires addr < WORD_RANGE
    ensures r < WORD_RANGE
  {
    if mode == 0 then U32(addr + w) else if mode == 1 then U32(addr - w) else addr
  }

  predicate Decodes(mem: map<nat, Byte>, a: nat, w: nat) {
    forall x :: a <= x < a + w ==> x in mem
  }

  /** Copy `w` bytes from `from` to `to`, all read before any is written. */
  function CopyBytes(mem: map<nat, Byte>, from: nat, to: nat, w: nat): (r: map<nat, Byte>)
    requires Decodes(mem, from, w)
    ensures r.Keys == mem.Keys
    ensures forall x :: x in mem ==> r[x] == if to <= x < to + w then mem[from + (x - to)] else mem[x]
  {
    map x | x in mem :: if to <= x < to + w then mem[from + (x - to)] else mem[x]
  }

  predicate BusOk(d: Dma, ch: Channel) {
    Decodes(d.mem, ch.currSrc, WidthOf(ch)) && Decodes(d.mem, ch.currDst, WidthOf(ch))
  }

  /** The channel after one beat. */
  function MovedChannel(ch: Channel): Channel
    requires WellFormedChannelRange(ch)
  {
    var w := WidthOf(ch);
    var rem := U32(ch.remaining - w);
    ch.(currSrc := Advance(ch.currSrc, ch.config % 4, w), currDst := Advance(ch.currDst, ch.config / 4 % 4, w),
        remaining := rem, half := ch.half || rem <= ch.size / 2)
  }

  predicate WellFormedChannelRange(ch: Channel) {
    ch.currSrc < WORD_RANGE && ch.currDst < WORD_RANGE
  }

  /** The half event of a beat. */
  predicate HalfFires(ch: Channel) {
    !ch.half && U32(ch.remaining - WidthOf(ch)) <= ch.size / 2
  }

  ghost function Move(d: Dma, sel: nat): (r: Dma)
    requires sel < |d.chs| && WellFormedChannelRange(d.chs[sel]) && BusOk(d, d.chs[sel])
    ensures |r.chs| == |d.chs| && r.chs == d.chs[sel := MovedChannel(d.chs[sel])]
    ensures r.mem == CopyBytes(d.mem, d.chs[sel].currSrc, d.chs[sel].currDst, WidthOf(d.chs[sel]))
    ensures r.arb == d.arb
  {
    var ch := d.chs[sel];
    var d1 := Put(d, sel, MovedChannel(ch)).(mem := CopyBytes(d.mem, ch.currSrc, ch.currDst, WidthOf(ch)));
    if HalfFires(ch) then Raise(d1, 3 * sel + 1) else d1
  }

  /** Abort and bus errors. */
  ghost function Fail(d: Dma, sel: nat): (r: Dma)
    requires sel < |d.chs|
    ensures |r.chs| == |d.chs| && r.mem == d.mem && r.arb == d.arb
    ensures r.chs == d.chs[sel := d.chs[sel].(state := Error, pausePending := false)]
  {
    Raise(Put(d, sel, d.chs[sel].(state := Error, pausePending := false)), 3 * sel + 2)
  }

  function Wrapped(ch: Channel): Channel {
    ch.(wraps := U32(ch.wraps + 1), currSrc := ch.src, currDst := ch.dst, remaining := ch.size, half := false)
  }

  /** The last byte has moved: wrap, or complete and start the linked channel. */
  ghost function Finish(d: Dma, sel: nat): (r: Dma)
    requires sel < |d.chs|
    ensures |r.chs| == |d.chs| && r.mem == d.mem && r.arb == d.arb
  {
    var ch := d.chs[sel];
    if ch.ctrl.circular then Raise(Put(d, sel, Wrapped(ch)), 3 * sel)
    else
      var d1 := Raise(Put(d, sel, ch.(state := Complete, pausePending := false)), 3 * sel);
      if ch.link.on && ch.link.target < |d.chs| then Start(d1, ch.link.target, true) else d1
  }

  /** Up to `k` beats. */
  ghost function Beats(d: Dma, sel: nat, k: nat): (r: Dma)
    requires sel < |d.chs| && WellFormedChannelRange(d.chs[sel])
    ensures |r.chs| == |d.chs| && r.arb == d.arb && r.mem.Keys == d.mem.Keys
    decreases k
  {
    if k == 0 then d
    else if d.chs[sel].abortPending then Fail(Put(d, sel, d.chs[sel].(abortPending := false)), sel)
    else if !BusOk(d, d.chs[sel]) then Fail(d, sel)
    else
      var d1 := Move(d, sel);
      if d1.chs[sel].remaining == 0 then Finish(d1, sel) else Beats(d1, sel, k - 1)
  }

  /** A pending pause takes effect at the end of the burst. */
  function PauseCheck(d: Dma, sel: nat): (r: Dma)
    requires sel < |d.chs|
    ensures |r.chs| == |d.chs| && r.mem == d.mem && r.arb == d.arb
  {
    if d.chs[sel].state == Running && d.chs[sel].pausePending
    then Put(d, sel, d.chs[sel].(state := Suspended, pausePending := false)) else d
  }

  ghost function Burst(d: Dma, sel: nat): (r: Dma)
    requires sel < |d.chs| && WellFormedChannelRange(d.chs[sel])
    ensures |r.chs| == |d.chs| && r.arb == d.arb && r.mem.Keys == d.mem.Keys
  {
    PauseCheck(Beats(d, sel, BeatCount(d.chs[sel])), sel)
  }

  /** The channel the engine would serve now. */
  ghost function Selected(d: Dma): nat
    requires WellFormed(d)
  {
    Choose(d.arb, RunningOf(d.chs), PrioOf(d.chs)).sel
  }

  /** One arbitration and its burst; nothing if no channel is running. */
  ghost function EngineStep(d: Dma): (r: Dma)
    requires WellFormed(d)
    ensures |r.chs| == |d.chs| && r.mem.Keys == d.mem.Keys
  {
    var c := Choose(d.arb, RunningOf(d.chs), PrioOf(d.chs));
    ChooseFinds(d.arb, RunningOf(d.chs), PrioOf(d.chs));
    if c.sel < |d.chs| then Burst(d.(arb := c.arb), c.sel) else d
  }

  // ---------- Events ----------

  /** Register reads change nothing; a rejected access changes nothing. */
  datatype Event = Register(cmd: Command, addr: nat, len: nat, data: nat) | Engine

  ghost predicate LegalEvent(e: Event) {
    e.Register? ==> e.data < WORD_RANGE
  }

  ghost function Step(d: Dma, e: Event): (r: Dma)
    requires WellFormed(d)
    ensures |r.chs| == |d.chs| && r.mem.Keys == d.mem.Keys
  {
    match e
    case Engine => EngineStep(d)
    case Register(cmd, addr, len, data) =>
      if cmd.WriteCmd? && Check(|d.chs|, cmd, addr, len) == Ok then WriteReg(d, addr, data) else d
  }
}

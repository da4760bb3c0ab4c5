/** What every event of the DMA controller keeps whatever software does: registers within their
ranges and exact interrupt lines. */
module DmaInvariants {
  import opened Prelude
  import opened Words
  import opened DmaState

  // ---------- Register ranges ----------

  lemma WrittenKeepsRange(ch: Channel, off: nat, w: nat, enable: bool)
    requires WellFormedChannel(ch) && w < WORD_RANGE
    ensures WellFormedChannel(Written(ch, off, w, enable).ch)
  {
    hide Flag, Actions, WriteData;
    var c := if ch.state == Complete && off != 0x14 then ch.(state := Idle) else ch;
    WriteDataKeepsRange(c, off, w);
    ActionsKeepRange(c, w, enable);
    ActionsKeepRange(c.(ctrl := CtrlOf(w), state := Configured), w, enable);
    ActionsKeepRange(c.(ctrl := c.ctrl.(circular := Flag(w, 0x2), prio := w / 0x400 % 4)), w, enable);
  }

  lemma WriteDataKeepsRange(ch: Channel, off: nat, w: nat)
    requires WellFormedChannel(ch) && w < WORD_RANGE
    ensures WellFormedChannel(WriteData(ch, off, w))
  {
    hide Flag, Resize, SizeOf;
    ResizeKeepsRange(ch, SizeOf(w));
  }

  lemma ResizeKeepsRange(ch: Channel, val: nat)
    requires WellFormedChannel(ch) && val <= 0x10000
    ensures WellFormedChannel(Resize(ch, val))
  {
    var left := val - ToInt32(U32(ch.size - ch.remaining));
    var rem := if left <= 0 then 0 else left;
    assert rem <= 0x8001_0000;
    assert rem / WidthOf(ch) * WidthOf(ch) <= rem;
  }

  /** Apart from a start, the action bits only move the state machine. */
  lemma ActionsOnlyMoveState(ch: Channel, w: nat, enable: bool)
    ensures var r, s := Actions(ch, w, enable).ch, Started(ch, w, enable);
      r == s.(state := r.state, pausePending := r.pausePending, abortPending := r.abortPending)
  {
    hide Flag, StartChannel;
  }

  lemma StartKeepsRange(ch: Channel, w: nat, enable: bool)
    requires WellFormedChannel(ch)
    ensures WellFormedChannel(Started(ch, w, enable))
  {
    hide Flag;
  }

  lemma ActionsKeepRange(ch: Channel, w: nat, enable: bool)
    requires WellFormedChannel(ch)
    ensures WellFormedChannel(Actions(ch, w, enable).ch)
  {
    hide Actions, Started;
    ActionsOnlyMoveState(ch, w, enable);
    StartKeepsRange(ch, w, enable);
  }

  lemma FinishKeepsRange(d: Dma, sel: nat)
    requires WellFormed(d) && sel < |d.chs|
    ensures WellFormed(Finish(d, sel))
  {
    hide StartChannel, Raise, WellFormedChannel;
    var done := d.chs[sel].(state := Complete, pausePending := false);
    EndKeepsRange(d.chs[sel]);
    LinkKeepsRange(done, d.enable);
    if d.chs[sel].link.target < |d.chs| {
      LinkKeepsRange(d.chs[d.chs[sel].link.target], d.enable);
    }
  }

  lemma EndKeepsRange(ch: Channel)
    requires WellFormedChannel(ch)
    ensures WellFormedChannel(Wrapped(ch)) && WellFormedChannel(ch.(state := Complete, pausePending := false))
  {}

  lemma LinkKeepsRange(ch: Channel, enable: bool)
    requires WellFormedChannel(ch)
    ensures WellFormedChannel(StartChannel(ch, true, enable))
  {}

  lemma MoveKeepsRange(d: Dma, sel: nat)
    requires WellFormed(d) && sel < |d.chs| && BusOk(d, d.chs[sel])
    ensures WellFormed(Move(d, sel))
  {
    hide BusOk;
  }

  lemma {:induction false} BeatsKeepRange(d: Dma, sel: nat, k: nat)
    requires WellFormed(d) && sel < |d.chs|
    ensures WellFormed(Beats(d, sel, k))
    decreases k
  {
    hide Move, Finish, BusOk, Fail;
    if k > 0 && !d.chs[sel].abortPending && BusOk(d, d.chs[sel]) {
      MoveKeepsRange(d, sel);
      var d1 := Move(d, sel);
      if d1.chs[sel].remaining == 0 {
        FinishKeepsRange(d1, sel);
      } else {
        BeatsKeepRange(d1, sel, k - 1);
      }
    }
  }

  lemma ChooseKeepsRange(d: Dma)
    requires WellFormed(d)
    ensures WellFormed(d.(arb := Choose(d.arb, RunningOf(d.chs), PrioOf(d.chs)).arb))
  {
    hide Level;
  }

  lemma StepKeepsWellFormed(d: Dma, e: Event)
    requires WellFormed(d) && LegalEvent(e)
    ensures WellFormed(Step(d, e))
  {
    hide Choose, Beats, BitsOf, Written, Flag;
    match e
    case Engine =>
      var c := Choose(d.arb, RunningOf(d.chs), PrioOf(d.chs));
      ChooseKeepsRange(d);
      if c.sel < |d.chs| {
        BeatsKeepRange(d.(arb := c.arb), c.sel, BeatCount(d.chs[c.sel]));
      }
    case Register(cmd, addr, len, data) =>
      if 0x100 <= addr && (addr - 0x100) / 0x40 < |d.chs| {
        var i := (addr - 0x100) / 0x40;
        WrittenKeepsRange(d.chs[i], (addr - 0x100) % 0x40, data, d.enable);
      }
  }

  // ---------- Interrupt lines ----------

  /** Every line is the or of its unmasked status bits, the global line the or of the lines. */
  ghost predicate IrqExact(d: Dma) {
    && |d.irq| == |d.chs|
    && (forall i :: 0 <= i < |d.chs| ==> d.irq[i] == Raised(d, i))
    && (d.irqGlobal <==> exists i :: 0 <= i < |d.irq| && d.irq[i])
  }

  lemma UpdateIsExact(d: Dma)
    ensures IrqExact(UpdateIrqs(d))
  {
    hide UpdateIrqs;
    var r := UpdateIrqs(d);
    assert forall i :: Raised(r, i) == Raised(d, i);
  }

  lemma SameLinesExact(d: Dma, r: Dma)
    requires IrqExact(d) && |r.chs| == |d.chs|
    requires r.irq == d.irq && r.irqGlobal == d.irqGlobal && r.intStatus == d.intStatus && r.intMask == d.intMask
    ensures IrqExact(r)
  {
    assert forall i :: Raised(r, i) == Raised(d, i);
  }

  lemma FinishIsExact(d: Dma, sel: nat)
    requires IrqExact(d) && sel < |d.chs|
    ensures IrqExact(Finish(d, sel))
  {
    hide IrqExact, UpdateIrqs, StartChannel;
    var ch := d.chs[sel];
    if ch.ctrl.circular {
      UpdateIsExact(Put(d, sel, Wrapped(ch)).(intStatus := d.intStatus + {3 * sel}));
    } else {
      var d1 := Put(d, sel, ch.(state := Complete, pausePending := false)).(intStatus := d.intStatus + {3 * sel});
      UpdateIsExact(d1);
      SameLinesExact(UpdateIrqs(d1), Finish(d, sel));
    }
  }

  lemma MoveIsExact(d: Dma, sel: nat)
    requires IrqExact(d) && sel < |d.chs| && WellFormedChannelRange(d.chs[sel]) && BusOk(d, d.chs[sel])
    ensures IrqExact(Move(d, sel))
  {
    hide IrqExact, UpdateIrqs, MovedChannel, CopyBytes;
    var ch := d.chs[sel];
    var d1 := Put(d, sel, MovedChannel(ch)).(mem := CopyBytes(d.mem, ch.currSrc, ch.currDst, WidthOf(ch)));
    if HalfFires(ch) {
      UpdateIsExact(d1.(intStatus := d1.intStatus + {3 * sel + 1}));
    } else {
      SameLinesExact(d, d1);
    }
  }

  lemma FailIsExact(d: Dma, sel: nat)
    requires sel < |d.chs|
    ensures IrqExact(Fail(d, sel))
  {
    hide IrqExact, UpdateIrqs;
    var failed := d.chs[sel].(state := Error, pausePending := false);
    UpdateIsExact(Put(d, sel, failed).(intStatus := d.intStatus + {3 * sel + 2}));
  }

  lemma {:induction false} BeatsAreExact(d: Dma, sel: nat, k: nat)
    requires IrqExact(d) && sel < |d.chs| && WellFormedChannelRange(d.chs[sel])
    ensures IrqExact(Beats(d, sel, k))
    decreases k
  {
    hide Move, Finish, BusOk, Fail, IrqExact;
    if k > 0 {
      if d.chs[sel].abortPending {
        FailIsExact(Put(d, sel, d.chs[sel].(abortPending := false)), sel);
      } else if !BusOk(d, d.chs[sel]) {
        FailIsExact(d, sel);
      } else {
        MoveIsExact(d, sel);
        var d1 := Move(d, sel);
        if d1.chs[sel].remaining == 0 {
          FinishIsExact(d1, sel);
        } else {
          BeatsAreExact(d1, sel, k - 1);
        }
      }
    }
  }

  /** No event leaves an interrupt line stale. */
  lemma StepKeepsIrqExact(d: Dma, e: Event)
    requires WellFormed(d) && IrqExact(d)
    ensures IrqExact(Step(d, e))
  {
    hide IrqExact, UpdateIrqs, Beats, Choose, Written, BitsOf, Reset, Flag, WellFormed;
    WellFormedParts(d);
    match e
    case Engine =>
      var c := Choose(d.arb, RunningOf(d.chs), PrioOf(d.chs));
      if c.sel < |d.chs| {
        var d1 := d.(arb := c.arb);
        var d2 := Beats(d1, c.sel, BeatCount(d1.chs[c.sel]));
        SameLinesExact(d, d1);
        BeatsAreExact(d1, c.sel, BeatCount(d1.chs[c.sel]));
        SameLinesExact(d2, PauseCheck(d2, c.sel));
      }
    case Register(cmd, addr, len, data) =>
      if cmd.WriteCmd? && Check(|d.chs|, cmd, addr, len) == Ok {
        RegisterIsExact(d, addr, data);
      }
  }

  lemma WellFormedParts(d: Dma)
    requires WellFormed(d)
    ensures 1 <= |d.chs| <= 10 && d.arb.rr < |d.chs|
    ensures forall i :: 0 <= i < |d.chs| ==> WellFormedChannelRange(d.chs[i])
  {}

  lemma RegisterIsExact(d: Dma, addr: nat, w: nat)
    requires IrqExact(d) && Check(|d.chs|, WriteCmd, addr, 4) == Ok
    ensures IrqExact(WriteReg(d, addr, w))
  {
    hide IrqExact, UpdateIrqs, Written, BitsOf, Reset, Flag;
    if addr < 0x018 {
      UpdateIsExact(d.(intStatus := d.intStatus - BitsOf(w) * TwelveBits()));
      UpdateIsExact(Reset(|d.chs|, d.mem));
      UpdateIsExact(d.(intMask := BitsOf(w) * TwelveBits()));
      SameLinesExact(d, d.(enable := Flag(w, 0x1)));
    } else {
      var i, off := (addr - 0x100) / 0x40, (addr - 0x100) % 0x40;
      var e := Written(d.chs[i], off, w, d.enable);
      var d1 := Put(d, i, e.ch);
      UpdateIsExact(d1.(intStatus := d1.intStatus + {3 * i + 2}));
      SameLinesExact(d, d1);
    }
  }
}

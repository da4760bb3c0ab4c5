/** The interrupt status register of the DMA controller: which event sets and which event clears each
bit, over single events and over runs, and the lines that follow from it. */
module DmaStatus {
  import opened Prelude
  import opened Words
  import opened DmaState
  import opened DmaInvariants
  import opened DmaConservation
  import opened DmaRuns

  /** Some beat of the burst finds an abort pending, or is refused by the bus. */
  ghost predicate Fails(d: Dma, sel: nat, k: nat)
    requires sel < |d.chs| && WellFormedChannelRange(d.chs[sel])
    decreases k
  {
    k > 0 && (
      || d.chs[sel].abortPending
      || !BusOk(d, d.chs[sel])
      || var d1 := Move(d, sel); d1.chs[sel].remaining != 0 && Fails(d1, sel, k - 1))
  }

  /** Event `e` is a burst of channel `c` that fails. */
  ghost predicate FailsIn(d: Dma, e: Event, c: nat)
    requires WellFormed(d)
  {
    Bursts(d, e, c) && Fails(Arbitrated(d), c, BeatCount(d.chs[c]))
  }

  /** Event `e` is an ABORT that finds channel `c` suspended, and does not resume it first. */
  ghost predicate AbortsSuspended(d: Dma, e: Event, c: nat) {
    WritesAt(d, e, c, 0x0C) && d.chs[c].state == Suspended && Flag(e.data, 0x10) && !Flag(e.data, 0x8)
  }

  /** Channel `c` owns three bits: an iteration of it ends, its half event, its error. */
  ghost predicate Sets(d: Dma, e: Event, b: nat)
    requires WellFormed(d)
  {
    var c := b / 3;
    c < |d.chs| &&
    if b % 3 == 0 then FinishesIn(d, e, c)
    else if b % 3 == 1 then HalvesIn(d, e, c) > 0
    else FailsIn(d, e, c) || AbortsSuspended(d, e, c)
  }

  /** A one is written to bit `b` of INT_CLEAR, which has twelve. */
  ghost predicate Acknowledges(e: Event, b: nat) {
    e.Register? && e.cmd.WriteCmd? && e.len == 4 && e.addr == 0x008 && b < 12 && Bit(e.data, b)
  }

  // ---------- One event ----------

  lemma FinishSetsBit(d: Dma, sel: nat, b: nat)
    requires sel < |d.chs|
    ensures b in Finish(d, sel).intStatus <==> b in d.intStatus || b == 3 * sel
  {
    hide StartChannel, UpdateIrqs;
  }

  lemma MoveSetsBit(d: Dma, sel: nat, b: nat)
    requires sel < |d.chs| && WellFormedChannelRange(d.chs[sel]) && BusOk(d, d.chs[sel])
    ensures b in Move(d, sel).intStatus <==> b in d.intStatus || (HalfFires(d.chs[sel]) && b == 3 * sel + 1)
  {
    hide UpdateIrqs, HalfFires, CopyBytes, MovedChannel;
  }

  lemma FailSetsBit(d: Dma, sel: nat, b: nat)
    requires sel < |d.chs|
    ensures b in Fail(d, sel).intStatus <==> b in d.intStatus || b == 3 * sel + 2
  {
    hide UpdateIrqs;
  }

  /** The bits of a burst: the end of an iteration, a half event, a failure. */
  lemma {:induction false} BeatsSetBits(d: Dma, sel: nat, k: nat, b: nat)
    requires WellFormed(d) && sel < |d.chs|
    ensures b in Beats(d, sel, k).intStatus <==>
      || b in d.intStatus
      || (b == 3 * sel && Finishes(d, sel, k))
      || (b == 3 * sel + 1 && HalfEvents(d, sel, k) > 0)
      || (b == 3 * sel + 2 && Fails(d, sel, k))
    decreases k
  {
    hide Move, Finish, Fail, BusOk, HalfFires, WellFormedChannel;
    WellFormedParts(d);
    if k > 0 {
      if d.chs[sel].abortPending {
        FailSetsBit(Put(d, sel, d.chs[sel].(abortPending := false)), sel, b);
      } else if !BusOk(d, d.chs[sel]) {
        FailSetsBit(d, sel, b);
      } else {
        MoveKeepsRange(d, sel);
        MoveSetsBit(d, sel, b);
        var d1 := Move(d, sel);
        if d1.chs[sel].remaining == 0 {
          FinishSetsBit(d1, sel, b);
        } else {
          BeatsSetBits(d1, sel, k - 1, b);
        }
      }
    }
  }

  lemma BitOwner(c: nat, r: nat)
    requires r < 3
    ensures (3 * c + r) / 3 == c && (3 * c + r) % 3 == r
  {}

  lemma EngineSetsBits(d: Dma, b: nat)
    requires WellFormed(d)
    ensures b in EngineStep(d).intStatus <==> Sets(d, Engine, b) || b in d.intStatus
  {
    hide Beats, Finishes, Fails, HalfEvents, Selected, EngineStep, WellFormedChannel;
    EngineIsBurst(d);
    var sel := Selected(d);
    if sel < |d.chs| {
      var d1, k := Arbitrated(d), BeatCount(d.chs[sel]);
      ArbitratedStatus(d);
      BeatsSetBits(d1, sel, k, b);
      BitOwner(b / 3, b % 3);
    }
  }

  lemma ArbitratedStatus(d: Dma)
    requires WellFormed(d)
    ensures Arbitrated(d).intStatus == d.intStatus && Arbitrated(d).intMask == d.intMask
  {}

  /** ABORT of a suspended channel is the one register write that raises an error event. */
  lemma WrittenError(ch: Channel, off: nat, w: nat, enable: bool)
    ensures Written(ch, off, w, enable).error <==>
      off == 0x0C && ch.state == Suspended && Flag(w, 0x10) && !Flag(w, 0x8)
  {
    hide Flag, Startable;
  }

  lemma RegisterSetsBits(d: Dma, e: Event, b: nat)
    requires WellFormed(d) && LegalEvent(e) && e.Register?
    ensures b in Step(d, e).intStatus <==>
      Sets(d, e, b) || (b in d.intStatus && !Acknowledges(e, b) && !IsReset(e))
  {
    hide Written, UpdateIrqs, Flag, Reset, WellFormedChannel;
    BitOwner(b / 3, b % 3);
    if e.cmd.WriteCmd? && Check(|d.chs|, e.cmd, e.addr, e.len) == Ok {
      if e.addr < 0x018 {
        ResetStatus(d);
      } else {
        var i, off := (e.addr - 0x100) / 0x40, (e.addr - 0x100) % 0x40;
        WrittenError(d.chs[i], off, e.data, d.enable);
        BitOwner(i, 2);
      }
    }
  }

  lemma ResetStatus(d: Dma)
    ensures Reset(|d.chs|, d.mem).intStatus == {}
  {}

  /** Exactly which events set, keep and clear each status bit. */
  lemma StatusBitIff(d: Dma, e: Event, b: nat)
    requires WellFormed(d) && LegalEvent(e)
    ensures b in Step(d, e).intStatus <==>
      Sets(d, e, b) || (b in d.intStatus && !Acknowledges(e, b) && !IsReset(e))
  {
    hide Step, Sets, WellFormed;
    if e.Engine? {
      EngineSetsBits(d, b);
      EngineIsStep(d);
    } else {
      RegisterSetsBits(d, e, b);
    }
  }

  /** Exactly which events mask an interrupt: INT_MASK is written with a one there, or a reset
      masks all twelve. */
  lemma MaskBitIff(d: Dma, e: Event, b: nat)
    requires WellFormed(d) && LegalEvent(e)
    ensures b in Step(d, e).intMask <==>
      if IsReset(e) then b < 12
      else if e.Register? && e.cmd.WriteCmd? && e.len == 4 && e.addr == 0x014 then b < 12 && Bit(e.data, b)
      else b in d.intMask
  {
    hide Written, UpdateIrqs, Flag, Choose, Beats, Bit;
    if e.Engine? {
      EngineIsStep(d);
      EngineIsBurst(d);
      if Selected(d) < |d.chs| {
        ArbitratedStatus(d);
        BeatsKeepMask(Arbitrated(d), Selected(d), BeatCount(d.chs[Selected(d)]));
      }
    }
  }

  lemma {:induction false} BeatsKeepMask(d: Dma, sel: nat, k: nat)
    requires sel < |d.chs| && WellFormed(d)
    ensures Beats(d, sel, k).intMask == d.intMask && Beats(d, sel, k).enable == d.enable
    decreases k
  {
    hide BusOk, Move, Finish, Fail, WellFormedChannel;
    WellFormedParts(d);
    if k > 0 {
      FailKeepsMask(d, sel);
      FailKeepsMask(Put(d, sel, d.chs[sel].(abortPending := false)), sel);
      if BusOk(d, d.chs[sel]) {
        MoveKeepsRange(d, sel);
        MoveKeepsMask(d, sel);
        FinishKeepsMask(Move(d, sel), sel);
        BeatsKeepMask(Move(d, sel), sel, k - 1);
      }
    }
  }

  lemma FailKeepsMask(d: Dma, sel: nat)
    requires sel < |d.chs|
    ensures Fail(d, sel).intMask == d.intMask && Fail(d, sel).enable == d.enable
  {
    hide UpdateIrqs;
  }

  lemma MoveKeepsMask(d: Dma, sel: nat)
    requires sel < |d.chs| && WellFormedChannelRange(d.chs[sel]) && BusOk(d, d.chs[sel])
    ensures Move(d, sel).intMask == d.intMask && Move(d, sel).enable == d.enable
  {
    hide UpdateIrqs, CopyBytes, MovedChannel, HalfFires;
  }

  lemma FinishKeepsMask(d: Dma, sel: nat)
    requires sel < |d.chs|
    ensures Finish(d, sel).intMask == d.intMask && Finish(d, sel).enable == d.enable
  {
    hide UpdateIrqs, StartChannel;
  }

  /** EN changes only when GLOBAL_CTRL is written, and a write with RST clears it. */
  lemma EnableIff(d: Dma, e: Event)
    requires WellFormed(d) && LegalEvent(e)
    ensures Step(d, e).enable <==>
      if e.Register? && e.cmd.WriteCmd? && e.len == 4 && e.addr == 0x00C
      then Flag(e.data, 0x1) && !Flag(e.data, 0x2)
      else d.enable
  {
    hide Written, UpdateIrqs, Flag, Choose, Beats, BitsOf;
    if e.Engine? {
      EngineIsStep(d);
      EngineIsBurst(d);
      if Selected(d) < |d.chs| {
        BeatsKeepMask(Arbitrated(d), Selected(d), BeatCount(d.chs[Selected(d)]));
      }
    }
  }

  /** The line of a channel after an event, from an exact state: up exactly if one of its three
      bits is set and unmasked afterwards. */
  lemma LineIff(d: Dma, e: Event, c: nat)
    requires WellFormed(d) && IrqExact(d) && LegalEvent(e) && c < |d.chs|
    ensures |Step(d, e).irq| == |d.chs|
    ensures Step(d, e).irq[c] <==>
      exists b :: 3 * c <= b < 3 * c + 3 && StandsAfter(d, e, b) && b !in Step(d, e).intMask
    ensures Step(d, e).irq[c] ==> Step(d, e).irqGlobal
  {
    hide Step, Sets, WellFormed;
    StepKeepsIrqExact(d, e);
    forall b: nat
      ensures b in Step(d, e).intStatus <==> StandsAfter(d, e, b)
    {
      StatusBitIff(d, e, b);
    }
  }

  ghost predicate StandsAfter(d: Dma, e: Event, b: nat)
    requires WellFormed(d)
  {
    Sets(d, e, b) || (b in d.intStatus && !Acknowledges(e, b) && !IsReset(e))
  }

  // ---------- Whole runs ----------

  ghost predicate LegalEvents(es: seq<Event>) {
    forall k :: 0 <= k < |es| ==> LegalEvent(es[k])
  }

  /** Event `k` of the run sets bit `b` in the state it meets. */
  ghost predicate SetAt(d: Dma, es: seq<Event>, k: nat, b: nat)
    requires WellFormed(d) && LegalEvents(es) && k < |es|
  {
    Sets(Run(d, es[..k]), es[k], b)
  }

  ghost predicate NotClearedFrom(es: seq<Event>, k: nat, b: nat) {
    forall j :: k <= j < |es| ==> !Acknowledges(es[j], b) && !IsReset(es[j])
  }

  ghost predicate SetAndNotCleared(d: Dma, es: seq<Event>, b: nat)
    requires WellFormed(d) && LegalEvents(es)
  {
    exists k :: 0 <= k < |es| && SetAt(d, es, k, b) && NotClearedFrom(es, k + 1, b)
  }

  /** Interrupt status is sticky and loses nothing: over any run a bit is set exactly if some event
      set it (the end of an iteration, a half event, a failed burst, an abort of a suspended
      channel), or it was set to begin with, and since then no one was written to it and no reset
      came. */
  lemma {:induction false} StatusIsSticky(d: Dma, es: seq<Event>, b: nat)
    requires WellFormed(d) && LegalEvents(es)
    ensures b in Run(d, es).intStatus <==>
      SetAndNotCleared(d, es, b) || (b in d.intStatus && NotClearedFrom(es, 0, b))
    decreases |es|
  {
    hide Step, WellFormed, Sets, Acknowledges, IsReset, LegalEvent, SetAndNotCleared;
    if es == [] {
      NothingSet(d, b);
    } else {
      var front, last := es[..|es| - 1], es[|es| - 1];
      assert es == front + [last];
      RunAppend(d, front, last);
      StatusBitIff(Run(d, front), last, b);
      StatusIsSticky(d, front, b);
      SplitLast(d, es, b);
    }
  }

  lemma NothingSet(d: Dma, b: nat)
    requires WellFormed(d)
    ensures Run(d, []) == d && !SetAndNotCleared(d, [], b)
  {}

  lemma SplitLast(d: Dma, es: seq<Event>, b: nat)
    requires WellFormed(d) && LegalEvents(es) && es != []
    ensures var front, last := es[..|es| - 1], es[|es| - 1];
      var cleared := Acknowledges(last, b) || IsReset(last);
      && (SetAndNotCleared(d, es, b) <==>
           Sets(Run(d, front), last, b) || (SetAndNotCleared(d, front, b) && !cleared))
      && (NotClearedFrom(es, 0, b) <==> NotClearedFrom(front, 0, b) && !cleared)
  {
    hide WellFormed, Sets, Acknowledges, IsReset, LegalEvent, Run, SetAt, NotClearedFrom;
    var n := |es| - 1;
    var front, last := es[..n], es[n];
    forall k: nat | k < n
      ensures SetAt(d, es, k, b) <==> SetAt(d, front, k, b)
      ensures NotClearedFrom(es, k + 1, b) <==>
        NotClearedFrom(front, k + 1, b) && !(Acknowledges(last, b) || IsReset(last))
    {
      SetAtPrefix(d, es, k, b);
      ClearedSplit(es, k + 1, b);
    }
    ClearedSplit(es, 0, b);
    SetAtLast(d, es, b);
    if Sets(Run(d, front), last, b) {
      assert SetAt(d, es, n, b) && NotClearedFrom(es, n + 1, b);
    }
    if SetAndNotCleared(d, front, b) && !(Acknowledges(last, b) || IsReset(last)) {
      var k :| 0 <= k < |front| && SetAt(d, front, k, b) && NotClearedFrom(front, k + 1, b);
      assert SetAt(d, es, k, b) && NotClearedFrom(es, k + 1, b);
    }
  }

  lemma SetAtPrefix(d: Dma, es: seq<Event>, k: nat, b: nat)
    requires WellFormed(d) && LegalEvents(es) && k + 1 < |es|
    ensures SetAt(d, es, k, b) <==> SetAt(d, es[..|es| - 1], k, b)
  {
    hide WellFormed, Sets, LegalEvent, Run;
    assert es[..k] == es[..|es| - 1][..k];
  }

  lemma SetAtLast(d: Dma, es: seq<Event>, b: nat)
    requires WellFormed(d) && LegalEvents(es) && es != []
    ensures SetAt(d, es, |es| - 1, b) <==> Sets(Run(d, es[..|es| - 1]), es[|es| - 1], b)
    ensures NotClearedFrom(es, |es|, b)
  {
    hide WellFormed, Sets, LegalEvent, Run;
  }

  lemma ClearedSplit(es: seq<Event>, k: nat, b: nat)
    requires k < |es|
    ensures NotClearedFrom(es, k, b) <==>
      NotClearedFrom(es[..|es| - 1], k, b) && !Acknowledges(es[|es| - 1], b) && !IsReset(es[|es| - 1])
  {
    hide Acknowledges, IsReset;
    var front := es[..|es| - 1];
    if NotClearedFrom(front, k, b) {
      forall j | k <= j < |es| - 1
        ensures !Acknowledges(es[j], b) && !IsReset(es[j])
      {
        assert es[j] == front[j];
      }
    }
  }
}

/** Whole runs of the DMA controller: the bytes of every iteration are accounted for at every moment,
one half event and exactly `size` bytes per iteration, the safety of abort and pause, and how
ERROR is left. */
module DmaRuns {
  import opened Prelude
  import opened Words
  import opened DmaState
  import opened DmaInvariants
  import opened DmaConservation

  ghost function Run(d: Dma, es: seq<Event>): (r: Dma)
    requires WellFormed(d) && forall k :: 0 <= k < |es| ==> LegalEvent(es[k])
    ensures WellFormed(r) && |r.chs| == |d.chs| && r.mem.Keys == d.mem.Keys
    decreases |es|
  {
    if es == [] then d
    else
      StepKeepsWellFormed(d, es[0]);
      Run(Step(d, es[0]), es[1..])
  }

  lemma ResetStateIsConserved(n: nat, mem: map<nat, Byte>)
    requires 1 <= n <= 10
    ensures Conserved(Reset(n, mem)) && IrqExact(Reset(n, mem))
  {}

  lemma {:induction false} RunAppend(d: Dma, es: seq<Event>, e: Event)
    requires WellFormed(d) && LegalEvent(e) && forall k :: 0 <= k < |es| ==> LegalEvent(es[k])
    ensures Run(d, es + [e]) == Step(Run(d, es), e)
    decreases |es|
  {
    hide Step, WellFormed;
    if es == [] {
      StepKeepsWellFormed(d, e);
      assert ([] + [e])[1..] == [];
    } else {
      StepKeepsWellFormed(d, es[0]);
      RunAppend(Step(d, es[0]), es[1..], e);
      assert (es + [e])[0] == es[0] && (es + [e])[1..] == es[1..] + [e];
    }
  }

  /** No run leaves an interrupt line stale. */
  lemma {:induction false} RunKeepsIrqExact(d: Dma, es: seq<Event>)
    requires WellFormed(d) && IrqExact(d) && forall k :: 0 <= k < |es| ==> LegalEvent(es[k])
    ensures IrqExact(Run(d, es))
    decreases |es|
  {
    hide Step, IrqExact, WellFormed;
    if es != [] {
      StepKeepsWellFormed(d, es[0]);
      StepKeepsIrqExact(d, es[0]);
      RunKeepsIrqExact(Step(d, es[0]), es[1..]);
    }
  }

  /** Every size write to a suspended channel during the run is a multiple of the width and
      exceeds the bytes already moved. */
  ghost predicate ResizesWellAll(d: Dma, es: seq<Event>)
    requires Conserved(d) && forall k :: 0 <= k < |es| ==> LegalEvent(es[k])
    decreases |es|
  {
    es == [] || (
      ResizesWell(d, es[0]) &&
      (ConservedIff(d, es[0]); ResizesWellAll(Step(d, es[0]), es[1..])))
  }

  lemma {:induction false} RunKeepsConserved(d: Dma, es: seq<Event>)
    requires Conserved(d) && (forall k :: 0 <= k < |es| ==> LegalEvent(es[k])) && ResizesWellAll(d, es)
    ensures Conserved(Run(d, es))
    decreases |es|
  {
    hide Step, Conserved, ResizesWell;
    ConservedIsWellFormed(d);
    if es != [] {
      ConservedIff(d, es[0]);
      RunKeepsConserved(Step(d, es[0]), es[1..]);
    }
  }

  // ---------- The bytes of an iteration ----------

  ghost function MovedIn(d: Dma, e: Event, c: nat): nat
    requires WellFormed(d)
  {
    if Bursts(d, e, c) then MovedBytes(Arbitrated(d), c, BeatCount(d.chs[c])) else 0
  }

  ghost function HalvesIn(d: Dma, e: Event, c: nat): nat
    requires WellFormed(d)
  {
    if Bursts(d, e, c) then HalfEvents(Arbitrated(d), c, BeatCount(d.chs[c])) else 0
  }

  ghost predicate FinishesIn(d: Dma, e: Event, c: nat)
    requires WellFormed(d)
  {
    Bursts(d, e, c) && Finishes(Arbitrated(d), c, BeatCount(d.chs[c]))
  }

  /** The bytes channel `c` has moved in its current iteration, kept from event to event: counted
      while it is active, back to nothing when the iteration ends. */
  ghost function Tally(d: Dma, e: Event, c: nat, t: nat): nat
    requires WellFormed(d) && c < |d.chs|
  {
    if !Active(d.chs[c]) || FinishesIn(d, e, c) then 0 else t + MovedIn(d, e, c)
  }

  ghost function TallyAll(d: Dma, es: seq<Event>, c: nat, t: nat): nat
    requires WellFormed(d) && c < |d.chs| && forall k :: 0 <= k < |es| ==> LegalEvent(es[k])
    decreases |es|
  {
    if es == [] then t
    else
      StepKeepsWellFormed(d, es[0]);
      TallyAll(Step(d, es[0]), es[1..], c, Tally(d, es[0], c, t))
  }

  /** An active channel has moved `t` bytes of its current iteration. */
  ghost predicate Accounts(ch: Channel, t: nat) {
    Active(ch) ==> ch.size - ch.remaining == t
  }

  lemma TallyStep(d: Dma, e: Event, c: nat, t: nat)
    requires Conserved(d) && c < |d.chs| && LegalEvent(e) && ResizesWell(d, e) && Accounts(d.chs[c], t)
    ensures Accounts(Step(d, e).chs[c], Tally(d, e, c, t))
  {
    hide Beats, Finishes, HalfEvents, MovedBytes, Selected, Arbitrated, EngineStep, Written, StartChannel, LinkFires;
    if e.Engine? {
      EngineIsStep(d);
      SelectedRuns(d);
      if Bursts(d, e, c) {
        EngineOnSelected(d, c);
        var d1, k := Arbitrated(d), BeatCount(d.chs[c]);
        BurstAccounts(d1, c, k);
        if Finishes(d1, c, k) {
          FinishedBurst(d1, c, k);
        }
      } else {
        EngineOnOther(d, c);
        if !Active(d.chs[c]) {
          LinkStartIsFresh(d.chs[c], d.enable);
        }
      }
    } else {
      RegisterTally(d, e, c, t);
    }
  }

  lemma RegisterTally(d: Dma, e: Event, c: nat, t: nat)
    requires Conserved(d) && c < |d.chs| && LegalEvent(e) && e.Register? && ResizesWell(d, e) && Accounts(d.chs[c], t)
    ensures Accounts(Step(d, e).chs[c], if Active(d.chs[c]) then t else 0)
  {
    hide Step, Flag, Written, Fresh;
    RegisterStep(d, e, c);
    var ch := d.chs[c];
    if off: nat :| WritesAt(d, e, c, off) {
      RegisterEffect(ch, off, e.data, d.enable);
      if Reprograms(ch, off) && off == 0x08 {
        assert ResizesAt(d, e, c);
        SizeWrite(ch, e.data, d.enable);
      } else if Reprograms(ch, off) {
        AddressWrites(ch, off, e.data, d.enable);
      } else if Active(Written(ch, off, e.data, d.enable).ch) && !Active(ch) {
        FreshAtStart(Written(ch, off, e.data, d.enable).ch);
      }
    }
  }

  lemma FreshAtStart(ch: Channel)
    requires Fresh(ch)
    ensures ch.remaining == ch.size
  {}

  lemma SizeWrite(ch: Channel, w: nat, enable: bool)
    requires WellFormedChannel(ch) && ch.state == Suspended && Sound(ch) && ResizeOk(ch, SizeOf(w))
    ensures var r := Written(ch, 0x08, w, enable).ch;
      r.size - r.remaining == ch.size - ch.remaining
  {
    ResizeSoundIff(ch, SizeOf(w));
    assert Written(ch, 0x08, w, enable).ch == Resize(ch, SizeOf(w));
  }

  lemma AddressWrites(ch: Channel, off: nat, w: nat, enable: bool)
    requires Reprograms(ch, off) && off != 0x08
    ensures var r := Written(ch, off, w, enable).ch;
      r.remaining == ch.remaining && r.size == ch.size && r.half == ch.half
  {}

  /** Conservation over every run: whatever the register traffic, resets, links, errors, pauses
      and good resizes, at every moment an active channel's size minus what it has left is
      exactly the number of bytes it has moved in its current iteration. */
  lemma {:induction false} BytesAreAccounted(d: Dma, es: seq<Event>, c: nat, t: nat)
    requires Conserved(d) && c < |d.chs| && (forall k :: 0 <= k < |es| ==> LegalEvent(es[k])) && ResizesWellAll(d, es)
    requires Accounts(d.chs[c], t)
    ensures Conserved(Run(d, es)) && Accounts(Run(d, es).chs[c], TallyAll(d, es, c, t))
    decreases |es|
  {
    hide Step, Conserved, ResizesWell, Accounts, Tally;
    ConservedIsWellFormed(d);
    if es != [] {
      ConservedIff(d, es[0]);
      TallyStep(d, es[0], c, t);
      BytesAreAccounted(Step(d, es[0]), es[1..], c, Tally(d, es[0], c, t));
    }
  }

  /** The same from reset, with the ranges spelled out. */
  lemma ConservationFromReset(n: nat, mem: map<nat, Byte>, es: seq<Event>, c: nat)
    requires 1 <= n <= 10 && c < n && forall k :: 0 <= k < |es| ==> LegalEvent(es[k])
    requires (ResetStateIsConserved(n, mem); ResizesWellAll(Reset(n, mem), es))
    ensures var ch := Run(Reset(n, mem), es).chs[c];
      Active(ch) ==>
        && ch.ctrl.width != 3 && ch.size % WidthOf(ch) == 0 && ch.remaining % WidthOf(ch) == 0
        && 0 < ch.remaining <= ch.size <= 65536
        && ch.size - ch.remaining == TallyAll(Reset(n, mem), es, c, 0)
    ensures IrqExact(Run(Reset(n, mem), es))
  {
    hide Run, ResizesWellAll, TallyAll, IrqExact;
    ResetStateIsConserved(n, mem);
    BytesAreAccounted(Reset(n, mem), es, c, 0);
    RunKeepsIrqExact(Reset(n, mem), es);
  }

  ghost function MovedAll(d: Dma, es: seq<Event>, c: nat): nat
    requires WellFormed(d) && forall k :: 0 <= k < |es| ==> LegalEvent(es[k])
    decreases |es|
  {
    if es == [] then 0
    else
      StepKeepsWellFormed(d, es[0]);
      MovedIn(d, es[0], c) + MovedAll(Step(d, es[0]), es[1..], c)
  }

  ghost function HalvesAll(d: Dma, es: seq<Event>, c: nat): nat
    requires WellFormed(d) && forall k :: 0 <= k < |es| ==> LegalEvent(es[k])
    decreases |es|
  {
    if es == [] then 0
    else
      StepKeepsWellFormed(d, es[0]);
      HalvesIn(d, es[0], c) + HalvesAll(Step(d, es[0]), es[1..], c)
  }

  /** Channel `c` is active throughout the run and no event of it ends the iteration; it may be
      paused, resumed and resized. */
  ghost predicate Underway(d: Dma, es: seq<Event>, c: nat)
    requires WellFormed(d) && c < |d.chs| && forall k :: 0 <= k < |es| ==> LegalEvent(es[k])
    decreases |es|
  {
    Active(d.chs[c]) && (es == [] ||
      (!FinishesIn(d, es[0], c) && (StepKeepsWellFormed(d, es[0]); Underway(Step(d, es[0]), es[1..], c))))
  }

  lemma {:induction false} TallyIsMoved(d: Dma, es: seq<Event>, c: nat, t: nat)
    requires WellFormed(d) && c < |d.chs| && (forall k :: 0 <= k < |es| ==> LegalEvent(es[k])) && Underway(d, es, c)
    ensures TallyAll(d, es, c, t) == t + MovedAll(d, es, c) && Active(Run(d, es).chs[c])
    decreases |es|
  {
    hide Step, WellFormed, FinishesIn, MovedIn;
    if es != [] {
      StepKeepsWellFormed(d, es[0]);
      TallyIsMoved(Step(d, es[0]), es[1..], c, Tally(d, es[0], c, t));
    }
  }

  /** What an unfinished iteration has moved is what has left `remaining`, however it is cut into
      bursts, paused, resumed, resized and interleaved with the other channels. */
  lemma UnfinishedRunAccounts(d: Dma, es: seq<Event>, c: nat)
    requires Conserved(d) && c < |d.chs| && (forall k :: 0 <= k < |es| ==> LegalEvent(es[k])) && ResizesWellAll(d, es)
    requires Underway(d, es, c)
    ensures var ch, r := d.chs[c], Run(d, es).chs[c];
      r.size - r.remaining == (ch.size - ch.remaining) + MovedAll(d, es, c)
    ensures Conserved(Run(d, es)) && Active(Run(d, es).chs[c])
  {
    hide Run, ResizesWellAll, TallyAll, MovedAll;
    var t := d.chs[c].size - d.chs[c].remaining;
    BytesAreAccounted(d, es, c, t);
    TallyIsMoved(d, es, c, t);
  }

  // ---------- One iteration ----------

  /** The run ends with the event that finishes the iteration channel `c` is in. */
  ghost predicate Iteration(d: Dma, es: seq<Event>, c: nat)
    requires WellFormed(d) && c < |d.chs| && forall k :: 0 <= k < |es| ==> LegalEvent(es[k])
  {
    es != [] && Underway(d, es[..|es| - 1], c) && FinishesIn(Run(d, es[..|es| - 1]), es[|es| - 1], c)
  }

  /** No event of the run rewrites the size of channel `c`. */
  ghost predicate NotResized(d: Dma, es: seq<Event>, c: nat)
    requires WellFormed(d) && c < |d.chs| && forall k :: 0 <= k < |es| ==> LegalEvent(es[k])
    decreases |es|
  {
    es == [] || (!ResizesAt(d, es[0], c) && (StepKeepsWellFormed(d, es[0]); NotResized(Step(d, es[0]), es[1..], c)))
  }

  lemma {:induction false} LastEvent(d: Dma, es: seq<Event>, c: nat)
    requires WellFormed(d) && c < |d.chs| && (forall k :: 0 <= k < |es| ==> LegalEvent(es[k])) && es != []
    ensures var front, last := es[..|es| - 1], es[|es| - 1];
      && MovedAll(d, es, c) == MovedAll(d, front, c) + MovedIn(Run(d, front), last, c)
      && HalvesAll(d, es, c) == HalvesAll(d, front, c) + HalvesIn(Run(d, front), last, c)
      && (NotResized(d, es, c) ==> NotResized(d, front, c))
    decreases |es|
  {
    hide Step, WellFormed, MovedIn, HalvesIn;
    if |es| == 1 {
      assert es[..0] == [] && es[1..] == [];
    } else {
      StepKeepsWellFormed(d, es[0]);
      LastEvent(Step(d, es[0]), es[1..], c);
      assert es[..|es| - 1][1..] == es[1..][..|es| - 2];
    }
  }

  lemma {:induction false} FrontResizesWell(d: Dma, es: seq<Event>)
    requires Conserved(d) && (forall k :: 0 <= k < |es| ==> LegalEvent(es[k])) && es != [] && ResizesWellAll(d, es)
    ensures ResizesWellAll(d, es[..|es| - 1])
    decreases |es|
  {
    hide Step, Conserved, ResizesWell;
    ConservedIsWellFormed(d);
    if |es| > 1 {
      ConservedIff(d, es[0]);
      FrontResizesWell(Step(d, es[0]), es[1..]);
      assert es[..|es| - 1][1..] == es[1..][..|es| - 2];
    }
  }

  /** One event within an iteration: a half event is raised exactly when the flag goes up, and
      the event that finishes the iteration finds or puts it up. */
  lemma HalvesStep(d: Dma, e: Event, c: nat)
    requires WellFormed(d) && c < |d.chs| && LegalEvent(e) && Active(d.chs[c]) && Sound(d.chs[c])
    ensures FinishesIn(d, e, c) ==>
      MovedIn(d, e, c) == d.chs[c].remaining && HalvesIn(d, e, c) + One(d.chs[c].half) == 1
    ensures !FinishesIn(d, e, c) && Active(Step(d, e).chs[c]) ==>
      HalvesIn(d, e, c) + One(d.chs[c].half) == One(Step(d, e).chs[c].half)
  {
    hide Beats, Finishes, HalfEvents, MovedBytes, Selected, Arbitrated, EngineStep, Written, LinkFires;
    if e.Engine? {
      EngineIsStep(d);
      if Bursts(d, e, c) {
        EngineOnSelected(d, c);
        BurstAccounts(Arbitrated(d), c, BeatCount(d.chs[c]));
      } else {
        SelectedRuns(d);
        EngineOnOther(d, c);
      }
    } else {
      RegisterKeepsHalf(d, e, c);
    }
  }

  /** No register write touches the half flag of an active channel. */
  lemma RegisterKeepsHalf(d: Dma, e: Event, c: nat)
    requires WellFormed(d) && c < |d.chs| && LegalEvent(e) && e.Register? && Active(d.chs[c])
    ensures var r := Step(d, e).chs[c];
      Active(r) ==> r.half == d.chs[c].half
  {
    hide Step, Flag, Written;
    RegisterStep(d, e, c);
    if off: nat :| WritesAt(d, e, c, off) {
      RegisterEffect(d.chs[c], off, e.data, d.enable);
      if Reprograms(d.chs[c], off) {
        SuspendedWrites(d.chs[c], off, e.data, d.enable);
      }
    }
  }

  lemma SuspendedWrites(ch: Channel, off: nat, w: nat, enable: bool)
    requires Reprograms(ch, off)
    ensures Written(ch, off, w, enable).ch.half == ch.half
  {}

  lemma {:induction false} HalvesAccount(d: Dma, es: seq<Event>, c: nat)
    requires Conserved(d) && c < |d.chs| && (forall k :: 0 <= k < |es| ==> LegalEvent(es[k])) && ResizesWellAll(d, es)
    requires Underway(d, es, c)
    ensures HalvesAll(d, es, c) + One(d.chs[c].half) == One(Run(d, es).chs[c].half)
    decreases |es|
  {
    hide Step, Conserved, ResizesWell, FinishesIn, HalvesIn, Active;
    ConservedIsWellFormed(d);
    if es != [] {
      ConservedIff(d, es[0]);
      ConservedIsWellFormed(Step(d, es[0]));
      AllSound(d, c);
      HalvesStep(d, es[0], c);
      UnderwayIsActive(Step(d, es[0]), es[1..], c);
      HalvesAccount(Step(d, es[0]), es[1..], c);
    }
  }

  lemma AllSound(d: Dma, c: nat)
    requires Conserved(d) && c < |d.chs|
    ensures Sound(d.chs[c])
  {}

  lemma UnderwayIsActive(d: Dma, es: seq<Event>, c: nat)
    requires WellFormed(d) && c < |d.chs| && (forall k :: 0 <= k < |es| ==> LegalEvent(es[k])) && Underway(d, es, c)
    ensures Active(d.chs[c])
  {}

  /** One event that does not rewrite the size leaves the half flag exact. */
  lemma HalfExactStep(d: Dma, e: Event, c: nat)
    requires WellFormed(d) && c < |d.chs| && LegalEvent(e) && Active(d.chs[c]) && Sound(d.chs[c])
    requires HalfOk(d.chs[c]) && !ResizesAt(d, e, c) && !FinishesIn(d, e, c)
    ensures var r := Step(d, e).chs[c];
      Active(r) ==> HalfOk(r) && r.size == d.chs[c].size
  {
    hide Beats, Finishes, HalfEvents, MovedBytes, Selected, Arbitrated, EngineStep, Written, LinkFires;
    if e.Engine? {
      EngineIsStep(d);
      if Bursts(d, e, c) {
        EngineOnSelected(d, c);
        BurstAccounts(Arbitrated(d), c, BeatCount(d.chs[c]));
        HalfStaysExact(Arbitrated(d), c, BeatCount(d.chs[c]));
      } else {
        SelectedRuns(d);
        EngineOnOther(d, c);
      }
    } else {
      RegisterOnActive(d, e, c);
    }
  }

  /** Register traffic leaves an active transfer where it stands, or stops it. */
  lemma RegisterOnActive(d: Dma, e: Event, c: nat)
    requires WellFormed(d) && c < |d.chs| && LegalEvent(e) && e.Register?
    requires Active(d.chs[c]) && !ResizesAt(d, e, c)
    ensures var ch, r := d.chs[c], Step(d, e).chs[c];
      Active(r) ==> r.remaining == ch.remaining && r.size == ch.size && r.half == ch.half
  {
    hide Step, Flag, Written;
    RegisterStep(d, e, c);
    if off: nat :| WritesAt(d, e, c, off) {
      RegisterEffect(d.chs[c], off, e.data, d.enable);
      if Reprograms(d.chs[c], off) {
        AddressWrites(d.chs[c], off, e.data, d.enable);
      }
    }
  }

  /** Absent size writes, all through an iteration the half flag is up exactly while half of the
      size or less is left. */
  lemma {:induction false} HalfFlagIsExact(d: Dma, es: seq<Event>, c: nat)
    requires Conserved(d) && c < |d.chs| && (forall k :: 0 <= k < |es| ==> LegalEvent(es[k])) && ResizesWellAll(d, es)
    requires Underway(d, es, c) && NotResized(d, es, c) && HalfOk(d.chs[c])
    ensures HalfOk(Run(d, es).chs[c]) && Run(d, es).chs[c].size == d.chs[c].size
    decreases |es|
  {
    hide Step, Conserved, ResizesWell, HalfOk, FinishesIn, Active, ResizesAt;
    ConservedIsWellFormed(d);
    if es != [] {
      ConservedIff(d, es[0]);
      ConservedIsWellFormed(Step(d, es[0]));
      AllSound(d, c);
      HalfExactStep(d, es[0], c);
      UnderwayIsActive(Step(d, es[0]), es[1..], c);
      HalfFlagIsExact(Step(d, es[0]), es[1..], c);
    }
  }

  /** Every iteration, from its first byte to its end, raises exactly one half event and moves
      exactly as many bytes as its size register holds at the end, however it is cut into bursts,
      paused, resumed, resized, reprioritized and interleaved. */
  lemma IterationMovesSizeAndHalvesOnce(d: Dma, es: seq<Event>, c: nat)
    requires Conserved(d) && c < |d.chs| && (forall k :: 0 <= k < |es| ==> LegalEvent(es[k])) && ResizesWellAll(d, es)
    requires Iteration(d, es, c) && AtFirstByte(d.chs[c])
    ensures HalvesAll(d, es, c) == 1
    ensures MovedAll(d, es, c) == Run(d, es[..|es| - 1]).chs[c].size
    ensures NotResized(d, es, c) ==> MovedAll(d, es, c) == d.chs[c].size
  {
    hide Run, ResizesWellAll, MovedAll, HalvesAll, Underway, NotResized;
    hide MovedBytes, HalfEvents, Finishes, Selected, Arbitrated, Beats;
    var front, last := es[..|es| - 1], es[|es| - 1];
    FrontResizesWell(d, es);
    UnfinishedRunAccounts(d, front, c);
    HalvesAccount(d, front, c);
    LastEvent(d, es, c);
    HalvesStep(Run(d, front), last, c);
    if NotResized(d, es, c) {
      HalfFlagIsExact(d, front, c);
    }
  }

  /** The data registers of a channel that is free to be programmed read back what was written
      to them, within their widths, and leave each other alone. */
  lemma DataRegistersReadBack(ch: Channel, off: nat, off': nat, w: nat, enable: bool)
    requires (ch.state == Idle || ch.state == Configured) && w < WORD_RANGE
    requires off in {0x00, 0x04, 0x08, 0x10, 0x28} && off' in {0x00, 0x04, 0x08, 0x0C, 0x10, 0x28}
    ensures var r := Written(ch, off, w, enable).ch;
      ReadChannel(r, off') ==
        if off' != off then ReadChannel(ch, off')
        else if off == 0x08 then SizeOf(w)
        else if off == 0x10 then w % 16
        else if off == 0x28 then w / 0x80 % 2 * 0x80 + w % 4
        else w
  {}

  // ---------- Abort and pause ----------

  /** No byte of the channel's transfer may move any more: it is inactive, or running with an
      accepted abort. */
  ghost predicate Halted(ch: Channel) {
    !Active(ch) || (ch.state == Running && ch.abortPending)
  }

  /** Event `e` starts channel `c`. */
  ghost predicate StartsIn(d: Dma, e: Event, c: nat)
    requires WellFormed(d) && c < |d.chs|
  {
    !Active(d.chs[c]) && Active(Step(d, e).chs[c])
  }

  ghost predicate SamePlace(a: Channel, b: Channel) {
    a.currSrc == b.currSrc && a.currDst == b.currDst && a.remaining == b.remaining
  }

  /** An abort is accepted by every active channel: a suspended one errors at once, a running one
      is halted. */
  lemma AbortHalts(d: Dma, c: nat, w: nat)
    requires WellFormed(d) && c < |d.chs| && c < 4 && w < WORD_RANGE && Flag(w, 0x10)
    ensures var r := Step(d, Register(WriteCmd, 0x100 + 0x40 * c + 0x0C, 4, w)).chs[c];
      Active(d.chs[c]) ==> Halted(r) && SamePlace(d.chs[c], r)
  {
    hide Written, WriteGlobal;
    assert WriteReg(d, 0x100 + 0x40 * c + 0x0C, w) == WriteChannel(d, c, 0x0C, w);
    if Active(d.chs[c]) {
      AbortWrite(d.chs[c], w, d.enable);
    }
  }

  lemma AbortWrite(ch: Channel, w: nat, enable: bool)
    requires Active(ch) && Flag(w, 0x10)
    ensures Halted(Written(ch, 0x0C, w, enable).ch) && SamePlace(ch, Written(ch, 0x0C, w, enable).ch)
  {
    hide Flag;
  }

  lemma HaltedStaysHalted(d: Dma, e: Event, c: nat)
    requires WellFormed(d) && c < |d.chs| && LegalEvent(e) && Halted(d.chs[c])
    requires !StartsIn(d, e, c) && !IsReset(e)
    ensures Halted(Step(d, e).chs[c]) && SamePlace(d.chs[c], Step(d, e).chs[c]) && MovedIn(d, e, c) == 0
  {
    hide Selected, Arbitrated, Written, EngineStep, StartChannel, LinkFires;
    if e.Engine? {
      EngineIsStep(d);
      SelectedRuns(d);
      if Bursts(d, e, c) {
        EngineOnSelected(d, c);
      } else {
        EngineOnOther(d, c);
        if !Active(d.chs[c]) {
          LinkStartIsFresh(d.chs[c], d.enable);
        }
      }
    } else {
      RegisterOnHalted(d, e, c);
    }
  }

  lemma RegisterOnHalted(d: Dma, e: Event, c: nat)
    requires WellFormed(d) && c < |d.chs| && LegalEvent(e) && e.Register? && Halted(d.chs[c])
    requires !StartsIn(d, e, c) && !IsReset(e)
    ensures Halted(Step(d, e).chs[c]) && SamePlace(d.chs[c], Step(d, e).chs[c])
  {
    hide Written, Step;
    RegisterStep(d, e, c);
    if off: nat :| WritesAt(d, e, c, off) {
      RegisterEffect(d.chs[c], off, e.data, d.enable);
    }
  }

  /** None of the events starts channel `c` or resets the controller. */
  ghost predicate LeftAlone(d: Dma, es: seq<Event>, c: nat)
    requires WellFormed(d) && c < |d.chs| && forall k :: 0 <= k < |es| ==> LegalEvent(es[k])
    decreases |es|
  {
    es == [] || (
      !StartsIn(d, es[0], c) && !IsReset(es[0]) &&
      (StepKeepsWellFormed(d, es[0]); LeftAlone(Step(d, es[0]), es[1..], c)))
  }

  /** Once an abort is accepted no further byte of that transfer moves, and its addresses and
      count stay frozen, until a successful start or a global reset. */
  lemma {:induction false} AbortIsFinal(d: Dma, es: seq<Event>, c: nat)
    requires WellFormed(d) && c < |d.chs| && forall k :: 0 <= k < |es| ==> LegalEvent(es[k])
    requires Halted(d.chs[c]) && LeftAlone(d, es, c)
    ensures Halted(Run(d, es).chs[c]) && SamePlace(d.chs[c], Run(d, es).chs[c])
    ensures MovedAll(d, es, c) == 0
    decreases |es|
  {
    hide Step, WellFormed, Halted, StartsIn, MovedIn;
    if es != [] {
      StepKeepsWellFormed(d, es[0]);
      HaltedStaysHalted(d, es[0], c);
      AbortIsFinal(Step(d, es[0]), es[1..], c);
    }
  }

  /** A channel becomes suspended only at the end of its own burst, with a pause pending and
      something left to move: completion wins over a pending pause. */
  lemma PauseOnlyAtBurstEnd(d: Dma, e: Event, c: nat)
    requires WellFormed(d) && c < |d.chs| && Sound(d.chs[c]) && LegalEvent(e)
    requires d.chs[c].state != Suspended && Step(d, e).chs[c].state == Suspended
    ensures Bursts(d, e, c) && d.chs[c].state == Running && d.chs[c].pausePending
    ensures Step(d, e).chs[c].remaining > 0
    ensures FinishesIn(d, e, c) ==> d.chs[c].ctrl.circular
  {
    hide Selected, Arbitrated, Written, EngineStep, StartChannel, Beats, Finishes;
    if e.Engine? {
      EngineIsStep(d);
      SelectedRuns(d);
      if Bursts(d, e, c) {
        EngineOnSelected(d, c);
        var d1, k := Arbitrated(d), BeatCount(d.chs[c]);
        BurstAccounts(d1, c, k);
        if Finishes(d1, c, k) {
          FinishedBurst(d1, c, k);
          PauseSurvivesWrap(d1, c, k);
        }
      } else {
        EngineOnOther(d, c);
        LinkStartIsFresh2(d.chs[c], d.enable);
      }
    } else {
      hide Step;
      RegisterStep(d, e, c);
      if off: nat :| WritesAt(d, e, c, off) {
        RegisterEffect(d.chs[c], off, e.data, d.enable);
      }
    }
  }

  lemma LinkStartIsFresh2(ch: Channel, enable: bool)
    requires !Active(ch)
    ensures StartChannel(ch, true, enable).state != Suspended
  {}

  lemma {:induction false} PauseSurvivesWrap(d: Dma, sel: nat, k: nat)
    requires WellFormed(d) && sel < |d.chs| && Sound(d.chs[sel]) && d.chs[sel].state == Running
    requires Finishes(d, sel, k)
    ensures var r := Beats(d, sel, k).chs[sel];
      r.state == Running && r.pausePending ==> d.chs[sel].pausePending && d.chs[sel].ctrl.circular
    decreases k
  {
    hide Finish, CopyBytes, MovedChannel, HalfFires, BusOk, StartChannel;
    MoveKeepsRange(d, sel);
    MovedChannelFacts(d.chs[sel]);
    var d1 := Move(d, sel);
    if d1.chs[sel].remaining != 0 {
      PauseSurvivesWrap(d1, sel, k - 1);
    } else {
      FinishOutcome(d1, sel);
      NoPauseAfterStart(d1.chs[sel].(state := Complete, pausePending := false), d.enable);
    }
  }

  lemma NoPauseAfterStart(ch: Channel, enable: bool)
    requires !ch.pausePending
    ensures !StartChannel(ch, true, enable).pausePending
  {}

  // ---------- Where the code departs from its specification ----------

  /** ERROR is left in exactly three ways: by CLR_ERR, by a global reset, and (which the
      specification does not mention) by the completion of a channel that is not circular and
      links to it, if its own registers pass the validation. */
  lemma ErrorIsLeftIff(d: Dma, e: Event, c: nat)
    requires WellFormed(d) && c < |d.chs| && LegalEvent(e) && d.chs[c].state == Error
    ensures Step(d, e).chs[c].state != Error <==>
      || IsReset(e)
      || (WritesAt(d, e, c, 0x0C) && Flag(e.data, 0x20))
      || (e.Engine? && LinkFires(d, c) && Startable(d.chs[c]))
  {
    hide LinkFires, Written, EngineStep, Selected, Startable;
    if e.Engine? {
      EngineIsStep(d);
      SelectedRuns(d);
      EngineOnOther(d, c);
      ErrorStart(d.chs[c], d.enable);
    } else {
      hide Step, Flag;
      RegisterStep(d, e, c);
      if off: nat :| WritesAt(d, e, c, off) {
        ErrorWrite(d.chs[c], off, e.data, d.enable);
      }
    }
  }

  lemma ErrorStart(ch: Channel, enable: bool)
    requires ch.state == Error
    ensures StartChannel(ch, true, enable).state == if Startable(ch) then Running else Error
  {}

  lemma ErrorWrite(ch: Channel, off: nat, w: nat, enable: bool)
    requires ch.state == Error
    ensures Written(ch, off, w, enable).ch.state != Error <==> off == 0x0C && Flag(w, 0x20)
  {
    hide Flag;
  }

  /** The specification says a size above 0x10000 is clamped; the code drops the top bit instead,
      so it agrees exactly for the sizes that need no clamping. */
  lemma SizeClampIff(w: nat)
    ensures SizeOf(w) == Min(w % 0x20000, 0x10000) <==> w % 0x20000 <= 0x10000
  {
    var v := w % 0x20000;
    if v > 0x10000 {
      assert v % 0x10000 == v - 0x10000;
    }
  }

  /** The specification says that a suspended transfer whose size is rewritten to no more than
      what has moved completes when it is resumed. Exactly when the write leaves less than one
      beat: when the new size does not exceed the bytes moved by at least the width. */
  lemma ResizeEmptiesIff(ch: Channel, w: nat, enable: bool)
    requires WellFormedChannel(ch) && ch.state == Suspended && Sound(ch)
    ensures var r := Written(ch, 0x08, w, enable).ch;
      && (r.remaining < WidthOf(ch) <==> SizeOf(w) < (ch.size - ch.remaining) + WidthOf(ch))
      && (r.remaining < WidthOf(ch) ==> r.remaining == 0)
      && r == ch.(size := r.size, remaining := r.remaining)
  {
    var moved := ch.size - ch.remaining;
    assert U32(moved) == moved && ToInt32(moved) == moved;
    RoundedDown(if SizeOf(w) <= moved then 0 else SizeOf(w) - moved, WidthOf(ch));
    assert Written(ch, 0x08, w, enable).ch == Resize(ch, SizeOf(w));
  }

  lemma RoundedDown(left: nat, w: nat)
    requires w in {1, 2, 4}
    ensures left / w * w < w <==> left < w
    ensures left / w * w < w ==> left / w * w == 0
  {
    match w
    case 1 =>
    case 2 => assert left / 2 * 2 < 2 <==> left < 2;
    case 4 => assert left / 4 * 4 < 4 <==> left < 4;
  }

  /** ... but the code has no check for an empty transfer: the beat wraps the unsigned count
      exactly when less than one beat was left. */
  lemma BeatUnderflowsIff(d: Dma, sel: nat)
    requires WellFormed(d) && sel < |d.chs| && BusOk(d, d.chs[sel])
    ensures Move(d, sel).chs[sel].remaining > d.chs[sel].remaining <==> d.chs[sel].remaining < WidthOf(d.chs[sel])
    ensures d.chs[sel].remaining < WidthOf(d.chs[sel]) ==>
      Move(d, sel).chs[sel].remaining == WORD_RANGE + d.chs[sel].remaining - WidthOf(d.chs[sel])
  {
    hide CopyBytes;
    var left := d.chs[sel].remaining - WidthOf(d.chs[sel]);
    assert left < 0 ==> U32(left) == left + WORD_RANGE;
  }

  /** A write to register `off` of channel `c`. */
  function WriteAt(c: nat, off: nat, w: nat): Event {
    Register(WriteCmd, 0x100 + 0x40 * c + off, 4, w)
  }

  lemma WriteAtStep(d: Dma, c: nat, off: nat, w: nat)
    requires WellFormed(d) && c < |d.chs| && c < 4 && off < 0x40 && off % 4 == 0 && w < WORD_RANGE
    ensures var r := Step(d, WriteAt(c, off, w));
      && WellFormed(r) && r.chs == d.chs[c := Written(d.chs[c], off, w, d.enable).ch]
      && r.enable == d.enable && r.mem == d.mem
  {
    hide Written, WriteGlobal;
    StepKeepsWellFormed(d, WriteAt(c, off, w));
    var a := 0x100 + 0x40 * c + off;
    assert a % 4 == 0 && (a - 0x100) / 0x40 == c && (a - 0x100) % 0x40 == off;
  }

  lemma ResumeWrite(ch: Channel, enable: bool)
    requires ch.state == Suspended
    ensures Written(ch, 0x0C, 0x8, enable).ch ==
      ch.(state := Running, pausePending := false, ctrl := ch.ctrl.(circular := false, prio := 0))
  {}

  /** Rewrite the size of channel `c` and resume it. */
  ghost function ResizedAndResumed(d: Dma, c: nat, w: nat): (r: Dma)
    requires WellFormed(d) && c < |d.chs| && c < 4 && w < WORD_RANGE
    ensures WellFormed(r) && |r.chs| == |d.chs|
  {
    Run(d, [WriteAt(c, 0x08, w), WriteAt(c, 0x0C, 0x8)])
  }

  lemma RunTwo(d: Dma, a: Event, b: Event)
    requires WellFormed(d) && LegalEvent(a) && LegalEvent(b)
    ensures WellFormed(Step(d, a)) && Run(d, [a, b]) == Step(Step(d, a), b)
  {
    hide Step, WellFormed;
    StepKeepsWellFormed(d, a);
    RunAppend(d, [], a);
    RunAppend(d, [a], b);
    assert [] + [a] == [a] && [a] + [b] == [a, b];
  }

  /** Exactly when a resized and resumed transfer goes wrong: after a size write and RESUME its
      first beat wraps the count, and the channel runs on instead of completing, if and only if
      the new size does not exceed the bytes moved by at least the width. */
  lemma ResumeUnderflowsIff(d: Dma, c: nat, w: nat)
    requires WellFormed(d) && c < |d.chs| && c < 4 && w < WORD_RANGE
    requires d.chs[c].state == Suspended && Sound(d.chs[c]) && !d.chs[c].abortPending && BusOk(d, d.chs[c])
    ensures var moved, width := d.chs[c].size - d.chs[c].remaining, WidthOf(d.chs[c]);
      var r := ResizedAndResumed(d, c, w);
      && r.chs[c].state == Running && BusOk(r, r.chs[c])
      && (Move(r, c).chs[c].remaining > r.chs[c].remaining <==> SizeOf(w) < moved + width)
      && (SizeOf(w) < moved + width ==>
           Burst(r, c).chs[c].state == Running && Burst(r, c).chs[c].remaining == WORD_RANGE - width)
  {
    hide Step, Written, Sound, Move, BusOk, Burst, Run;
    var ch := d.chs[c];
    RunTwo(d, WriteAt(c, 0x08, w), WriteAt(c, 0x0C, 0x8));
    WriteAtStep(d, c, 0x08, w);
    var d1 := Step(d, WriteAt(c, 0x08, w));
    ResizeEmptiesIff(ch, w, d.enable);
    WriteAtStep(d1, c, 0x0C, 0x8);
    ResumeWrite(d1.chs[c], d1.enable);
    var r := Step(d1, WriteAt(c, 0x0C, 0x8));
    SameBus(d, ch, r, r.chs[c]);
    BeatUnderflowsIff(r, c);
    if SizeOf(w) < (ch.size - ch.remaining) + WidthOf(ch) {
      EmptyBurst(r, c);
    }
  }

  lemma SameBus(d: Dma, a: Channel, r: Dma, b: Channel)
    requires BusOk(d, a) && r.mem == d.mem
    requires a.currSrc == b.currSrc && a.currDst == b.currDst && a.ctrl.width == b.ctrl.width
    ensures BusOk(r, b)
  {}

  /** The burst of a running channel with nothing left: one beat, and the channel runs on. */
  lemma EmptyBurst(d: Dma, c: nat)
    requires WellFormed(d) && c < |d.chs| && BusOk(d, d.chs[c]) && d.chs[c].state == Running
    requires d.chs[c].remaining == 0 && !d.chs[c].abortPending && !d.chs[c].pausePending
    ensures Burst(d, c).chs[c].state == Running && Burst(d, c).chs[c].remaining == WORD_RANGE - WidthOf(d.chs[c])
  {
    hide CopyBytes, BusOk, HalfFires;
    BeatUnderflowsIff(d, c);
    assert BeatCount(d.chs[c]) == 1;
    var d1 := Move(d, c);
    assert Beats(d1, c, 0) == d1;
  }

  /** The specification wants the half event when strictly less than half is left; the code
      raises it at half or less. The beat that raises it leaves strictly less than half exactly
      if half the size is not a multiple of the width; otherwise it leaves exactly half. */
  lemma HalfEventBelowHalfIff(ch: Channel)
    requires WellFormedChannel(ch) && Active(ch) && Sound(ch) && HalfOk(ch) && HalfFires(ch)
    ensures MovedChannel(ch).remaining < ch.size / 2 <==> (ch.size / 2) % WidthOf(ch) != 0
    ensures MovedChannel(ch).remaining <= ch.size / 2 < ch.remaining
  {
    MovedChannelFacts(ch);
    CrossesHalf(ch.size / 2, ch.remaining, WidthOf(ch));
  }

  lemma CrossesHalf(half: nat, remaining: nat, w: nat)
    requires w in {1, 2, 4} && remaining % w == 0 && remaining >= w && remaining - w <= half < remaining
    ensures remaining - w < half <==> half % w != 0
  {
    match w
    case 1 =>
    case 2 => assert remaining - 2 < half <==> half % 2 != 0;
    case 4 => assert remaining - 4 < half <==> half % 4 != 0;
  }
}

/** Concrete runs from reset in which the DMA controller departs from its specification: a link takes
a channel out of ERROR, and a resized and resumed transfer wraps its count instead of completing. */
module DmaWitness {
  import opened Prelude
  import opened Words
  import opened DmaState
  import opened DmaInvariants
  import opened DmaConservation
  import opened DmaRuns

  function EnableEvent(): Event {
    Register(WriteCmd, 0x00C, 4, 0x1)
  }

  lemma EnableStep(n: nat, mem: map<nat, Byte>)
    requires 1 <= n <= 10
    ensures var r := Step(Reset(n, mem), EnableEvent());
      WellFormed(Reset(n, mem)) && WellFormed(r) && r == Reset(n, mem).(enable := true)
  {}

  lemma OnlyRunner(d: Dma, c: nat)
    requires WellFormed(d) && c < |d.chs| && d.chs[c].state == Running
    requires forall i :: 0 <= i < |d.chs| && i != c ==> d.chs[i].state != Running
    ensures Selected(d) == c
  {
    hide Choose, TopBelow;
    var running, prio := RunningOf(d.chs), PrioOf(d.chs);
    assert running[c] && prio[c] < NO_LIMIT;
    SelectedRuns(d);
    ChooseFinds(d.arb, running, prio);
  }

  /** The burst of an aborted channel that runs alone. */
  lemma AbortedBurst(d: Dma, c: nat)
    requires WellFormed(d) && c < |d.chs| && d.chs[c].state == Running && d.chs[c].abortPending
    requires forall i :: 0 <= i < |d.chs| && i != c ==> d.chs[i].state != Running
    ensures var r := Step(d, Engine);
      && WellFormed(r) && r.enable == d.enable && r.mem == d.mem
      && r.chs == d.chs[c := d.chs[c].(state := Error, pausePending := false, abortPending := false)]
  {
    hide Choose, Selected, Arbitrated;
    OnlyRunner(d, c);
    StepKeepsWellFormed(d, Engine);
    EngineIsStep(d);
    EngineIsBurst(d);
  }

  // ---------- Single register writes ----------

  /** The control words used below have one action bit and no setting. */
  lemma ActionBits(w: nat)
    requires w in {0x1, 0x4, 0x10}
    ensures Flag(w, 0x1) == (w == 0x1) && Flag(w, 0x4) == (w == 0x4) && Flag(w, 0x10) == (w == 0x10)
    ensures !Flag(w, 0x2) && !Flag(w, 0x8) && !Flag(w, 0x20) && CtrlOf(w) == Ctrl(false, 0, 0, 0) && w / 0x400 % 4 == 0
  {}

  lemma SizeWriteIdle(ch: Channel, w: nat)
    requires ch.state == Idle && w <= 0x10000
    ensures Written(ch, 0x08, w, true).ch == ch.(state := Configured, size := w)
  {}

  lemma LinkWrite(ch: Channel, w: nat)
    requires ch.state == Configured
    ensures Written(ch, 0x28, w, true).ch == ch.(link := Link(Flag(w, 0x80), w % 4))
  {
    hide Flag;
  }

  lemma StartWrite(ch: Channel)
    requires ch.state == Configured && ch.ctrl == Ctrl(false, 0, 0, 0) && Startable(ch)
    ensures Written(ch, 0x0C, 0x1, true).ch == Loaded(ch)
  {
    ActionBits(0x1);
    hide Flag, CtrlOf;
  }

  lemma AbortWriteRunning(ch: Channel)
    requires ch.state == Running && ch.ctrl == Ctrl(false, 0, 0, 0)
    ensures Written(ch, 0x0C, 0x10, true).ch == ch.(abortPending := true)
  {
    ActionBits(0x10);
    hide Flag, CtrlOf;
  }

  lemma PauseWriteRunning(ch: Channel)
    requires ch.state == Running && ch.ctrl == Ctrl(false, 0, 0, 0)
    ensures Written(ch, 0x0C, 0x4, true).ch == ch.(pausePending := true)
  {
    ActionBits(0x4);
    hide Flag, CtrlOf;
  }

  // ---------- A link takes a channel out of ERROR ----------

  function Sized(): Channel {
    ResetChannel().(state := Configured, size := 1)
  }

  function JustStarted(): Channel {
    Sized().(state := Running, remaining := 1)
  }

  function Failed(): Channel {
    JustStarted().(state := Error)
  }

  function Linked(): Channel {
    Sized().(link := Link(true, 1))
  }

  lemma ChannelWrites()
    ensures Written(ResetChannel(), 0x08, 1, true).ch == Sized()
    ensures Written(Sized(), 0x0C, 0x1, true).ch == JustStarted()
    ensures Written(JustStarted(), 0x0C, 0x10, true).ch == JustStarted().(abortPending := true)
  {
    hide Written;
    SizeWriteIdle(ResetChannel(), 1);
    StartWrite(Sized());
    AbortWriteRunning(JustStarted());
  }

  lemma LinkWrites()
    ensures Written(Sized(), 0x28, 0x81, true).ch == Linked()
    ensures Written(Linked(), 0x0C, 0x1, true).ch == Linked().(state := Running, remaining := 1)
  {
    hide Written;
    LinkWrite(Sized(), 0x81);
    StartWrite(Linked());
  }

  /** Start channel 1, abort it, let its burst fail; then size, link and start channel 0. */
  function Revival(): seq<Event> {
    [EnableEvent(), WriteAt(1, 0x08, 1), WriteAt(1, 0x0C, 0x1), WriteAt(1, 0x0C, 0x10), Engine,
     WriteAt(0, 0x08, 1), WriteAt(0, 0x28, 0x81), WriteAt(0, 0x0C, 0x1)]
  }

  lemma RevivalIsLegal()
    ensures forall k :: 0 <= k < |Revival()| ==> LegalEvent(Revival()[k])
  {}

  lemma {:induction false} RunTo(d: Dma, es: seq<Event>, k: nat)
    requires WellFormed(d) && k < |es| && forall j :: 0 <= j < |es| ==> LegalEvent(es[j])
    ensures Run(d, es[..k + 1]) == Step(Run(d, es[..k]), es[k])
  {
    hide Step, WellFormed;
    RunAppend(d, es[..k], es[k]);
    assert es[..k + 1] == es[..k] + [es[k]];
  }

  lemma AfterAbort()
    ensures WellFormed(Reset(2, map[0 := 0])) && forall k :: 0 <= k < |Revival()| ==> LegalEvent(Revival()[k])
    ensures var r := Run(Reset(2, map[0 := 0]), Revival()[..5]);
      WellFormed(r) && r.chs == [ResetChannel(), Failed()] && r.mem == map[0 := 0] && r.enable
  {
    hide Step, Run, Written, Reset, Sized, JustStarted, Failed, Linked, ResetChannel;
    EnableStep(2, map[0 := 0]);
    RevivalIsLegal();
    ChannelWrites();
    var d0, es := Reset(2, map[0 := 0]), Revival();
    RunNothing(d0);
    assert es[..0] == [];
    RunTo(d0, es, 0);
    FirstChannels();
    RunTo(d0, es, 1);
    WriteAtStep(Run(d0, es[..1]), 1, 0x08, 1);
    RunTo(d0, es, 2);
    WriteAtStep(Run(d0, es[..2]), 1, 0x0C, 0x1);
    RunTo(d0, es, 3);
    WriteAtStep(Run(d0, es[..3]), 1, 0x0C, 0x10);
    AbortedStates();
    RunTo(d0, es, 4);
    AbortedBurst(Run(d0, es[..4]), 1);
  }

  lemma AfterRevival()
    ensures WellFormed(Reset(2, map[0 := 0])) && forall k :: 0 <= k < |Revival()| ==> LegalEvent(Revival()[k])
    ensures var r := Run(Reset(2, map[0 := 0]), Revival());
      && WellFormed(r) && r.chs == [Linked().(state := Running, remaining := 1), Failed()]
      && r.mem == map[0 := 0] && r.enable
  {
    hide Step, Run, Written, Reset, Sized, JustStarted, Failed, Linked, ResetChannel;
    AfterAbort();
    ChannelWrites();
    LinkWrites();
    var d0, es := Reset(2, map[0 := 0]), Revival();
    assert es[..8] == es;
    RunTo(d0, es, 5);
    WriteAtStep(Run(d0, es[..5]), 0, 0x08, 1);
    RunTo(d0, es, 6);
    WriteAtStep(Run(d0, es[..6]), 0, 0x28, 0x81);
    RunTo(d0, es, 7);
    WriteAtStep(Run(d0, es[..7]), 0, 0x0C, 0x1);
  }

  lemma RunNothing(d: Dma)
    requires WellFormed(d)
    ensures Run(d, []) == d
  {}

  lemma FirstChannels()
    ensures Reset(2, map[0 := 0]).chs == [ResetChannel(), ResetChannel()] && Reset(2, map[0 := 0]).mem == map[0 := 0]
  {}

  lemma AbortedStates()
    ensures ResetChannel().state == Idle
    ensures var ch := JustStarted().(abortPending := true);
      && ch.state == Running
      && ch.(state := Error, pausePending := false, abortPending := false) == Failed()
  {}

  lemma LinkRestarts(d: Dma)
    requires WellFormed(d) && d.chs == [Linked().(state := Running, remaining := 1), Failed()] && d.mem == map[0 := 0]
    ensures Step(d, Engine).chs[1].state == Running
  {
    hide Choose, Selected, Beats, StartChannel, Finishes, Arbitrated;
    OnlyRunner(d, 0);
    LastByteFinishes(Arbitrated(d), 0, BeatCount(d.chs[0]));
    assert LinkFires(d, 1);
    EngineIsStep(d);
    EngineOnOther(d, 1);
    ErrorStart(d.chs[1], d.enable);
  }

  /** The next engine event completes channel 0 and starts channel 1, which is in ERROR. */
  lemma LinkRevivesError()
    ensures WellFormed(Reset(2, map[0 := 0])) && forall k :: 0 <= k < |Revival()| ==> LegalEvent(Revival()[k])
    ensures var r := Run(Reset(2, map[0 := 0]), Revival());
      r.chs[1].state == Error && Step(r, Engine).chs[1].state == Running
  {
    hide Run, Step, Reset, Linked, WellFormed;
    AfterRevival();
    LinkRestarts(Run(Reset(2, map[0 := 0]), Revival()));
  }

  lemma LastByteFinishes(d: Dma, sel: nat, k: nat)
    requires WellFormed(d) && sel < |d.chs| && k > 0 && !d.chs[sel].abortPending && BusOk(d, d.chs[sel])
    requires d.chs[sel].remaining == WidthOf(d.chs[sel])
    ensures Finishes(d, sel, k)
  {
    hide CopyBytes, HalfFires;
  }

  // ---------- A resized transfer does not complete ----------

  function TwoBytes(): Channel {
    ResetChannel().(state := Configured, size := 2)
  }

  function HalfDone(): Channel {
    TwoBytes().(state := Suspended, remaining := 1, currSrc := 1, currDst := 1, half := true)
  }

  /** Start a two-byte transfer and pause it after its first byte. */
  function PausedHalfway(): seq<Event> {
    [EnableEvent(), WriteAt(0, 0x08, 2), WriteAt(0, 0x0C, 0x1), WriteAt(0, 0x0C, 0x4), Engine]
  }

  lemma StartWrites()
    ensures Written(ResetChannel(), 0x08, 2, true).ch == TwoBytes()
    ensures Written(TwoBytes(), 0x0C, 0x1, true).ch == TwoBytes().(state := Running, remaining := 2)
  {
    hide Written;
    SizeWriteIdle(ResetChannel(), 2);
    StartWrite(TwoBytes());
  }

  lemma PauseWrite()
    ensures Written(TwoBytes().(state := Running, remaining := 2), 0x0C, 0x4, true).ch ==
      TwoBytes().(state := Running, remaining := 2, pausePending := true)
  {
    hide Written;
    PauseWriteRunning(TwoBytes().(state := Running, remaining := 2));
  }

  lemma PausedBurst(d: Dma)
    requires WellFormed(d) && d.chs == [TwoBytes().(state := Running, remaining := 2, pausePending := true)]
    requires d.mem == map[0 := 0, 1 := 0]
    ensures var r := Step(d, Engine);
      WellFormed(r) && r.chs == [HalfDone()] && r.mem.Keys == d.mem.Keys
  {
    hide Choose, Selected;
    OnlyRunner(d, 0);
    StepKeepsWellFormed(d, Engine);
    EngineIsStep(d);
    EngineIsBurst(d);
    var d1 := Arbitrated(d);
    assert BeatCount(d1.chs[0]) == 1;
    assert BusOk(d1, d1.chs[0]);
    var d2 := Move(d1, 0);
    assert Beats(d2, 0, 0) == d2;
    assert Beats(d1, 0, 1) == d2;
    assert EngineStep(d).chs[0] == HalfDone();
  }

  lemma AfterPause()
    ensures WellFormed(Reset(1, map[0 := 0, 1 := 0]))
    ensures forall k :: 0 <= k < |PausedHalfway()| ==> LegalEvent(PausedHalfway()[k])
    ensures var r := Run(Reset(1, map[0 := 0, 1 := 0]), PausedHalfway());
      WellFormed(r) && r.chs == [HalfDone()] && r.mem.Keys == {0, 1}
  {
    hide Step, Run, Written, Reset, TwoBytes, HalfDone;
    var mem: map<nat, Byte> := map[0 := 0, 1 := 0];
    EnableStep(1, mem);
    PausedIsLegal();
    StartWrites();
    PauseWrite();
    var d0, es := Reset(1, mem), PausedHalfway();
    RunNothing(d0);
    assert es[..0] == [] && es[..5] == es;
    FirstChannel(mem);
    RunTo(d0, es, 0);
    var d1 := Run(d0, es[..1]);
    RunTo(d0, es, 1);
    WriteAtStep(d1, 0, 0x08, 2);
    var d2 := Run(d0, es[..2]);
    RunTo(d0, es, 2);
    WriteAtStep(d2, 0, 0x0C, 0x1);
    var d3 := Run(d0, es[..3]);
    RunTo(d0, es, 3);
    WriteAtStep(d3, 0, 0x0C, 0x4);
    RunTo(d0, es, 4);
    PausedBurst(Run(d0, es[..4]));
  }

  lemma FirstChannel(mem: map<nat, Byte>)
    ensures Reset(1, mem).chs == [ResetChannel()] && Reset(1, mem).mem == mem
  {}

  lemma PausedIsLegal()
    ensures forall k :: 0 <= k < |PausedHalfway()| ==> LegalEvent(PausedHalfway()[k])
  {}

  /** Rewriting its size to the one byte moved and resuming it does not complete it: the next
      burst moves another byte and leaves a count of 2^32 - 1. */
  lemma ResumedTransferRunsOn()
    ensures WellFormed(Reset(1, map[0 := 0, 1 := 0]))
    ensures forall k :: 0 <= k < |PausedHalfway()| ==> LegalEvent(PausedHalfway()[k])
    ensures var r := ResizedAndResumed(Run(Reset(1, map[0 := 0, 1 := 0]), PausedHalfway()), 0, 1);
      && r.chs[0].state == Running && r.chs[0].remaining == 0
      && Burst(r, 0).chs[0].state == Running && Burst(r, 0).chs[0].remaining == 0xFFFF_FFFF
  {
    hide Run, Burst, Step, Reset, WellFormed, HalfDone, ResizedAndResumed;
    AfterPause();
    HalfDoneRunsOn(Run(Reset(1, map[0 := 0, 1 := 0]), PausedHalfway()));
  }

  lemma HalfDoneRunsOn(d: Dma)
    requires WellFormed(d) && d.chs == [HalfDone()] && d.mem.Keys == {0, 1}
    ensures var r := ResizedAndResumed(d, 0, 1);
      && r.chs[0].state == Running && r.chs[0].remaining == 0
      && Burst(r, 0).chs[0].state == Running && Burst(r, 0).chs[0].remaining == 0xFFFF_FFFF
  {
    hide Run, Burst, Step, Written, ResizedAndResumed;
    assert 1 in d.mem.Keys;
    assert BusOk(d, d.chs[0]);
    assert Sound(d.chs[0]);
    ResumeUnderflowsIff(d, 0, 1);
    ResizedRemaining(d, 0, 1);
  }

  lemma ResizedRemaining(d: Dma, c: nat, w: nat)
    requires WellFormed(d) && c < |d.chs| && c < 4 && w < WORD_RANGE
    requires d.chs[c].state == Suspended && Sound(d.chs[c])
    ensures SizeOf(w) < (d.chs[c].size - d.chs[c].remaining) + WidthOf(d.chs[c]) ==>
      ResizedAndResumed(d, c, w).chs[c].remaining == 0
  {
    hide Step, Written, Sound, Run;
    RunTwo(d, WriteAt(c, 0x08, w), WriteAt(c, 0x0C, 0x8));
    WriteAtStep(d, c, 0x08, w);
    var d1 := Step(d, WriteAt(c, 0x08, w));
    ResizeEmptiesIff(d.chs[c], w, d.enable);
    WriteAtStep(d1, c, 0x0C, 0x8);
    ResumeWrite(d1.chs[c], d1.enable);
  }
}

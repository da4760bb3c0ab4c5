/** The state machine of a DMA channel, seen from outside: exactly which events start, pause, resume,
complete and fail it, and that nothing runs before the controller is enabled. */
module DmaMachine {
  import opened Prelude
  import opened Words
  import opened DmaState
  import opened DmaInvariants
  import opened DmaConservation
  import opened DmaRuns
  import opened DmaStatus

  // ---------- Starting ----------

  /** START is written to the control register of a channel that takes it: neither active nor in
      ERROR. */
  ghost predicate StartWritten(d: Dma, e: Event, c: nat) {
    WritesAt(d, e, c, 0x0C) && Flag(e.data, 0x1) && !Active(d.chs[c]) && d.chs[c].state != Error
  }

  /** The channel with the settings written along with START. */
  function Reconfigured(ch: Channel, w: nat): Channel {
    ch.(ctrl := CtrlOf(w))
  }

  lemma WrittenStarts(ch: Channel, off: nat, w: nat, enable: bool)
    requires !Active(ch)
    ensures Active(Written(ch, off, w, enable).ch) <==>
      off == 0x0C && Flag(w, 0x1) && enable && ch.state != Error && Startable(Reconfigured(ch, w))
    ensures off == 0x0C && Flag(w, 0x1) && ch.state != Error ==>
      var r := Written(ch, off, w, enable).ch;
      r.state == if !enable then Configured
                 else if Startable(Reconfigured(ch, w)) then Running
                 else if Flag(w, 0x20) then Idle else Error
  {
    hide Flag, CtrlOf, SizeOf, Resize;
    var c := if ch.state == Complete && off != 0x14 then ch.(state := Idle) else ch;
    SameStartable(ch, c.(ctrl := CtrlOf(w), state := Configured), w);
  }

  lemma SameStartable(ch: Channel, c: Channel, w: nat)
    requires c == ch.(state := c.state, ctrl := CtrlOf(w))
    ensures Startable(c) <==> Startable(Reconfigured(ch, w))
  {
    hide CtrlOf;
  }

  lemma LinkStarts(ch: Channel, enable: bool)
    requires !Active(ch)
    ensures StartChannel(ch, true, enable).state == if Startable(ch) then Running else Error
    ensures ch.state == Complete ==> StartChannel(ch, true, enable).state != Complete
  {}

  lemma NotBoth(d: Dma, e: Event, c: nat)
    requires c < |d.chs| && IsReset(e)
    ensures forall off :: !WritesAt(d, e, c, off)
  {}

  /** Exactly which events start channel `c`: a START written while the controller is enabled and
      the settings are valid, or the completion of a channel linking to it, which does not ask
      for the enable bit. */
  lemma StartsIff(d: Dma, e: Event, c: nat)
    requires WellFormed(d) && LegalEvent(e) && c < |d.chs|
    ensures StartsIn(d, e, c) <==>
      || (e.Engine? && !Active(d.chs[c]) && LinkFires(d, c) && Startable(d.chs[c]))
      || (StartWritten(d, e, c) && d.enable && Startable(Reconfigured(d.chs[c], e.data)))
  {
    hide Step, Written, LinkFires, Startable, Flag, Selected, WellFormedChannel, CtrlOf, Reconfigured;
    if !Active(d.chs[c]) {
      if e.Engine? {
        SelectedRuns(d);
        EngineIsStep(d);
        EngineOnOther(d, c);
        LinkStarts(d.chs[c], d.enable);
      } else {
        RegisterStep(d, e, c);
        if off: nat :| WritesAt(d, e, c, off) {
          WrittenStarts(d.chs[c], off, e.data, d.enable);
        }
      }
    }
  }

  /** A register of channel `c` as software reads it. */
  ghost function Shown(d: Dma, c: nat, off: nat): (v: nat)
    requires c < |d.chs| && c < 4 && off < 0x40 && off % 4 == 0
    ensures v == ReadChannel(d.chs[c], off)
  {
    var a := 0x100 + 0x40 * c + off;
    assert a % 4 == 0 && (a - 0x100) / 0x40 == c && (a - 0x100) % 0x40 == off;
    ReadReg(d, a)
  }

  /** What a started channel shows: its current addresses, count and wraps are those of a transfer
      at its first byte. */
  lemma StartedShows(d: Dma, e: Event, c: nat)
    requires WellFormed(d) && LegalEvent(e) && c < |d.chs| && c < 4 && StartsIn(d, e, c)
    ensures var r := Step(d, e);
      && r.chs[c].state == Running
      && Shown(r, c, 0x18) == Shown(r, c, 0x00) && Shown(r, c, 0x1C) == Shown(r, c, 0x04)
      && Shown(r, c, 0x20) == Shown(r, c, 0x08) && Shown(r, c, 0x24) == 0
  {
    hide Step, Written, LinkFires, Startable, Flag, Selected, StartChannel, Shown;
    if e.Engine? {
      SelectedRuns(d);
      EngineIsStep(d);
      EngineOnOther(d, c);
      LinkStartIsFresh(d.chs[c], d.enable);
    } else {
      RegisterStep(d, e, c);
      if off: nat :| WritesAt(d, e, c, off) {
        RegisterEffect(d.chs[c], off, e.data, d.enable);
      }
    }
  }

  // ---------- The other transitions ----------

  /** The end of up to `k` beats of a sound transfer. */
  lemma {:induction false} BeatsState(d: Dma, sel: nat, k: nat)
    requires WellFormed(d) && sel < |d.chs| && Sound(d.chs[sel]) && d.chs[sel].state == Running
    ensures var ch, r := d.chs[sel], Beats(d, sel, k).chs[sel];
      && !(Fails(d, sel, k) && Finishes(d, sel, k))
      && (Fails(d, sel, k) ==> r.state == Error)
      && (Finishes(d, sel, k) && !ch.ctrl.circular ==>
           && !(r.state == Running && r.pausePending)
           && r.state == if !LinksTo(d, sel, sel) then Complete else if Startable(ch) then Running else Error)
      && (!Fails(d, sel, k) && (Finishes(d, sel, k) ==> ch.ctrl.circular) ==>
           r.state == Running && r.pausePending == ch.pausePending)
    decreases k
  {
    hide Finish, CopyBytes, MovedChannel, HalfFires, BusOk, StartChannel, Startable;
    if k > 0 && !d.chs[sel].abortPending && BusOk(d, d.chs[sel]) {
      MoveKeepsRange(d, sel);
      MovedChannelFacts(d.chs[sel]);
      var d1 := Move(d, sel);
      SameJobStartable(d.chs[sel], d1.chs[sel]);
      if d1.chs[sel].remaining == 0 {
        FinishState(d1, sel);
      } else {
        BeatsState(d1, sel, k - 1);
      }
    }
  }

  lemma SameJobStartable(a: Channel, b: Channel)
    requires SameJob(a, b)
    ensures Startable(a) <==> Startable(b)
  {}

  lemma FinishState(d: Dma, sel: nat)
    requires sel < |d.chs| && d.chs[sel].state == Running
    ensures var ch, r := d.chs[sel], Finish(d, sel).chs[sel];
      && (ch.ctrl.circular ==> r.state == Running && r.pausePending == ch.pausePending)
      && (!ch.ctrl.circular ==>
           && !(r.state == Running && r.pausePending)
           && r.state == if !LinksTo(d, sel, sel) then Complete else if Startable(ch) then Running else Error)
  {
    hide UpdateIrqs;
  }

  /** Where an engine round takes the state of channel `c`: its own burst fails it, completes it,
      restarts it through its own link, pauses it or leaves it running; the burst of another
      starts it through a link; nothing else moves it. */
  lemma EngineMovesState(d: Dma, c: nat)
    requires WellFormed(d) && c < |d.chs| && Sound(d.chs[c])
    ensures var ch, s := d.chs[c], Step(d, Engine).chs[c].state;
      s ==
        if Bursts(d, Engine, c) then
          if FailsIn(d, Engine, c) then Error
          else if FinishesIn(d, Engine, c) && !ch.ctrl.circular then
            if !LinksTo(d, c, c) then Complete else if Startable(ch) then Running else Error
          else if ch.pausePending then Suspended
          else Running
        else if !Active(ch) && LinkFires(d, c) then
          if Startable(ch) then Running else Error
        else ch.state
  {
    hide Beats, Finishes, Fails, Selected, EngineStep, Startable, StartChannel;
    SelectedRuns(d);
    EngineIsStep(d);
    if Bursts(d, Engine, c) {
      EngineOnSelected(d, c);
      BeatsState(Arbitrated(d), c, BeatCount(d.chs[c]));
    } else {
      EngineOnOther(d, c);
      if !Active(d.chs[c]) {
        LinkStarts(d.chs[c], d.enable);
      }
    }
  }

  /** Where a register write takes it. */
  lemma WriteMovesState(d: Dma, e: Event, c: nat, off: nat)
    requires WellFormed(d) && LegalEvent(e) && WritesAt(d, e, c, off)
    ensures var ch, r, w := d.chs[c], Step(d, e).chs[c], e.data;
      && (ch.state == Running ==> r.state == Running)
      && (ch.state == Suspended ==>
           r.state == if off != 0x0C then Suspended
                      else if Flag(w, 0x8) then Running
                      else if Flag(w, 0x10) then if Flag(w, 0x20) then Idle else Error
                      else Suspended)
      && (ch.state == Error ==> r.state == if off == 0x0C && Flag(w, 0x20) then Idle else Error)
      && (!Active(ch) && ch.state != Error ==>
           r.state == if off == 0x0C then
                        if !Flag(w, 0x1) || !d.enable then Configured
                        else if Startable(Reconfigured(ch, w)) then Running
                        else if Flag(w, 0x20) then Idle else Error
                      else if off in {0x00, 0x04, 0x08, 0x10} then Configured
                      else if ch.state == Complete && off != 0x14 then Idle
                      else ch.state)
  {
    hide Step, Written, Startable, Flag, WellFormedChannel, CtrlOf, Reconfigured;
    RegisterStep(d, e, c);
    WrittenState(d.chs[c], off, e.data, d.enable);
    if !Active(d.chs[c]) {
      WrittenStarts(d.chs[c], off, e.data, d.enable);
    }
  }

  lemma WrittenState(ch: Channel, off: nat, w: nat, enable: bool)
    ensures var r := Written(ch, off, w, enable).ch;
      && (ch.state == Running ==> r.state == Running)
      && (ch.state == Suspended ==>
           r.state == if off != 0x0C then Suspended
                      else if Flag(w, 0x8) then Running
                      else if Flag(w, 0x10) then if Flag(w, 0x20) then Idle else Error
                      else Suspended)
      && (ch.state == Error ==> r.state == if off == 0x0C && Flag(w, 0x20) then Idle else Error)
      && (!Active(ch) && ch.state != Error && !(off == 0x0C && Flag(w, 0x1)) ==>
           r.state == if off in {0x00, 0x04, 0x08, 0x0C, 0x10} then Configured
                      else if ch.state == Complete && off != 0x14 then Idle
                      else ch.state)
  {
    hide Flag, Startable, CtrlOf, SizeOf;
  }

  /** The requests a write leaves pending on an active channel: PAUSE and ABORT wait for the end of
      the burst, RESUME drops a pending pause. */
  lemma WriteLeavesPending(d: Dma, e: Event, c: nat, off: nat)
    requires WellFormed(d) && LegalEvent(e) && WritesAt(d, e, c, off) && Active(d.chs[c])
    ensures var ch, r, w := d.chs[c], Step(d, e).chs[c], e.data;
      Active(r) ==>
        && (r.abortPending <==> ch.abortPending || (off == 0x0C && Flag(w, 0x10)))
        && (r.pausePending <==>
             if off != 0x0C then ch.pausePending
             else if ch.state == Running then ch.pausePending || Flag(w, 0x4)
             else ch.pausePending && !Flag(w, 0x8))
  {
    hide Step, Written, Flag, WellFormedChannel;
    RegisterStep(d, e, c);
    WrittenPending(d.chs[c], off, e.data, d.enable);
  }

  lemma WrittenPending(ch: Channel, off: nat, w: nat, enable: bool)
    requires Active(ch)
    ensures var r := Written(ch, off, w, enable).ch;
      Active(r) ==>
        && (r.abortPending <==> ch.abortPending || (off == 0x0C && Flag(w, 0x10)))
        && (r.pausePending <==>
             if off != 0x0C then ch.pausePending
             else if ch.state == Running then ch.pausePending || Flag(w, 0x4)
             else ch.pausePending && !Flag(w, 0x8))
  {
    hide Flag, Startable, CtrlOf, SizeOf;
  }

  /** What a control write changes of the settings, as they read: all of them before a transfer, the
      circular bit and the priority during one, nothing in ERROR. */
  lemma WriteSetsControl(d: Dma, e: Event, c: nat)
    requires WellFormed(d) && LegalEvent(e) && c < 4 && WritesAt(d, e, c, 0x0C)
    ensures var was, r, w := Shown(d, c, 0x0C), Shown(Step(d, e), c, 0x0C), e.data;
      r == if d.chs[c].state == Error then was
           else if Active(d.chs[c]) then w / 0x2 % 2 * 0x2 + was / 0x40 % 16 * 0x40 + w / 0x400 % 4 * 0x400
           else w / 0x2 % 2 * 0x2 + w / 0x40 % 64 * 0x40
  {
    hide Step, Written, WellFormed, Shown, CtrlOf;
    WellFormedIs(d, c);
    RegisterStep(d, e, c);
    WrittenControl(d.chs[c], e.data, d.enable);
    CtrlReadsBack(e.data);
    PackedFields(d.chs[c].ctrl);
  }

  lemma WellFormedIs(d: Dma, c: nat)
    requires WellFormed(d) && c < |d.chs|
    ensures WellFormedChannel(d.chs[c])
  {}

  lemma WrittenControl(ch: Channel, w: nat, enable: bool)
    ensures var r := Written(ch, 0x0C, w, enable).ch.ctrl;
      r == if ch.state == Error then ch.ctrl
           else if Active(ch) then ch.ctrl.(circular := Flag(w, 0x2), prio := w / 0x400 % 4)
           else CtrlOf(w)
  {
    hide Flag, CtrlOf, Actions;
    var c := if ch.state == Complete then ch.(state := Idle) else ch;
    ActionsKeepControl(c.(ctrl := c.ctrl.(circular := Flag(w, 0x2), prio := w / 0x400 % 4)), w, enable);
    ActionsKeepControl(c.(ctrl := CtrlOf(w), state := Configured), w, enable);
  }

  lemma ActionsKeepControl(ch: Channel, w: nat, enable: bool)
    ensures Actions(ch, w, enable).ch.ctrl == ch.ctrl
  {
    hide Flag, Startable;
  }

  lemma PackedFields(c: Ctrl)
    requires c.width < 4 && c.burst < 4 && c.prio < 4
    ensures PackCtrl(c) / 0x40 % 16 == c.width + c.burst * 4
  {}

  /** Which data writes take, and what they leave, as the registers read: a channel with no transfer
      and not in ERROR takes all of them; a suspended one takes addresses and sets the current ones
      with them, and its size; a running one takes none. */
  lemma WriteTakes(d: Dma, e: Event, c: nat, off: nat)
    requires WellFormed(d) && LegalEvent(e) && c < 4 && off in {0x00, 0x04, 0x08, 0x10} && WritesAt(d, e, c, off)
    ensures var s, r, w := d.chs[c].state, Step(d, e), e.data;
      && (Shown(r, c, off) ==
           if s == Running || s == Error || (s == Suspended && off == 0x10) then Shown(d, c, off)
           else if off == 0x08 then SizeOf(w) else if off == 0x10 then w % 16 else w)
      && (Shown(r, c, 0x18) == if s == Suspended && off == 0x00 then w else Shown(d, c, 0x18))
      && (Shown(r, c, 0x1C) == if s == Suspended && off == 0x04 then w else Shown(d, c, 0x1C))
      && (!(s == Suspended && off == 0x08) ==> Shown(r, c, 0x20) == Shown(d, c, 0x20))
  {
    hide Step, Written, Shown, Flag, SizeOf, WellFormed;
    RegisterStep(d, e, c);
    WrittenTakes(d.chs[c], off, e.data, d.enable);
  }

  lemma WrittenTakes(ch: Channel, off: nat, w: nat, enable: bool)
    requires off in {0x00, 0x04, 0x08, 0x10}
    ensures var s, r := ch.state, Written(ch, off, w, enable).ch;
      && (ReadChannel(r, off) ==
           if s == Running || s == Error || (s == Suspended && off == 0x10) then ReadChannel(ch, off)
           else if off == 0x08 then SizeOf(w) else if off == 0x10 then w % 16 else w)
      && (r.currSrc == if s == Suspended && off == 0x00 then w else ch.currSrc)
      && (r.currDst == if s == Suspended && off == 0x04 then w else ch.currDst)
      && (!(s == Suspended && off == 0x08) ==> r.remaining == ch.remaining)
  {
    hide Flag, SizeOf;
  }

  // ---------- Nothing happens before the controller is enabled ----------

  ghost predicate EnablesNothing(e: Event) {
    !(e.Register? && e.cmd.WriteCmd? && e.len == 4 && e.addr == 0x00C && Flag(e.data, 0x1))
  }

  ghost predicate AtRest(d: Dma) {
    !d.enable && forall c :: 0 <= c < |d.chs| ==> !Active(d.chs[c])
  }

  lemma RestStep(d: Dma, e: Event)
    requires WellFormed(d) && LegalEvent(e) && AtRest(d) && EnablesNothing(e)
    ensures AtRest(Step(d, e)) && Step(d, e).mem == d.mem
  {
    hide WriteReg, LinkFires, Startable, Flag, WellFormed, Choose;
    SelectedRuns(d);
    EnableIff(d, e);
    EngineIsBurst(d);
    forall c | 0 <= c < |d.chs|
      ensures !Active(Step(d, e).chs[c])
    {
      StartsIff(d, e, c);
    }
  }

  /** From reset, whatever is programmed, started, aborted or reset: as long as EN is never written
      no channel becomes active and no byte of memory changes. */
  lemma {:induction false} NothingRunsDisabled(d: Dma, es: seq<Event>)
    requires WellFormed(d) && LegalEvents(es) && AtRest(d)
    requires forall k :: 0 <= k < |es| ==> EnablesNothing(es[k])
    ensures AtRest(Run(d, es)) && Run(d, es).mem == d.mem
    decreases |es|
  {
    hide Step, WellFormed, AtRest, EnablesNothing;
    if es != [] {
      StepKeepsWellFormed(d, es[0]);
      RestStep(d, es[0]);
      NothingRunsDisabled(Step(d, es[0]), es[1..]);
    }
  }

  lemma ResetIsAtRest(n: nat, mem: map<nat, Byte>)
    requires 1 <= n <= 10
    ensures WellFormed(Reset(n, mem)) && AtRest(Reset(n, mem))
  {}
}

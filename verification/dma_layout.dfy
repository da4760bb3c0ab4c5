/** Copy correctness from the starting registers alone: a memory layout that keeps the channels out
of each other's way is kept by bursts, links, pauses, resumes and priority changes, so the
theorem of DmaCopy applies to every such run. */
module DmaLayout {
  import opened Prelude
  import opened DmaState
  import opened DmaInvariants
  import opened DmaConservation
  import opened DmaRuns
  import opened DmaCopy

  /** Channel `o`'s destination is disjoint from both regions of channel `c`. */
  ghost predicate Clear(o: Channel, c: Channel) {
    && Disjoint(o.dst, o.dst + o.size, c.src, c.src + c.size)
    && Disjoint(o.dst, o.dst + o.size, c.dst, c.dst + c.size)
  }

  /** The registers as software lays them out: every channel increments, whoever is active is in
      step, the destinations of the others are clear of channel `c`, and `c` neither links to
      itself nor repeats an overlapping copy. */
  ghost predicate Tidy(d: Dma, c: nat)
    requires c < |d.chs|
  {
    && OverlapOnce(d.chs[c]) && NoSelfLink(d, c)
    && (forall o :: 0 <= o < |d.chs| ==> Steady(d.chs[o]))
    && (forall o :: 0 <= o < |d.chs| && o != c ==> Clear(d.chs[o], d.chs[c]))
  }

  ghost predicate Steady(ch: Channel) {
    Incrementing(ch) && (Active(ch) ==> InStep(ch))
  }

  /** Register traffic that leaves the layout alone: anything but a global reset and writes to
      the address, size and configuration registers, provided `c` is not linked to itself or, if
      its regions overlap, made circular. START, PAUSE, RESUME, ABORT, CLR_ERR and priorities
      are free. */
  ghost predicate Tame(d: Dma, e: Event, c: nat)
    requires c < |d.chs|
  {
    !IsReset(e) && forall i, off :: WritesAt(d, e, i, off) ==>
      && off !in {0x00, 0x04, 0x08, 0x10}
      && (i == c && off == 0x0C ==> Apart(d.chs[c]) || !Flag(e.data, 0x2))
      && (i == c && off == 0x28 ==> !Flag(e.data, 0x80) || e.data % 4 != c)
  }

  ghost predicate SameLayout(a: Channel, b: Channel) {
    a.src == b.src && a.dst == b.dst && a.size == b.size && a.config == b.config
  }

  // ---------- Bursts ----------

  lemma FreshIsInStep(ch: Channel)
    requires Fresh(ch) && Incrementing(ch)
    ensures InStep(ch)
  {}

  lemma StartIsSteady(ch: Channel, enable: bool)
    requires Steady(ch)
    ensures Steady(StartChannel(ch, true, enable))
  {
    hide InStep, Fresh, Startable;
    if !Active(ch) {
      LinkStartIsFresh(ch, enable);
      if Active(StartChannel(ch, true, enable)) {
        FreshIsInStep(StartChannel(ch, true, enable));
      }
    }
  }

  lemma {:induction false} BeatsStayInStep(d: Dma, sel: nat, k: nat)
    requires WellFormed(d) && sel < |d.chs| && Sound(d.chs[sel]) && d.chs[sel].state == Running && Steady(d.chs[sel])
    ensures Steady(Beats(d, sel, k).chs[sel])
    decreases k
  {
    hide CopyBytes, MovedChannel, HalfFires, BusOk, InStep, StartChannel, Sound, Raise;
    if k > 0 && !d.chs[sel].abortPending && BusOk(d, d.chs[sel]) {
      MoveKeepsRange(d, sel);
      MovedChannelFacts(d.chs[sel]);
      MovedChannelAdvances(d.chs[sel]);
      var d1 := Move(d, sel);
      if d1.chs[sel].remaining != 0 {
        MovedIsSound(d.chs[sel]);
        BeatsStayInStep(d1, sel, k - 1);
      } else {
        WrapIsInStep(d1.chs[sel]);
        StartIsSteady(d1.chs[sel].(state := Complete, pausePending := false), d.enable);
      }
    }
  }

  lemma WrapIsInStep(ch: Channel)
    requires Incrementing(ch)
    ensures InStep(Wrapped(ch))
  {}

  lemma EngineKeepsSteady(d: Dma, o: nat)
    requires Conserved(d) && o < |d.chs| && Steady(d.chs[o])
    ensures Steady(EngineStep(d).chs[o])
  {
    hide Beats, Selected, Arbitrated, EngineStep, LinkFires, StartChannel;
    SelectedRuns(d);
    if o == Selected(d) {
      EngineOnSelected(d, o);
      BeatsStayInStep(Arbitrated(d), o, BeatCount(d.chs[o]));
    } else {
      EngineOnOther(d, o);
      StartIsSteady(d.chs[o], d.enable);
    }
  }

  // ---------- Register traffic ----------

  lemma ControlWrite(ch: Channel, w: nat, enable: bool)
    ensures var r := WriteCtrl(ch, w, enable).ch;
      SameLayout(ch, r) && r.link == ch.link && (r.ctrl.circular ==> ch.ctrl.circular || Flag(w, 0x2))
  {
    hide Flag, Actions;
    ActionsKeepLayout(ch.(ctrl := ch.ctrl.(circular := Flag(w, 0x2), prio := w / 0x400 % 4)), w, enable);
    ActionsKeepLayout(ch.(ctrl := CtrlOf(w), state := Configured), w, enable);
    ActionsKeepLayout(ch, w, enable);
  }

  lemma ActionsKeepLayout(ch: Channel, w: nat, enable: bool)
    ensures var r := Actions(ch, w, enable).ch;
      SameLayout(ch, r) && r.link == ch.link && r.ctrl == ch.ctrl
  {
    hide Flag, Actions, Startable;
    ActionsOnlyMoveState(ch, w, enable);
  }

  lemma OtherWrites(ch: Channel, off: nat, w: nat, enable: bool)
    requires off !in {0x00, 0x04, 0x08, 0x10}
    ensures var r := Written(ch, off, w, enable).ch;
      && SameLayout(ch, r)
      && (off != 0x28 ==> r.link == ch.link)
      && (off == 0x28 ==> r.link == Link(Flag(w, 0x80), w % 4))
      && (r.ctrl.circular ==> ch.ctrl.circular || (off == 0x0C && Flag(w, 0x2)))
  {
    hide Flag, WriteCtrl;
    ControlWrite(if ch.state == Complete && off != 0x14 then ch.(state := Idle) else ch, w, enable);
  }

  lemma WriteKeepsSteady(ch: Channel, off: nat, w: nat, enable: bool)
    requires Steady(ch) && off !in {0x00, 0x04, 0x08, 0x10}
    ensures Steady(Written(ch, off, w, enable).ch)
  {
    hide Written, Fresh;
    var r := Written(ch, off, w, enable).ch;
    OtherWrites(ch, off, w, enable);
    RegisterEffect(ch, off, w, enable);
    if Active(r) && !Active(ch) {
      FreshIsInStep(r);
    }
  }

  // ---------- The layout is kept ----------

  /** What one event leaves of one channel. */
  lemma LayoutStep(d: Dma, e: Event, c: nat, o: nat)
    requires Conserved(d) && c < |d.chs| && o < |d.chs| && LegalEvent(e) && Tidy(d, c) && Tame(d, e, c)
    ensures var r := Step(d, e).chs[o];
      && SameLayout(d.chs[o], r) && Steady(r)
      && (o == c ==> OverlapOnce(r) && (r.link.on ==> r.link.target != c))
  {
    hide Written, Steady, Flag, EngineStep, Clear;
    if e.Engine? {
      EngineIsStep(d);
      EngineKeepsRegisters(d, o);
      EngineKeepsSteady(d, o);
    } else {
      hide Step;
      RegisterStep(d, e, o);
      if off: nat :| WritesAt(d, e, o, off) {
        OtherWrites(d.chs[o], off, e.data, d.enable);
        WriteKeepsSteady(d.chs[o], off, e.data, d.enable);
      }
    }
  }

  lemma TidyStep(d: Dma, e: Event, c: nat)
    requires Conserved(d) && c < |d.chs| && LegalEvent(e) && Tidy(d, c) && Tame(d, e, c)
    ensures Tidy(Step(d, e), c)
  {
    hide Step, Steady, Conserved, Tame;
    ConservedIsWellFormed(d);
    var r := Step(d, e);
    LayoutStep(d, e, c, c);
    forall o: nat | o < |d.chs|
      ensures SameLayout(d.chs[o], r.chs[o]) && Steady(r.chs[o])
    {
      LayoutStep(d, e, c, o);
    }
  }

  lemma TidyIsUndisturbed(d: Dma, c: nat)
    requires Conserved(d) && c < |d.chs| && Tidy(d, c)
    ensures Undisturbed(d, c)
  {
    hide InStep, Undisturbed;
    DisjointDestinationsDoNotDisturb(d, c);
  }

  lemma TameIsRespected(d: Dma, e: Event, c: nat)
    requires Conserved(d) && c < |d.chs| && LegalEvent(e) && Tidy(d, c) && Tame(d, e, c)
    ensures Respected(d, e, c) && ResizesWell(d, e)
  {
    hide Steady, Clear;
    TidyIsUndisturbed(d, c);
    forall i: nat | i < |d.chs|
      ensures !ResizesAt(d, e, i)
    {
      ResizeIsWrite(d, e, i);
    }
  }

  lemma ResizeIsWrite(d: Dma, e: Event, i: nat)
    ensures ResizesAt(d, e, i) ==> WritesAt(d, e, i, 0x08)
  {}

  /** A run of bursts and tame register traffic that keeps channel `c` active up to its last
      event. */
  ghost predicate TameRun(d: Dma, es: seq<Event>, c: nat)
    requires WellFormed(d) && c < |d.chs| && forall k :: 0 <= k < |es| ==> LegalEvent(es[k])
    decreases |es|
  {
    es == [] || (
      Active(d.chs[c]) && Tame(d, es[0], c) &&
      (StepKeepsWellFormed(d, es[0]); TameRun(Step(d, es[0]), es[1..], c)))
  }

  /** From a tidy layout every such run satisfies the conditions of the copy theorem, in every
      state it passes through. */
  lemma {:induction false} TidyTransfers(d: Dma, es: seq<Event>, c: nat)
    requires Conserved(d) && c < |d.chs| && (forall k :: 0 <= k < |es| ==> LegalEvent(es[k]))
    requires Tidy(d, c) && TameRun(d, es, c)
    ensures Transfers(d, es, c)
    decreases |es|
  {
    hide Step, Conserved, ResizesWell, Respected, Tidy, Tame;
    ConservedIsWellFormed(d);
    if es != [] {
      TameIsRespected(d, es[0], c);
      ConservedIff(d, es[0]);
      TidyStep(d, es[0], c);
      TidyTransfers(Step(d, es[0]), es[1..], c);
    }
  }

  /** Copy correctness from the starting registers: in a tidy layout, a channel at its first byte
      whose destination does not start strictly inside its source delivers, whatever bursts of
      any channels, links, pauses, resumes, aborts elsewhere and priority changes come before
      its completion. */
  lemma TidyTransferIsACopy(d: Dma, es: seq<Event>, c: nat)
    requires Conserved(d) && c < |d.chs| && (forall k :: 0 <= k < |es| ==> LegalEvent(es[k]))
    requires Tidy(d, c) && TameRun(d, es, c)
    requires AtFirstByte(d.chs[c]) && NotAhead(d.chs[c])
    requires Run(d, es).chs[c].state == Complete
    ensures Delivered(d.chs[c], Run(d, es).mem, d.mem)
  {
    hide Run, Delivered, TameRun, Transfers;
    TidyTransfers(d, es, c);
    CompletedTransferIsACopy(d, es, c);
  }

  /** With bursts alone the condition on the run is just that it stops when the channel does. */
  lemma {:induction false} EngineRunsAreTame(d: Dma, es: seq<Event>, c: nat)
    requires WellFormed(d) && c < |d.chs| && forall k :: 0 <= k < |es| ==> es[k] == Engine
    requires forall k :: 0 <= k < |es| ==> Active(Run(d, es[..k]).chs[c])
    ensures TameRun(d, es, c)
    decreases |es|
  {
    hide Step, WellFormed;
    if es != [] {
      StepKeepsWellFormed(d, es[0]);
      assert es[..0] == [];
      forall k | 0 <= k < |es| - 1
        ensures Active(Run(Step(d, es[0]), es[1..][..k]).chs[c])
      {
        assert es[..k + 1][1..] == es[1..][..k];
        assert Active(Run(d, es[..k + 1]).chs[c]);
      }
      EngineRunsAreTame(Step(d, es[0]), es[1..], c);
    }
  }
}

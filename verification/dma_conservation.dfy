/** What one event does to a transfer: register writes, bursts, wraps and links, the bytes and half
events they account for, and exactly when a transfer stays conserved. */
module DmaConservation {
  import opened Prelude
  import opened Words
  import opened DmaState
  import opened DmaInvariants

  // ---------- What a register write can do to a channel ----------

  /** The fields that say where a transfer stands. */
  ghost predicate SameTransfer(a: Channel, b: Channel) {
    && a.src == b.src && a.dst == b.dst && a.size == b.size && a.config == b.config
    && a.currSrc == b.currSrc && a.currDst == b.currDst && a.remaining == b.remaining
    && a.wraps == b.wraps && a.half == b.half && a.ctrl.width == b.ctrl.width && a.ctrl.burst == b.ctrl.burst
  }

  /** A transfer that has just been validated and loaded. */
  ghost predicate Fresh(ch: Channel) {
    && Active(ch) && Startable(ch)
    && ch.currSrc == ch.src && ch.currDst == ch.dst && ch.remaining == ch.size && ch.wraps == 0 && !ch.half
  }

  /** Suspended reprogramming: the only register writes that touch an active transfer. */
  predicate Reprograms(ch: Channel, off: nat) {
    ch.state == Suspended && (off == 0x00 || off == 0x04 || off == 0x08)
  }

  lemma FreshWhateverPending(ch: Channel, r: Channel)
    requires Fresh(ch) && Active(r)
    requires r == ch.(state := r.state, pausePending := r.pausePending, abortPending := r.abortPending)
    ensures Fresh(r)
  {}

  lemma StartedIsFresh(ch: Channel, w: nat, enable: bool)
    requires !Active(ch)
    ensures Active(Started(ch, w, enable)) ==> Fresh(Started(ch, w, enable)) && Started(ch, w, enable).state == Running
  {
    hide Flag;
  }

  /** The action bits of a channel that is not active: it becomes active only through START. */
  lemma ActionsActivate(ch: Channel, w: nat, enable: bool)
    requires !Active(ch)
    ensures var r := Actions(ch, w, enable).ch;
      && (Active(r) ==> Fresh(r) && r.state == Running)
      && (!Active(r) ==>
           Active(Started(ch, w, enable)) ||
           (r.currSrc == ch.currSrc && r.currDst == ch.currDst && r.remaining == ch.remaining))
      && (Active(Started(ch, w, enable)) ==> Active(r))
  {
    hide Flag, Startable, Started, Fresh;
    var s, r := Started(ch, w, enable), Actions(ch, w, enable).ch;
    StartedIsFresh(ch, w, enable);
    ActionsOnlyMoveState(ch, w, enable);
    if Active(r) {
      FreshWhateverPending(s, r);
    } else if !Active(s) {
      StartMoves(ch, w, enable);
    }
  }

  lemma StartMoves(ch: Channel, w: nat, enable: bool)
    requires !Active(Started(ch, w, enable))
    ensures var s := Started(ch, w, enable);
      s.currSrc == ch.currSrc && s.currDst == ch.currDst && s.remaining == ch.remaining
  {
    hide Flag, Startable;
  }

  lemma ActiveActions(ch: Channel, w: nat, enable: bool)
    requires Active(ch)
    ensures var r := Actions(ch, w, enable).ch;
      && SameTransfer(ch, r)
      && (r.state == Suspended ==> ch.state == Suspended)
      && (ch.state == Running && ch.abortPending ==> r.state == Running && r.abortPending)
  {
    hide Flag;
  }

  /** A write to the registers of an active channel. */
  lemma ActiveEffect(ch: Channel, off: nat, w: nat, enable: bool)
    requires Active(ch)
    ensures var r := Written(ch, off, w, enable).ch;
      && (!Reprograms(ch, off) ==> SameTransfer(ch, r))
      && (r.state == Suspended ==> ch.state == Suspended)
      && (ch.state == Running && ch.abortPending ==> r.state == Running && r.abortPending)
  {
    hide Flag, Resize, Actions;
    ActiveActions(ch.(ctrl := ch.ctrl.(circular := Flag(w, 0x2), prio := w / 0x400 % 4)), w, enable);
  }

  lemma InactiveData(ch: Channel, off: nat, w: nat)
    requires !Active(ch)
    ensures var r := WriteData(ch, off, w);
      !Active(r) && r.currSrc == ch.currSrc && r.currDst == ch.currDst && r.remaining == ch.remaining
  {
    hide Flag, SizeOf, Resize;
  }

  /** A write to the registers of a channel with no transfer under way. */
  lemma InactiveEffect(ch: Channel, off: nat, w: nat, enable: bool)
    requires !Active(ch)
    ensures var r := Written(ch, off, w, enable).ch;
      && (Active(r) ==> Fresh(r) && r.state == Running)
      && (!Active(r) ==> r.currSrc == ch.currSrc && r.currDst == ch.currDst && r.remaining == ch.remaining)
  {
    hide Flag, Startable, Fresh, CtrlOf, Actions, WriteData;
    var c := if ch.state == Complete && off != 0x14 then ch.(state := Idle) else ch;
    InactiveData(c, off, w);
    ActionsActivate(c, w, enable);
    ActionsActivate(c.(ctrl := CtrlOf(w), state := Configured), w, enable);
  }

  /** A register write leaves an active transfer where it stands unless it reprograms a
      suspended channel; it activates a channel only by a validated load; an aborted channel
      stays aborted. */
  lemma RegisterEffect(ch: Channel, off: nat, w: nat, enable: bool)
    ensures var r := Written(ch, off, w, enable).ch;
      && (Active(ch) && !Reprograms(ch, off) ==> SameTransfer(ch, r))
      && (r.state == Suspended ==> ch.state == Suspended)
      && (!Active(ch) && Active(r) ==> Fresh(r) && r.state == Running)
      && (!Active(ch) && !Active(r) ==>
           r.currSrc == ch.currSrc && r.currDst == ch.currDst && r.remaining == ch.remaining)
      && (ch.state == Running && ch.abortPending ==> r.state == Running && r.abortPending && SameTransfer(ch, r))
  {
    hide Written, Fresh, SameTransfer;
    if Active(ch) {
      ActiveEffect(ch, off, w, enable);
    } else {
      InactiveEffect(ch, off, w, enable);
    }
  }

  // ---------- Conservation ----------

  /** An active transfer has a legal locked width that divides what is left and the whole, and
      something is left. */
  ghost predicate Sound(ch: Channel) {
    Active(ch) ==>
      && ch.ctrl.width != 3
      && ch.size % WidthOf(ch) == 0 && ch.remaining % WidthOf(ch) == 0
      && 0 < ch.remaining <= ch.size
  }

  ghost predicate Conserved(d: Dma) {
    WellFormed(d) && forall i :: 0 <= i < |d.chs| ==> Sound(d.chs[i])
  }

  lemma ConservedIsWellFormed(d: Dma)
    requires Conserved(d)
    ensures WellFormed(d)
  {}

  /** What a size write to a suspended channel must satisfy. */
  ghost predicate ResizeOk(ch: Channel, val: nat) {
    val % WidthOf(ch) == 0 && val > ch.size - ch.remaining
  }

  /** Exactly when reprogramming the size keeps the transfer sound, and then the bytes already
      moved stay accounted for. */
  lemma ResizeSoundIff(ch: Channel, val: nat)
    requires WellFormedChannel(ch) && ch.state == Suspended && Sound(ch) && val <= 0x10000
    ensures Sound(Resize(ch, val)) <==> ResizeOk(ch, val)
    ensures ResizeOk(ch, val) ==> Resize(ch, val).size - Resize(ch, val).remaining == ch.size - ch.remaining
  {
    var moved := ch.size - ch.remaining;
    assert U32(moved) == moved && ToInt32(moved) == moved;
    ResizeArithmetic(ch.size, ch.remaining, val, WidthOf(ch));
  }

  lemma ResizeArithmetic(size: nat, remaining: nat, val: nat, w: nat)
    requires w in {1, 2, 4} && size % w == 0 && remaining % w == 0 && 0 < remaining <= size
    ensures var moved := size - remaining;
      var left: nat := if val <= moved then 0 else val - moved;
      var rem := left / w * w;
      && rem % w == 0
      && (val % w == 0 && 0 < rem <= val <==> val % w == 0 && val > moved)
      && (val % w == 0 && val > moved ==> val - rem == moved)
  {
    if w == 1 {
    } else if w == 2 {
    } else {
    }
  }

  /** Event `e` writes XFER_SIZE of the suspended channel `i`. */
  ghost predicate ResizesAt(d: Dma, e: Event, i: nat) {
    && i < |d.chs| && d.chs[i].state == Suspended
    && e.Register? && e.cmd.WriteCmd? && e.len == 4 && e.addr == 0x100 + 0x40 * i + 0x08 && e.addr <= 0x1FF
  }

  ghost predicate ResizesWell(d: Dma, e: Event)
    requires Conserved(d)
  {
    forall i :: 0 <= i < |d.chs| && ResizesAt(d, e, i) ==> ResizeOk(d.chs[i], SizeOf(e.data))
  }

  /** Event `e` writes register `off` of channel `i`. */
  ghost predicate WritesAt(d: Dma, e: Event, i: nat, off: nat) {
    && i < |d.chs| && off < 0x40 && e.Register? && e.cmd.WriteCmd? && Check(|d.chs|, e.cmd, e.addr, e.len) == Ok
    && e.addr >= 0x100 && (e.addr - 0x100) / 0x40 == i && (e.addr - 0x100) % 0x40 == off
  }

  predicate IsReset(e: Event) {
    e.Register? && e.cmd.WriteCmd? && e.len == 4 && e.addr == 0x00C && Flag(e.data, 0x2)
  }

  /** What a register event does to channel `i`: its own block is written, or everything is
      reset, or nothing happens to it. */
  lemma RegisterStep(d: Dma, e: Event, i: nat)
    requires WellFormed(d) && LegalEvent(e) && e.Register? && i < |d.chs|
    ensures var r := Step(d, e).chs[i];
      || (exists off :: WritesAt(d, e, i, off) && r == Written(d.chs[i], off, e.data, d.enable).ch)
      || (IsReset(e) && r == ResetChannel())
      || r == d.chs[i]
    ensures IsReset(e) ==> Step(d, e).chs[i] == ResetChannel()
    ensures forall off :: WritesAt(d, e, i, off) ==> Step(d, e).chs[i] == Written(d.chs[i], off, e.data, d.enable).ch
  {
    hide Written, Flag, BitsOf, UpdateIrqs;
    if e.cmd.WriteCmd? && Check(|d.chs|, e.cmd, e.addr, e.len) == Ok && e.addr >= 0x100 {
      var j, off := (e.addr - 0x100) / 0x40, (e.addr - 0x100) % 0x40;
      if i == j {
        assert WritesAt(d, e, i, off);
      }
    }
  }

  lemma WrittenSound(ch: Channel, off: nat, w: nat, enable: bool)
    requires WellFormedChannel(ch) && Sound(ch)
    ensures ch.state == Suspended && off == 0x08 ==>
      (Sound(Written(ch, off, w, enable).ch) <==> ResizeOk(ch, SizeOf(w)))
    ensures !(ch.state == Suspended && off == 0x08) ==> Sound(Written(ch, off, w, enable).ch)
  {
    RegisterEffect(ch, off, w, enable);
    if ch.state == Suspended && off == 0x08 {
      ResizeSoundIff(ch, SizeOf(w));
      assert Written(ch, off, w, enable).ch == Resize(ch, SizeOf(w));
    } else {
      WrittenSoundElse(ch, off, w, enable);
    }
  }

  lemma WrittenSoundElse(ch: Channel, off: nat, w: nat, enable: bool)
    requires WellFormedChannel(ch) && Sound(ch) && !(ch.state == Suspended && off == 0x08)
    ensures Sound(Written(ch, off, w, enable).ch)
  {
    RegisterEffect(ch, off, w, enable);
    if Reprograms(ch, off) {
      assert Written(ch, off, w, enable).ch == WriteData(ch, off, w);
    } else {
      hide Written, Startable, Flag;
      var r := Written(ch, off, w, enable).ch;
      if Active(r) && !Active(ch) {
        FreshIsSound(r);
      }
    }
  }

  lemma FreshIsSound(ch: Channel)
    requires Fresh(ch)
    ensures Sound(ch)
  {}

  // ---------- What a burst does ----------

  /** Bytes moved by up to `k` beats. */
  ghost function MovedBytes(d: Dma, sel: nat, k: nat): nat
    requires sel < |d.chs| && WellFormedChannelRange(d.chs[sel])
    decreases k
  {
    if k == 0 || d.chs[sel].abortPending || !BusOk(d, d.chs[sel]) then 0
    else
      var d1 := Move(d, sel);
      WidthOf(d.chs[sel]) + if d1.chs[sel].remaining == 0 then 0 else MovedBytes(d1, sel, k - 1)
  }

  /** Half events raised by up to `k` beats. */
  ghost function HalfEvents(d: Dma, sel: nat, k: nat): nat
    requires sel < |d.chs| && WellFormedChannelRange(d.chs[sel])
    decreases k
  {
    if k == 0 || d.chs[sel].abortPending || !BusOk(d, d.chs[sel]) then 0
    else
      var d1 := Move(d, sel);
      (if HalfFires(d.chs[sel]) then 1 else 0) + if d1.chs[sel].remaining == 0 then 0 else HalfEvents(d1, sel, k - 1)
  }

  /** The iteration ends (completes or wraps) within up to `k` beats. */
  ghost predicate Finishes(d: Dma, sel: nat, k: nat)
    requires sel < |d.chs| && WellFormedChannelRange(d.chs[sel])
    decreases k
  {
    k > 0 && !d.chs[sel].abortPending && BusOk(d, d.chs[sel]) &&
    var d1 := Move(d, sel);
    d1.chs[sel].remaining == 0 || Finishes(d1, sel, k - 1)
  }

  /** The half flag says whether at most half is left. */
  ghost predicate HalfOk(ch: Channel) {
    ch.half <==> ch.remaining <= ch.size / 2
  }

  /** The fixed part of a transfer. */
  ghost predicate SameJob(a: Channel, b: Channel) {
    a.src == b.src && a.dst == b.dst && a.size == b.size && a.config == b.config && a.ctrl == b.ctrl &&
    a.link == b.link && a.wraps == b.wraps
  }

  lemma MovedChannelFacts(ch: Channel)
    requires WellFormedChannel(ch) && Sound(ch) && Active(ch)
    ensures var r := MovedChannel(ch);
      && r.remaining == ch.remaining - WidthOf(ch) && r.remaining % WidthOf(ch) == 0
      && SameJob(ch, r) && r.state == ch.state && r.abortPending == ch.abortPending && r.pausePending == ch.pausePending
      && WidthOf(r) == WidthOf(ch)
      && (HalfFires(ch) <==> !ch.half && r.half) && (ch.half ==> r.half) && (r.remaining == 0 ==> r.half)
      && (HalfOk(ch) ==> HalfOk(r))
  {
    var w := WidthOf(ch);
    DividesAtLeast(ch.remaining, w);
    assert U32(ch.remaining - w) == ch.remaining - w;
  }

  lemma DividesAtLeast(x: nat, w: nat)
    requires w in {1, 2, 4} && x % w == 0 && 0 < x
    ensures x >= w && (x - w) % w == 0
  {
    match w
    case 1 =>
    case 2 => assert x >= 2 && (x - 2) % 2 == 0;
    case 4 => assert x >= 4 && (x - 4) % 4 == 0;
  }

  /** Up to `k` beats of a sound transfer: every byte that leaves `remaining` has moved, the half
      event fires once if the flag was down and exactly when it goes up (which the end of the
      iteration forces), and an unfinished transfer is only ever running on or stopped by an
      error. */
  lemma {:induction false} BurstAccounts(d: Dma, sel: nat, k: nat)
    requires WellFormed(d) && sel < |d.chs| && Sound(d.chs[sel]) && d.chs[sel].state == Running
    ensures var ch, r := d.chs[sel], Beats(d, sel, k).chs[sel];
      && (Finishes(d, sel, k) ==> MovedBytes(d, sel, k) == ch.remaining)
      && (!Finishes(d, sel, k) ==>
           && r.remaining == ch.remaining - MovedBytes(d, sel, k) && r.remaining > 0
           && SameJob(ch, r)
           && (if r.state == Running then
                 Sound(r) && r.pausePending == ch.pausePending && r.abortPending == ch.abortPending
               else r.state == Error && !r.pausePending)
           && (k > 0 && r.state == Running ==> MovedBytes(d, sel, k) > 0))
    ensures var ch, r := d.chs[sel], Beats(d, sel, k).chs[sel];
      HalfEvents(d, sel, k) + One(ch.half) == if Finishes(d, sel, k) then 1 else One(r.half)
    decreases k
  {
    hide Finish, CopyBytes, MovedChannel, HalfFires, BusOk, HalfOk;
    if k > 0 && !d.chs[sel].abortPending && BusOk(d, d.chs[sel]) {
      MoveKeepsRange(d, sel);
      MovedChannelFacts(d.chs[sel]);
      var d1 := Move(d, sel);
      if d1.chs[sel].remaining != 0 {
        BurstAccounts(d1, sel, k - 1);
      }
    }
  }

  /** While nobody changes the size, the flag goes up exactly when half or less is left. */
  lemma {:induction false} HalfStaysExact(d: Dma, sel: nat, k: nat)
    requires WellFormed(d) && sel < |d.chs| && Sound(d.chs[sel]) && d.chs[sel].state == Running
    requires HalfOk(d.chs[sel]) && !Finishes(d, sel, k)
    ensures HalfOk(Beats(d, sel, k).chs[sel])
    decreases k
  {
    hide Finish, CopyBytes, MovedChannel, HalfFires, BusOk;
    if k > 0 && !d.chs[sel].abortPending && BusOk(d, d.chs[sel]) {
      MoveKeepsRange(d, sel);
      MovedChannelFacts(d.chs[sel]);
      HalfStaysExact(Move(d, sel), sel, k - 1);
    }
  }

  /** A transfer with nothing moved yet: just started, or just wrapped. */
  ghost predicate AtFirstByte(ch: Channel) {
    ch.state == Running && Sound(ch) && ch.remaining == ch.size && ch.currSrc == ch.src &&
      ch.currDst == ch.dst && !ch.half
  }

  lemma LinkStartIsFresh(ch: Channel, enable: bool)
    requires !Active(ch)
    ensures var r := StartChannel(ch, true, enable);
      if Active(r) then AtFirstByte(r) && Fresh(r)
      else r.currSrc == ch.currSrc && r.currDst == ch.currDst && r.remaining == ch.remaining
  {}

  lemma FinishOutcome(d: Dma, sel: nat)
    requires sel < |d.chs|
    requires var ch := d.chs[sel];
      ch.state == Running && ch.ctrl.width != 3 && 0 < ch.size && ch.size % WidthOf(ch) == 0
    ensures var ch, r := d.chs[sel], Finish(d, sel).chs[sel];
      if ch.ctrl.circular then AtFirstByte(r) && r == Wrapped(ch)
      else r == ch.(state := Complete, pausePending := false) ||
           (ch.link.on && ch.link.target == sel &&
             r == StartChannel(ch.(state := Complete, pausePending := false), true, d.enable))
    ensures forall j :: 0 <= j < |d.chs| && j != sel ==>
      Finish(d, sel).chs[j] == d.chs[j] ||
      (!Active(d.chs[j]) && Finish(d, sel).chs[j] == StartChannel(d.chs[j], true, d.enable))
  {
    hide Startable, Loaded;
  }

  /** The end of an iteration: a circular channel is back at its first byte; any other is
      complete, or linked to itself and started again. */
  lemma {:induction false} FinishedBurst(d: Dma, sel: nat, k: nat)
    requires WellFormed(d) && sel < |d.chs| && Sound(d.chs[sel]) && d.chs[sel].state == Running
    requires Finishes(d, sel, k)
    ensures var r := Beats(d, sel, k).chs[sel];
      if d.chs[sel].ctrl.circular then AtFirstByte(r) && r.wraps == U32(d.chs[sel].wraps + 1)
      else
        || r.state == Complete || r.state == Error
        || (AtFirstByte(r) && Fresh(r) && d.chs[sel].link.on && d.chs[sel].link.target == sel)
    ensures Beats(d, sel, k).chs[sel].state == Complete ==> SameJob(d.chs[sel], Beats(d, sel, k).chs[sel])
    decreases k
  {
    hide Finish, CopyBytes, MovedChannel, HalfFires, BusOk, StartChannel, Fresh;
    MoveKeepsRange(d, sel);
    MovedChannelFacts(d.chs[sel]);
    var d1 := Move(d, sel);
    if d1.chs[sel].remaining != 0 {
      FinishedBurst(d1, sel, k - 1);
    } else {
      FinishOutcome(d1, sel);
      LinkStartIsFresh(d1.chs[sel].(state := Complete, pausePending := false), d.enable);
      LinkStartStates(d1.chs[sel].(state := Complete, pausePending := false), d.enable);
    }
  }

  lemma LinkStartStates(ch: Channel, enable: bool)
    requires ch.state == Complete
    ensures StartChannel(ch, true, enable).state in {Running, Error}
  {}

  /** Where the link of channel `c` leads, if anywhere. */
  ghost predicate LinksTo(d: Dma, c: nat, t: nat) {
    c < |d.chs| && t < |d.chs| && d.chs[c].link.on && d.chs[c].link.target == t
  }

  /** What a burst does to any other channel: exactly when the burst completes a channel that is
      not circular and links to it, it is started; otherwise it is left alone. */
  lemma {:induction false} OnlyLinkStarts(d: Dma, sel: nat, k: nat, j: nat)
    requires WellFormed(d) && sel < |d.chs| && j < |d.chs| && j != sel
    ensures Beats(d, sel, k).chs[j] ==
      if Finishes(d, sel, k) && !d.chs[sel].ctrl.circular && LinksTo(d, sel, j)
      then StartChannel(d.chs[j], true, d.enable) else d.chs[j]
    decreases k
  {
    hide CopyBytes, HalfFires, BusOk, StartChannel;
    if k > 0 && !d.chs[sel].abortPending && BusOk(d, d.chs[sel]) {
      MoveKeepsRange(d, sel);
      var d1 := Move(d, sel);
      if d1.chs[sel].remaining != 0 {
        OnlyLinkStarts(d1, sel, k - 1, j);
      }
    }
  }

  // ---------- What an engine event does to one channel ----------

  ghost predicate Bursts(d: Dma, e: Event, i: nat)
    requires WellFormed(d)
  {
    e.Engine? && i < |d.chs| && Selected(d) == i
  }

  lemma SelectedRuns(d: Dma)
    requires WellFormed(d)
    ensures Selected(d) <= |d.chs|
    ensures Selected(d) < |d.chs| ==> d.chs[Selected(d)].state == Running
  {
    hide Choose;
    ChooseFinds(d.arb, RunningOf(d.chs), PrioOf(d.chs));
  }

  /** The engine's working state when it bursts channel `Selected(d)`. */
  ghost function Arbitrated(d: Dma): (r: Dma)
    requires WellFormed(d)
    ensures r.chs == d.chs && r.mem == d.mem && r.enable == d.enable && WellFormed(r)
  {
    ChooseKeepsRange(d);
    d.(arb := Choose(d.arb, RunningOf(d.chs), PrioOf(d.chs)).arb)
  }

  lemma EngineIsBurst(d: Dma)
    requires WellFormed(d)
    ensures Selected(d) <= |d.chs|
    ensures EngineStep(d) == if Selected(d) < |d.chs| then Burst(Arbitrated(d), Selected(d)) else d
  {
    hide Choose, Burst;
    SelectedRuns(d);
  }

  /** The next engine event completes a channel whose link starts channel `j`. */
  ghost predicate LinkFires(d: Dma, j: nat)
    requires WellFormed(d)
  {
    && Selected(d) < |d.chs| && Finishes(Arbitrated(d), Selected(d), BeatCount(d.chs[Selected(d)]))
    && !d.chs[Selected(d)].ctrl.circular && LinksTo(d, Selected(d), j)
  }

  lemma EngineOnOther(d: Dma, i: nat)
    requires WellFormed(d) && i < |d.chs| && i != Selected(d)
    ensures EngineStep(d).chs[i] == if LinkFires(d, i) then StartChannel(d.chs[i], true, d.enable) else d.chs[i]
    ensures EngineStep(d).chs[i] == d.chs[i] || !Active(d.chs[i])
  {
    hide Beats, Choose;
    EngineIsBurst(d);
    SelectedRuns(d);
    var sel, d1 := Selected(d), Arbitrated(d);
    if sel < |d.chs| {
      OnlyLinkStarts(d1, sel, BeatCount(d1.chs[sel]), i);
    }
  }

  /** What the engine does to the channel it serves. */
  lemma EngineOnSelected(d: Dma, i: nat)
    requires WellFormed(d) && i < |d.chs| && i == Selected(d)
    ensures var d1, k := Arbitrated(d), BeatCount(d.chs[i]);
      var r, b := EngineStep(d).chs[i], Beats(d1, i, k).chs[i];
      && d.chs[i].state == Running
      && r == (if b.state == Running && b.pausePending then b.(state := Suspended, pausePending := false) else b)
  {
    hide Beats, Choose;
    EngineIsBurst(d);
    SelectedRuns(d);
  }

  /** What software programs; neither bursts nor links change it. */
  ghost predicate SameRegisters(a: Channel, b: Channel) {
    a.src == b.src && a.dst == b.dst && a.size == b.size && a.config == b.config && a.ctrl == b.ctrl && a.link == b.link
  }

  lemma StartKeepsRegisters(ch: Channel, enable: bool)
    ensures SameRegisters(ch, StartChannel(ch, true, enable))
  {}

  lemma FinishKeepsRegisters(d: Dma, sel: nat, i: nat)
    requires sel < |d.chs| && i < |d.chs|
    ensures SameRegisters(d.chs[i], Finish(d, sel).chs[i])
  {
    hide StartChannel, Raise, SameRegisters;
    var ch := d.chs[sel];
    var done := ch.(state := Complete, pausePending := false);
    assert SameRegisters(d.chs[i], d.chs[i]) && SameRegisters(ch, Wrapped(ch)) && SameRegisters(ch, done) by {
      PlainRegisters(ch);
      PlainRegisters(d.chs[i]);
    }
    StartKeepsRegisters(done, d.enable);
    StartKeepsRegisters(d.chs[i], d.enable);
    SameRegistersTwice(ch, done, StartChannel(done, true, d.enable));
  }

  lemma PlainRegisters(ch: Channel)
    ensures SameRegisters(ch, ch) && SameRegisters(ch, Wrapped(ch)) &&
      SameRegisters(ch, ch.(state := Complete, pausePending := false))
  {}

  lemma SameRegistersTwice(a: Channel, b: Channel, c: Channel)
    requires SameRegisters(a, b) && SameRegisters(b, c)
    ensures SameRegisters(a, c)
  {}

  lemma {:induction false} BeatsKeepRegisters(d: Dma, sel: nat, k: nat, i: nat)
    requires WellFormed(d) && sel < |d.chs| && i < |d.chs|
    ensures SameRegisters(d.chs[i], Beats(d, sel, k).chs[i])
    decreases k
  {
    hide CopyBytes, HalfFires, BusOk, Finish;
    if k > 0 && !d.chs[sel].abortPending && BusOk(d, d.chs[sel]) {
      MoveKeepsRange(d, sel);
      var d1 := Move(d, sel);
      if d1.chs[sel].remaining == 0 {
        FinishKeepsRegisters(d1, sel, i);
      } else {
        BeatsKeepRegisters(d1, sel, k - 1, i);
      }
    }
  }

  lemma EngineKeepsRegisters(d: Dma, i: nat)
    requires WellFormed(d) && i < |d.chs|
    ensures SameRegisters(d.chs[i], EngineStep(d).chs[i])
  {
    hide Beats, Choose;
    EngineIsBurst(d);
    SelectedRuns(d);
    if Selected(d) < |d.chs| {
      BeatsKeepRegisters(Arbitrated(d), Selected(d), BeatCount(d.chs[Selected(d)]), i);
    }
  }

  lemma EngineKeepsSound(d: Dma, i: nat)
    requires WellFormed(d) && i < |d.chs| && Sound(d.chs[i])
    ensures Sound(EngineStep(d).chs[i])
  {
    hide EngineStep, Beats, Finishes, StartChannel, Selected, Arbitrated;
    if i == Selected(d) {
      EngineOnSelected(d, i);
      var d1, k := Arbitrated(d), BeatCount(d.chs[i]);
      BurstAccounts(d1, i, k);
      if Finishes(d1, i, k) {
        FinishedBurst(d1, i, k);
      }
    } else {
      EngineOnOther(d, i);
      if !Active(d.chs[i]) {
        LinkStartIsFresh(d.chs[i], d.enable);
      }
    }
  }

  /** Conservation over every event, and exactly when it holds: register traffic of any kind,
      resets, bursts with or without bus errors, links and wraps keep every active transfer
      sound; only a size write to a suspended channel can break it, and it does so exactly when
      the new size is not a multiple of the width or does not exceed the bytes already moved. */
  lemma ConservedIff(d: Dma, e: Event)
    requires Conserved(d) && LegalEvent(e)
    ensures Conserved(Step(d, e)) <==> ResizesWell(d, e)
  {
    hide Step, Written, Sound, ResizeOk, WellFormedChannel, Flag;
    StepKeepsWellFormed(d, e);
    if e.Engine? {
      forall i | 0 <= i < |d.chs|
        ensures Sound(Step(d, e).chs[i])
      {
        EngineKeepsSound(d, i);
        EngineIsStep(d);
      }
    } else {
      forall i | 0 <= i < |d.chs|
        ensures Sound(Step(d, e).chs[i]) <==> (ResizesAt(d, e, i) ==> ResizeOk(d.chs[i], SizeOf(e.data)))
      {
        RegisterSoundIff(d, e, i);
      }
    }
  }

  lemma EngineIsStep(d: Dma)
    requires WellFormed(d)
    ensures Step(d, Engine) == EngineStep(d)
  {}

  lemma RegisterSoundIff(d: Dma, e: Event, i: nat)
    requires Conserved(d) && LegalEvent(e) && e.Register? && i < |d.chs|
    ensures Sound(Step(d, e).chs[i]) <==> (ResizesAt(d, e, i) ==> ResizeOk(d.chs[i], SizeOf(e.data)))
  {
    hide Step, Written, ResizeOk, Flag;
    RegisterStep(d, e, i);
    var ch := d.chs[i];
    assert ResizesAt(d, e, i) ==> WritesAt(d, e, i, 0x08);
    if off: nat :| WritesAt(d, e, i, off) {
      WrittenSound(ch, off, e.data, d.enable);
    }
  }
}

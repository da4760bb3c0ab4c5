/** The DMA controller as the program writes it (dma_controller.h): register handlers, the
arbitration loops and the beat loop, updating channels in place. Each method is proved equal to
the specification functions of DmaState. */
module DmaProgram {
  import opened Prelude
  import opened CyclicScan
  import opened Words
  import opened DmaState
  import opened DmaInvariants
  import opened DmaConservation
  import opened DmaRuns

  class DmaController {
    const numChannels: nat
    var channels: seq<Channel>
    var globalEnable: bool
    var intStatus: set<nat>
    var intMask: set<nat>
    var irqState: seq<bool>
    var irqGlobalState: bool
    var lastPriority: int
    var consecSamePriority: nat
    var rrPointer: nat
    /** The memory behind the initiator socket. */
    var mem: map<nat, Byte>

    ghost function View(): Dma
      reads this
    {
      Dma(channels, globalEnable, intStatus, intMask, Arb(lastPriority, consecSamePriority, rrPointer),
          irqState, irqGlobalState, mem)
    }

    ghost predicate Valid()
      reads this
    {
      WellFormed(View()) && |channels| == |irqState| == numChannels
    }

    constructor (numChannels: nat, mem: map<nat, Byte>)
      requires 1 <= numChannels <= 10
      ensures Valid() && View() == Reset(numChannels, mem)
      ensures Conserved(View()) && IrqExact(View())
    {
      this.numChannels := numChannels;
      channels := seq(numChannels, i => ResetChannel());
      globalEnable := false;
      intStatus := {};
      intMask := TwelveBits();
      irqState := seq(numChannels, i => false);
      irqGlobalState := false;
      lastPriority := -1;
      consecSamePriority := 0;
      rrPointer := 0;
      this.mem := mem;
      new;
      ResetStateIsConserved(numChannels, mem);
    }

    // ---------- Interrupt outputs and reset ----------

    method ChannelRaised(n: nat) returns (chIrq: bool)
      ensures chIrq == Raised(View(), n)
    {
      chIrq := false;
      for k := 0 to 3
        invariant chIrq <==> exists bit :: 3 * n <= bit < 3 * n + k && bit in intStatus && bit !in intMask
      {
        var bit := n * 3 + k;
        if bit in intStatus && bit !in intMask {
          chIrq := true;
        }
      }
    }

    method UpdateIrqs()
      requires |channels| == |irqState| == numChannels
      modifies this`irqState, this`irqGlobalState
      ensures |irqState| == numChannels
      ensures View() == DmaState.UpdateIrqs(old(View()))
    {
      hide Raised;
      ghost var lines := DmaState.UpdateIrqs(View()).irq;
      ghost var d := View();
      var global := false;
      for n := 0 to numChannels
        invariant |irqState| == numChannels
        invariant forall i :: 0 <= i < n ==> irqState[i] == lines[i]
        invariant global <==> exists i :: 0 <= i < n && lines[i]
      {
        var chIrq := ChannelRaised(n);
        SameRaised(d, View(), n);
        irqState := irqState[n := chIrq];
        if chIrq {
          global := true;
        }
      }
      irqGlobalState := global;
      assert irqState == lines;
    }

    static lemma SameRaised(d: Dma, r: Dma, i: nat)
      requires r.intStatus == d.intStatus && r.intMask == d.intMask
      ensures Raised(r, i) == Raised(d, i)
    {}

    method RaiseInterrupt(bit: nat)
      requires |channels| == |irqState| == numChannels
      modifies this`intStatus, this`irqState, this`irqGlobalState
      ensures |irqState| == numChannels
      ensures View() == Raise(old(View()), bit)
    {
      intStatus := intStatus + {bit};
      UpdateIrqs();
    }

    method DoGlobalReset()
      requires Valid()
      modifies this
      ensures View() == DmaState.UpdateIrqs(Reset(numChannels, old(mem)))
      ensures Valid()
    {
      globalEnable := false;
      intStatus := {};
      intMask := TwelveBits();
      for i := 0 to numChannels
        invariant |channels| == numChannels && forall j :: 0 <= j < i ==> channels[j] == ResetChannel()
        invariant |irqState| == numChannels
        invariant !globalEnable && intStatus == {} && intMask == TwelveBits() && mem == old(mem)
      {
        channels := channels[i := ResetChannel()];
      }
      lastPriority := -1;
      consecSamePriority := 0;
      rrPointer := 0;
      UpdateIrqs();
      ghost var r := Reset(numChannels, mem);
      assert channels == r.chs;
      assert forall i :: Raised(View(), i) == Raised(r, i);
      assert irqState == DmaState.UpdateIrqs(r).irq;
    }

    // ---------- Register handlers ----------

    method StartChannelAt(i: nat, fromLink: bool)
      requires i < |channels|
      modifies this`channels
      ensures View() == Start(old(View()), i, fromLink)
    {
      if channels[i].state == Running || channels[i].state == Suspended {
        return;
      }
      var ch := channels[i];
      if ch.state == Complete {
        ch := ch.(state := Configured);
      }
      if ch.state == Idle {
        ch := ch.(state := Configured);
      }
      if fromLink || globalEnable {
        var width := if ch.ctrl.width == 0 then 1 else if ch.ctrl.width == 1 then 2 else 4;
        if ch.ctrl.width == 3 || ch.size == 0 || ch.size > 65536 ||
           ch.size % width != 0 || ch.src % width != 0 || ch.dst % width != 0 {
          ch := ch.(state := Error);
        } else {
          ch := ch.(state := Running, currSrc := ch.src, currDst := ch.dst, remaining := ch.size,
                    wraps := 0, half := false, pausePending := false, abortPending := false);
        }
      }
      channels := channels[i := ch];
    }

    method HandleCtrlWrite(idx: nat, w: nat)
      requires Valid() && idx < numChannels
      modifies this
      ensures var e := WriteCtrl(old(channels)[idx], w, old(globalEnable));
        View() == if e.error then Raise(Put(old(View()), idx, e.ch), 3 * idx + 2) else Put(old(View()), idx, e.ch)
    {
      hide Flag, Startable, Actions, CtrlOf, Raise;
      if channels[idx].state == Idle || channels[idx].state == Configured {
        channels := channels[idx := channels[idx].(ctrl := CtrlOf(w), state := Configured)];
      } else if channels[idx].state == Running || channels[idx].state == Suspended {
        channels := channels[idx := channels[idx].(ctrl :=
                               channels[idx].ctrl.(circular := Flag(w, 0x2), prio := w / 0x400 % 4))];
      } else if channels[idx].state == Error {
        if Flag(w, 0x20) {
          channels := channels[idx := channels[idx].(state := Idle)];
        }
        return;
      }
      ghost var d := View();
      ProcessActions(idx, w);
      PutTwice(old(View()), idx, d.chs[idx]);
    }

    static lemma PutTwice(d: Dma, i: nat, a: Channel)
      requires i < |d.chs|
      ensures forall b :: Put(Put(d, i, a), i, b) == Put(d, i, b)
      ensures Put(d, i, d.chs[i]) == d
    {}

    /** The action bits, in ascending bit order. */
    method ProcessActions(idx: nat, w: nat)
      requires idx < numChannels == |channels| == |irqState|
      modifies this
      ensures var e := Actions(old(channels)[idx], w, old(globalEnable));
        View() == if e.error then Raise(Put(old(View()), idx, e.ch), 3 * idx + 2) else Put(old(View()), idx, e.ch)
    {
      hide Flag, StartChannel, Paused, Resumed, Aborted, Cleared;
      ghost var d := View();
      if Flag(w, 0x1) {
        StartChannelAt(idx, false);
      }
      assert View() == Put(d, idx, Started(d.chs[idx], w, d.enable));
      var ch, error := AfterStart(channels[idx], w);
      PutTwice(d, idx, channels[idx]);
      channels := channels[idx := ch];
      assert View() == Put(d, idx, ch);
      if error {
        RaiseInterrupt(3 * idx + 2);
      }
    }

    /** PAUSE, RESUME, ABORT and CLR_ERR on the channel START has left. */
    method AfterStart(c: Channel, w: nat) returns (ch: Channel, error: bool)
      ensures var e := Aborted(Resumed(Paused(c, w), w), w); Effect(ch, error) == Effect(Cleared(e.ch, w), e.error)
    {
      hide Flag;
      ch, error := c, false;
      if Flag(w, 0x4) && ch.state == Running {
        ch := ch.(pausePending := true);
      }
      if Flag(w, 0x8) && ch.state == Suspended {
        ch := ch.(state := Running, pausePending := false);
      }
      if Flag(w, 0x10) && (ch.state == Running || ch.state == Suspended) {
        ch := ch.(abortPending := true);
        if ch.state == Suspended {
          ch := ch.(state := Error);
          error := true;
        }
      }
      if Flag(w, 0x20) && ch.state == Error {
        ch := ch.(state := Idle);
      }
    }

    method WriteDataRegister(idx: nat, off: nat, w: nat)
      requires idx < |channels|
      modifies this`channels
      ensures View() == Put(old(View()), idx, WriteData(old(channels)[idx], off, w))
    {
      hide Flag;
      var ch := channels[idx];
      var free := ch.state == Idle || ch.state == Configured;
      if off == 0x00 {
        if free {
          ch := ch.(src := w, state := Configured);
        } else if ch.state == Suspended {
          ch := ch.(src := w, currSrc := w);
        }
      } else if off == 0x04 {
        if free {
          ch := ch.(dst := w, state := Configured);
        } else if ch.state == Suspended {
          ch := ch.(dst := w, currDst := w);
        }
      } else if off == 0x08 {
        var val := SizeOf(w);
        if free {
          ch := ch.(size := val, state := Configured);
        } else if ch.state == Suspended {
          var transferred := U32(ch.size - ch.remaining);
          var newRem := val - ToInt32(transferred);
          var rem: nat := if newRem <= 0 then 0 else newRem;
          var width := WidthOf(ch);
          if width > 1 && rem % width != 0 {
            rem := rem / width * width;
          }
          RoundsToItself(rem, width);
          ch := ch.(size := val, remaining := rem);
        }
      } else if off == 0x10 {
        if free {
          ch := ch.(config := w % 16, state := Configured);
        }
      } else if off == 0x28 {
        ch := ch.(link := Link(Flag(w, 0x80), w % 4));
      }
      channels := channels[idx := ch];
    }

    static lemma RoundsToItself(x: nat, w: nat)
      requires w in {1, 2, 4}
      ensures (w == 1 || x % w == 0) ==> x / w * w == x
    {}

    method HandleChannelWrite(idx: nat, off: nat, w: nat)
      requires Valid() && idx < numChannels && w < WORD_RANGE
      modifies this
      ensures View() == WriteChannel(old(View()), idx, off, w)
      ensures Valid()
    {
      hide WriteCtrl, WriteData, WellFormedChannel;
      WrittenKeepsRange(channels[idx], off, w, globalEnable);
      assert WellFormedChannel(channels[idx]);
      if channels[idx].state == Complete && off != 0x14 {
        AcknowledgeKeepsRange(channels[idx]);
        PutTwice(View(), idx, channels[idx].(state := Idle));
        channels := channels[idx := channels[idx].(state := Idle)];
      }
      if off == 0x0C {
        HandleCtrlWrite(idx, w);
      } else {
        WriteDataRegister(idx, off, w);
      }
    }

    static lemma AcknowledgeKeepsRange(ch: Channel)
      requires WellFormedChannel(ch)
      ensures WellFormedChannel(ch.(state := Idle))
    {}

    method HandleGlobalWrite(addr: nat, w: nat)
      requires Valid() && addr < 0x018
      modifies this
      ensures View() == WriteGlobal(old(View()), addr, w)
      ensures Valid()
    {
      hide BitsOf, Flag, WellFormedChannel;
      if addr == 0x008 {
        intStatus := intStatus - BitsOf(w) * TwelveBits();
        UpdateIrqs();
      } else if addr == 0x00C {
        if Flag(w, 0x2) {
          DoGlobalReset();
        } else {
          globalEnable := Flag(w, 0x1);
        }
      } else if addr == 0x014 {
        intMask := BitsOf(w) * TwelveBits();
        UpdateIrqs();
      }
    }

    method StatusBits() returns (bits: set<nat>)
      requires Valid()
      ensures bits == ActiveBits(View())
    {
      bits := {};
      for i := 0 to numChannels
        invariant forall j :: j in bits <==> 0 <= j < i && Active(channels[j])
      {
        if channels[i].state == Running || channels[i].state == Suspended {
          bits := bits + {i};
        }
      }
    }

    method ReadRegister(addr: nat) returns (data: nat)
      requires Valid() && Check(numChannels, ReadCmd, addr, 4) == Ok
      ensures data == ReadReg(View(), addr)
    {
      hide WordOf, ReadChannel, WellFormedChannel;
      if addr == 0x000 {
        var bits := StatusBits();
        data := WordOf(bits);
      } else if addr == 0x004 {
        data := WordOf(intStatus);
      } else if addr == 0x008 {
        data := 0;
      } else if addr == 0x00C {
        data := One(globalEnable);
      } else if addr == 0x010 {
        data := 0x444D4102;
      } else if addr == 0x014 {
        data := WordOf(intMask);
      } else {
        data := ReadChannel(channels[(addr - 0x100) / 0x40], (addr - 0x100) % 0x40);
      }
    }

    method BTransport(cmd: Command, addr: nat, len: nat, streaming: nat, wdata: nat)
      returns (status: Status, rdata: nat)
      requires Valid() && wdata < WORD_RANGE
      modifies this
      ensures Valid()
      ensures status == if streaming == 0 || streaming == 4 then Check(numChannels, cmd, addr, len) else GenericError
      ensures View() ==
        if streaming == 0 || streaming == 4 then Step(old(View()), Register(cmd, addr, len, wdata)) else old(View())
      ensures status == Ok && cmd.ReadCmd? ==> rdata == ReadReg(old(View()), addr)
    {
      hide WellFormedChannel, WriteGlobal, WriteChannel, ReadReg;
      rdata := 0;
      if cmd.OtherCmd? {
        return GenericError, 0;
      }
      if len != 4 {
        return GenericError, 0;
      }
      if streaming != 0 && streaming != 4 {
        return GenericError, 0;
      }
      if addr % 4 != 0 {
        return GenericError, 0;
      }
      if addr > 0x1FF {
        return AddressError, 0;
      }
      if 0x018 <= addr < 0x100 {
        return AddressError, 0;
      }
      if addr >= 0x100 && (addr - 0x100) / 0x40 >= numChannels {
        return AddressError, 0;
      }
      if cmd.ReadCmd? {
        rdata := ReadRegister(addr);
      } else if addr < 0x018 {
        HandleGlobalWrite(addr, wdata);
      } else {
        HandleChannelWrite((addr - 0x100) / 0x40, (addr - 0x100) % 0x40, wdata);
      }
      return Ok, rdata;
    }

    // ---------- The engine ----------

    /** The loops that look for the highest running priority below a limit. */
    method MaxPriorityBelow(limit: int) returns (best: int)
      requires Valid()
      ensures best == TopBelow(RunningOf(channels), PrioOf(channels), numChannels, limit)
    {
      best := -1;
      for i := 0 to numChannels
        invariant best == TopBelow(RunningOf(channels), PrioOf(channels), i, limit)
      {
        if channels[i].state == Running && channels[i].ctrl.prio < limit && best < channels[i].ctrl.prio {
          best := channels[i].ctrl.prio;
        }
      }
    }

    /** The starvation counter: whether this round is forced to a lower level. */
    method CountRound(maxPri: int, lower: int) returns (forceLower: bool)
      modifies this`lastPriority, this`consecSamePriority
      ensures forceLower == (maxPri == old(lastPriority) && old(consecSamePriority) + 1 >= 8 && lower >= 0)
      ensures lastPriority == maxPri
      ensures consecSamePriority ==
        if forceLower then 0 else if maxPri == old(lastPriority) then old(consecSamePriority) + 1 else 1
    {
      forceLower := false;
      if maxPri == lastPriority {
        consecSamePriority := consecSamePriority + 1;
        if consecSamePriority >= 8 {
          forceLower := lower >= 0;
          if forceLower {
            consecSamePriority := 0;
          }
        }
      } else {
        lastPriority := maxPri;
        consecSamePriority := 1;
      }
    }

    method SelectChannel() returns (sel: int)
      requires Valid()
      modifies this`lastPriority, this`consecSamePriority, this`rrPointer
      ensures var c := Choose(old(View()).arb, RunningOf(channels), PrioOf(channels));
        && View() == old(View()).(arb := c.arb)
        && sel == if c.sel < numChannels then c.sel else -1
      ensures Valid()
    {
      hide WellFormedChannel, Level, TopBelow, Choose, RunningOf, PrioOf, Nearest;
      ghost var running, prio := RunningOf(channels), PrioOf(channels);
      ghost var a := View().arb;
      ChooseFinds(a, running, prio);
      ChoiceIs(a, running, prio);
      var maxPri := MaxPriorityBelow(NO_LIMIT);
      if maxPri < 0 {
        return -1;
      }
      var lower := MaxPriorityBelow(maxPri);
      var forceLower := CountRound(maxPri, lower);
      assert forceLower == Forced(a, running, prio);
      var targetPri := if forceLower then lower else maxPri;
      sel := ScanLevel(targetPri);
      if sel >= 0 {
        ModIsAt(numChannels, sel, 1);
        rrPointer := (sel + 1) % numChannels;
      }
    }

    static lemma ChoiceIs(a: Arb, running: seq<bool>, prio: seq<nat>)
      requires |running| == |prio| && a.rr < |prio|
      ensures var top, forced, c := Top(running, prio), Forced(a, running, prio), Choose(a, running, prio);
        var w := Nearest(Level(running, prio, if forced then NextTop(running, prio) else top), a.rr);
        if top < 0 then c.arb == a
        else c == Choice(w, Arb(top, if forced then 0 else if top == a.last then a.consec + 1 else 1,
                                if w < |prio| then Next(|prio|, w) else a.rr))
    {}

    /** Round-robin within one level. */
    method ScanLevel(targetPri: int) returns (sel: int)
      requires |channels| == numChannels && rrPointer < numChannels
      ensures var w := Nearest(Level(RunningOf(channels), PrioOf(channels), targetPri), rrPointer);
        sel == if w < numChannels then w else -1
    {
      ghost var level := Level(RunningOf(channels), PrioOf(channels), targetPri);
      for i := 0 to numChannels
        invariant forall j :: 0 <= j < i ==> !level[At(numChannels, rrPointer, j)]
      {
        ModIsAt(numChannels, rrPointer, i);
        var idx := (rrPointer + i) % numChannels;
        if channels[idx].state == Running && channels[idx].ctrl.prio == targetPri {
          DistOfAt(numChannels, rrPointer, i);
          NearestUnique(level, rrPointer, idx);
          return idx;
        }
      }
      NothingFound(level, rrPointer);
      return -1;
    }

    method FailChannel(sel: nat)
      requires sel < |channels| == |irqState| == numChannels
      modifies this`channels, this`intStatus, this`irqState, this`irqGlobalState
      ensures |irqState| == numChannels
      ensures View() == Fail(old(View()), sel)
    {
      channels := channels[sel := channels[sel].(state := Error, pausePending := false)];
      RaiseInterrupt(3 * sel + 2);
    }

    /** One beat: read, write, advance, count, half event. */
    method DoBeat(sel: nat)
      requires Valid() && sel < numChannels && BusOk(View(), channels[sel])
      modifies this
      ensures View() == Move(old(View()), sel)
      ensures Valid()
    {
      hide HalfFires, CopyBytes, Decodes, WellFormedChannel, Advance, U32;
      ghost var before := View();
      MoveKeepsRange(View(), sel);
      var ch := channels[sel];
      assert WellFormedChannel(ch);
      InRange(ch);
      var width := WidthOf(ch);
      mem := CopyBytesMem(mem, ch.currSrc, ch.currDst, width);
      ch := ch.(currSrc := Advance(ch.currSrc, ch.config % 4, width),
        currDst := Advance(ch.currDst, ch.config / 4 % 4, width));
      ch := ch.(remaining := U32(ch.remaining - width));
      if !ch.half && ch.remaining <= ch.size / 2 {
        ch := ch.(half := true);
        channels := channels[sel := ch];
        FiresNow(before.chs[sel]);
        RaiseInterrupt(3 * sel + 1);
      } else {
        FiresNow(before.chs[sel]);
        channels := channels[sel := ch];
      }
    }

    static lemma SuspendKeepsRange(ch: Channel)
      ensures WellFormedChannel(ch) ==> WellFormedChannel(ch.(state := Suspended, pausePending := false))
    {}

    static lemma AllInRange(d: Dma)
      requires WellFormed(d)
      ensures forall i :: 0 <= i < |d.chs| ==> WellFormedChannelRange(d.chs[i])
    {}

    static lemma InRange(ch: Channel)
      requires WellFormedChannel(ch)
      ensures WellFormedChannelRange(ch)
    {}

    static lemma FiresNow(ch: Channel)
      ensures HalfFires(ch) <==> !ch.half && U32(ch.remaining - WidthOf(ch)) <= ch.size / 2
    {}

    static function CopyBytesMem(m: map<nat, Byte>, from: nat, to: nat, w: nat): (r: map<nat, Byte>)
      requires Decodes(m, from, w)
    {
      CopyBytes(m, from, to, w)
    }

    /** The end of an iteration. */
    method FinishIteration(sel: nat) returns (wrapped: bool)
      requires Valid() && sel < numChannels
      modifies this
      ensures View() == Finish(old(View()), sel)
      ensures wrapped == old(channels)[sel].ctrl.circular
      ensures Valid()
    {
      hide WellFormedChannel, StartChannel;
      FinishKeepsRange(View(), sel);
      var ch := channels[sel];
      if ch.ctrl.circular {
        channels := channels[sel := ch.(wraps := U32(ch.wraps + 1), currSrc := ch.src, currDst := ch.dst,
                                        remaining := ch.size, half := false)];
        RaiseInterrupt(3 * sel);
        return true;
      }
      channels := channels[sel := ch.(state := Complete, pausePending := false)];
      RaiseInterrupt(3 * sel);
      if channels[sel].link.on && channels[sel].state == Complete {
        var target := channels[sel].link.target;
        if target < numChannels {
          StartChannelAt(target, true);
        }
      }
      return false;
    }

    /** How a beat leaves the loop: go on, break to the pause check, or jump over it. */
    method BeatOnce(sel: nat, ghost k: nat) returns (more: bool, checkPause: bool)
      requires Valid() && sel < numChannels && channels[sel].state == Running && k > 0
      requires WellFormedChannelRange(channels[sel])
      modifies this
      ensures Valid() && WellFormedChannelRange(channels[sel])
      ensures Beats(old(View()), sel, k) == if more then Beats(View(), sel, k - 1) else View()
      ensures more ==> channels[sel].state == Running
      ensures !more && !checkPause ==> PauseCheck(View(), sel) == View()
    {
      hide WellFormedChannel, Move, Finish, Fail, BusOk;
      BeatsKeepRange(View(), sel, k);
      if channels[sel].abortPending {
        channels := channels[sel := channels[sel].(abortPending := false)];
        FailChannel(sel);
        AllInRange(View());
        NoPauseAfterFail(View(), sel);
        return false, false;
      }
      if !BusAnswers(sel) {
        FailChannel(sel);
        AllInRange(View());
        NoPauseAfterFail(View(), sel);
        return false, false;
      }
      MoveKeepsState(View(), sel);
      DoBeat(sel);
      AllInRange(View());
      if channels[sel].remaining == 0 {
        NoPauseAfterFinish(View(), sel);
        checkPause := FinishIteration(sel);
        AllInRange(View());
        return false, checkPause;
      }
      return true, true;
    }

    /** The beat loop; `checkPause` is false when it is left past the pause check. */
    method RunBeats(sel: nat, beats: nat) returns (checkPause: bool)
      requires Valid() && sel < numChannels && channels[sel].state == Running
      requires WellFormedChannelRange(channels[sel])
      modifies this
      ensures View() == Beats(old(View()), sel, beats)
      ensures !checkPause ==> PauseCheck(View(), sel) == View()
      ensures Valid()
    {
      hide WellFormedChannel, Beats, PauseCheck;
      ghost var target := Beats(View(), sel, beats);
      for b := 0 to beats
        invariant Valid() && WellFormedChannelRange(channels[sel])
        invariant Beats(View(), sel, beats - b) == target
        invariant channels[sel].state == Running
      {
        var more;
        more, checkPause := BeatOnce(sel, beats - b);
        if !more {
          return;
        }
      }
      NoBeats(View(), sel);
      return true;
    }

    /** The beat loop and the pause check after it. */
    method RunBurst(sel: nat)
      requires Valid() && sel < numChannels && channels[sel].state == Running
      modifies this
      ensures View() == Burst(old(View()), sel)
      ensures Valid()
    {
      hide WellFormedChannel, Beats, BeatCount;
      AllInRange(View());
      var checkPause := RunBeats(sel, BeatCount(channels[sel]));
      if checkPause && channels[sel].state == Running && channels[sel].pausePending {
        SuspendKeepsRange(channels[sel]);
        channels := channels[sel := channels[sel].(state := Suspended, pausePending := false)];
      }
    }

    static lemma NoBeats(d: Dma, sel: nat)
      requires sel < |d.chs| && WellFormedChannelRange(d.chs[sel])
      ensures Beats(d, sel, 0) == d
    {}

    predicate BusAnswers(sel: nat)
      requires sel < |channels|
      reads this
      ensures BusAnswers(sel) == BusOk(View(), channels[sel])
    {
      Decodes(mem, channels[sel].currSrc, WidthOf(channels[sel])) &&
        Decodes(mem, channels[sel].currDst, WidthOf(channels[sel]))
    }

    static lemma NoPauseAfterFail(d: Dma, sel: nat)
      requires sel < |d.chs| && d.chs[sel].state != Running
      ensures PauseCheck(d, sel) == d
    {}

    static lemma MoveKeepsState(d: Dma, sel: nat)
      requires sel < |d.chs| && WellFormedChannelRange(d.chs[sel]) && BusOk(d, d.chs[sel])
      ensures Move(d, sel).chs[sel].state == d.chs[sel].state
    {}

    static lemma NoPauseAfterFinish(d: Dma, sel: nat)
      requires sel < |d.chs|
      ensures !d.chs[sel].ctrl.circular ==> PauseCheck(Finish(d, sel), sel) == Finish(d, sel)
      ensures d.chs[sel].ctrl.circular ==> Finish(d, sel).chs[sel].state == d.chs[sel].state
    {}

    /** One round of the transfer thread: arbitrate and, if something runs, burst. */
    method TransferRound()
      requires Valid()
      modifies this
      ensures View() == EngineStep(old(View()))
      ensures Valid()
    {
      hide WellFormedChannel, Burst, Choose;
      ChooseFinds(View().arb, RunningOf(channels), PrioOf(channels));
      var sel := SelectChannel();
      if sel < 0 {
        IdleChoice(old(View()));
        return;
      }
      RunBurst(sel);
    }

    static lemma IdleChoice(d: Dma)
      requires WellFormed(d)
      ensures var c := Choose(d.arb, RunningOf(d.chs), PrioOf(d.chs)); c.sel >= |d.chs| ==> c.arb == d.arb
    {
      ChooseFinds(d.arb, RunningOf(d.chs), PrioOf(d.chs));
    }
  }
}

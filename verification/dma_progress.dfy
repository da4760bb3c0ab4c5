/** What a burst of the DMA controller moves and what the registers show of it: for every address
mode the beats are word copies between addresses in closed form, and the status registers tell
the state of the channels bit by bit. */
module DmaProgress {
  import opened Prelude
  import opened Words
  import opened DmaState
  import opened DmaInvariants
  import opened DmaConservation
  import opened DmaRuns
  import opened DmaStatus
  import opened DmaMachine

  // ---------- Addresses in closed form ----------

  /** An address after `n` bytes: ahead, back or where it was, by the address mode. */
  function Advanced(a: nat, mode: nat, n: nat): nat {
    if mode == 0 then U32(a + n) else if mode == 1 then U32(a - n) else a
  }

  lemma WrapTwice(a: int, b: int)
    ensures U32(U32(a) + b) == U32(a + b)
  {
    var q := a / WORD_RANGE;
    assert U32(a) == a - q * WORD_RANGE;
    var t := (a + b) / WORD_RANGE;
    assert U32(a) + b == (t - q) * WORD_RANGE + U32(a + b);
  }

  lemma AdvancedMore(a: nat, mode: nat, w: nat, n: nat)
    requires a < WORD_RANGE
    ensures Advanced(Advance(a, mode, w), mode, n) == Advanced(a, mode, w + n)
    ensures Advance(Advanced(a, mode, n), mode, w) == Advanced(a, mode, n + w)
    ensures Advanced(a, mode, 0) == a
  {
    hide U32;
    WrapTwice(a + w, n);
    WrapTwice(a + n, w);
    WrapTwice(a - w, 0 - n);
    WrapTwice(a - n, 0 - w);
    InRange(a);
  }

  lemma InRange(a: nat)
    requires a < WORD_RANGE
    ensures U32(a) == a
  {}

  /** Copy the `w` bytes at `from` to `to`. */
  function CopyWord(mem: map<nat, Byte>, from: nat, to: nat, w: nat): (r: map<nat, Byte>)
    ensures r.Keys == mem.Keys
  {
    map x | x in mem :: AfterWord(mem, from, to, w, x)
  }

  function AfterWord(mem: map<nat, Byte>, from: nat, to: nat, w: nat, x: nat): Byte
    requires x in mem
  {
    if to <= x < to + w && from + (x - to) in mem then mem[from + (x - to)] else mem[x]
  }

  lemma CopyWordIs(mem: map<nat, Byte>, from: nat, to: nat, w: nat)
    requires Decodes(mem, from, w)
    ensures CopyWord(mem, from, to, w) == CopyBytes(mem, from, to, w)
  {}

  /** `m` beats: beat `j` copies one word from the source address after `j` words to the destination
      address after `j` words. */
  ghost function Copies(mem: map<nat, Byte>, ch: Channel, m: nat): (r: map<nat, Byte>)
    ensures r.Keys == mem.Keys
    decreases m
  {
    if m == 0 then mem
    else
      var n := (m - 1) * WidthOf(ch);
      CopyWord(Copies(mem, ch, m - 1), Advanced(ch.currSrc, ch.config % 4, n),
               Advanced(ch.currDst, ch.config / 4 % 4, n), WidthOf(ch))
  }

  lemma {:induction false} CopiesFromSecond(mem: map<nat, Byte>, ch: Channel, r: Channel, m: nat)
    requires WellFormedChannelRange(ch)
    requires r.currSrc == Advance(ch.currSrc, ch.config % 4, WidthOf(ch))
    requires r.currDst == Advance(ch.currDst, ch.config / 4 % 4, WidthOf(ch))
    requires r.config == ch.config && WidthOf(r) == WidthOf(ch)
    ensures Copies(CopyWord(mem, ch.currSrc, ch.currDst, WidthOf(ch)), r, m) == Copies(mem, ch, m + 1)
    decreases m
  {
    hide CopyWord, WidthOf, Advance, Advanced;
    var w := WidthOf(ch);
    if m == 0 {
      AdvancedMore(ch.currSrc, ch.config % 4, 0, 0);
      AdvancedMore(ch.currDst, ch.config / 4 % 4, 0, 0);
      assert Copies(mem, ch, 0) == mem;
    } else {
      CopiesFromSecond(mem, ch, r, m - 1);
      AdvancedMore(ch.currSrc, ch.config % 4, w, (m - 1) * w);
      AdvancedMore(ch.currDst, ch.config / 4 % 4, w, (m - 1) * w);
      assert w + (m - 1) * w == m * w;
    }
  }

  // ---------- A burst ----------

  /** What up to `k` beats of a sound transfer do, in any address mode: `m` word copies, with the
      addresses of an unfinished transfer `m` words further; without a failure as many as asked
      for, or all that is left. */
  lemma {:induction false} BeatsAreCopies(d: Dma, sel: nat, k: nat) returns (m: nat)
    requires WellFormed(d) && sel < |d.chs| && Sound(d.chs[sel]) && d.chs[sel].state == Running
    ensures var ch, r := d.chs[sel], Beats(d, sel, k).chs[sel];
      && m <= k && MovedBytes(d, sel, k) == m * WidthOf(ch)
      && Beats(d, sel, k).mem == Copies(d.mem, ch, m)
      && (!Finishes(d, sel, k) ==>
           && r.currSrc == Advanced(ch.currSrc, ch.config % 4, m * WidthOf(ch))
           && r.currDst == Advanced(ch.currDst, ch.config / 4 % 4, m * WidthOf(ch)))
      && (!Fails(d, sel, k) && !Finishes(d, sel, k) ==> m == k)
    decreases k
  {
    hide Finish, CopyBytes, CopyWord, MovedChannel, HalfFires, BusOk, Advanced, WidthOf;
    var ch := d.chs[sel];
    AdvancedMore(ch.currSrc, ch.config % 4, 0, 0);
    AdvancedMore(ch.currDst, ch.config / 4 % 4, 0, 0);
    m := 0;
    if k > 0 && !ch.abortPending && BusOk(d, ch) {
      MoveKeepsRange(d, sel);
      MovedChannelFacts(ch);
      var d1 := Move(d, sel);
      BeatCopiesWord(d, sel);
      if d1.chs[sel].remaining == 0 {
        m := 1;
        CopiesFromSecond(d.mem, ch, d1.chs[sel], 0);
        OneWord(ch, d1, sel, d.mem);
      } else {
        m := BeatsAreCopies(d1, sel, k - 1);
        CopiesFromSecond(d.mem, ch, d1.chs[sel], m);
        AdvancedMore(ch.currSrc, ch.config % 4, WidthOf(ch), m * WidthOf(ch));
        AdvancedMore(ch.currDst, ch.config / 4 % 4, WidthOf(ch), m * WidthOf(ch));
        assert WidthOf(ch) + m * WidthOf(ch) == (m + 1) * WidthOf(ch);
        m := m + 1;
      }
    }
  }

  lemma OneWord(ch: Channel, d1: Dma, sel: nat, mem: map<nat, Byte>)
    requires sel < |d1.chs| && Copies(d1.mem, d1.chs[sel], 0) == Copies(mem, ch, 1)
    ensures Finish(d1, sel).mem == Copies(mem, ch, 1)
  {
    hide CopyWord;
  }

  lemma BeatCopiesWord(d: Dma, sel: nat)
    requires WellFormed(d) && sel < |d.chs| && BusOk(d, d.chs[sel])
    ensures var ch, r := d.chs[sel], Move(d, sel).chs[sel];
      && Move(d, sel).mem == CopyWord(d.mem, ch.currSrc, ch.currDst, WidthOf(ch))
      && r.currSrc == Advance(ch.currSrc, ch.config % 4, WidthOf(ch))
      && r.currDst == Advance(ch.currDst, ch.config / 4 % 4, WidthOf(ch))
      && r.config == ch.config && WidthOf(r) == WidthOf(ch)
  {
    hide CopyBytes, CopyWord, HalfFires;
    CopyWordIs(d.mem, d.chs[sel].currSrc, d.chs[sel].currDst, WidthOf(d.chs[sel]));
  }

  /** The beats in a full burst: 1, or twice a power of two, by the field of CTRL. */
  function FullBurst(ch: Channel): nat {
    if ch.ctrl.burst == 0 then 1 else 2 * Pow2(ch.ctrl.burst)
  }

  lemma PowersOfTwo()
    ensures Pow2(0) == 1 && Pow2(1) == 2 && Pow2(2) == 4 && Pow2(3) == 8
  {
    assert Pow2(2) == 2 * Pow2(1);
    assert Pow2(3) == 2 * Pow2(2);
  }

  function BurstBytes(ch: Channel): nat {
    FullBurst(ch) * WidthOf(ch)
  }

  lemma BurstIs(ch: Channel)
    requires WellFormedChannel(ch)
    ensures BurstOf(ch) == FullBurst(ch)
  {
    PowersOfTwo();
  }

  lemma BurstBound(ch: Channel)
    requires WellFormedChannel(ch) && Sound(ch) && Active(ch)
    ensures BeatCount(ch) * WidthOf(ch) == Min(BurstBytes(ch), ch.remaining)
  {
    hide FullBurst, BurstOf;
    BurstIs(ch);
    var w, q := WidthOf(ch), ch.remaining / WidthOf(ch);
    DividesAtLeast(ch.remaining, w);
    assert q * w == ch.remaining;
    if FullBurst(ch) <= q {
      assert FullBurst(ch) * w <= q * w;
    } else {
      assert q * w <= FullBurst(ch) * w;
    }
  }

  /** From `d` to `r` the registers of channel `c` show `n` bytes moved. */
  ghost predicate ShowsMoved(d: Dma, r: Dma, c: nat, n: nat)
    requires c < |d.chs| && c < |r.chs| && c < 4
  {
    && Shown(r, c, 0x18) == Advanced(Shown(d, c, 0x18), d.chs[c].config % 4, n)
    && Shown(r, c, 0x1C) == Advanced(Shown(d, c, 0x1C), d.chs[c].config / 4 % 4, n)
    && Shown(r, c, 0x20) == Shown(d, c, 0x20) - n
    && Shown(r, c, 0x24) == Shown(d, c, 0x24)
  }

  /** One engine round, as memory and registers show it: the channel served copies word after word,
      a full burst or all that is left unless it fails, its address registers follow their modes
      and its count drops by what was copied. */
  lemma RoundCopies(d: Dma, c: nat) returns (m: nat)
    requires WellFormed(d) && c < |d.chs| && c < 4 && Sound(d.chs[c]) && Bursts(d, Engine, c)
    ensures var ch, r := d.chs[c], Step(d, Engine);
      && MovedIn(d, Engine, c) == m * WidthOf(ch) && WidthOf(ch) == Pow2(ch.ctrl.width)
      && r.mem == Copies(d.mem, ch, m)
      && (!FailsIn(d, Engine, c) ==> MovedIn(d, Engine, c) == Min(BurstBytes(ch), ch.remaining))
      && (!FinishesIn(d, Engine, c) ==> ShowsMoved(d, r, c, MovedIn(d, Engine, c)))
  {
    hide Beats, Finishes, Fails, Selected, EngineStep, WidthOf, Copies, Advanced, MovedBytes, Shown,
      FullBurst, WellFormed;
    WellFormedParts(d);
    RoundRuns(d, c);
    var ch, d1, k := d.chs[c], Arbitrated(d), BeatCount(d.chs[c]);
    m := BeatsAreCopies(d1, c, k);
    BurstAccounts(d1, c, k);
    BurstBound(ch);
    WidthIsPower(ch);
    if Finishes(d1, c, k) {
      LeftIsAll(ch, k, m);
    }
  }

  lemma WidthIsPower(ch: Channel)
    requires WellFormedChannel(ch) && ch.ctrl.width != 3
    ensures WidthOf(ch) == Pow2(ch.ctrl.width)
  {
    PowersOfTwo();
  }

  lemma RoundRuns(d: Dma, c: nat)
    requires WellFormed(d) && c < |d.chs| && Bursts(d, Engine, c)
    ensures Step(d, Engine).mem == Beats(Arbitrated(d), c, BeatCount(d.chs[c])).mem
    ensures var r, b := Step(d, Engine).chs[c], Beats(Arbitrated(d), c, BeatCount(d.chs[c])).chs[c];
      r == b || r == b.(state := Suspended, pausePending := false)
    ensures WellFormedChannel(d.chs[c]) && d.chs[c].state == Running
  {
    hide Beats, Selected, EngineStep;
    EngineIsStep(d);
    EngineIsBurst(d);
    EngineOnSelected(d, c);
  }

  /** The round that ends an iteration of a circular channel: its registers are back at the first
      byte and the wrap counter has gone up by one. */
  lemma RoundWraps(d: Dma, c: nat)
    requires WellFormed(d) && c < |d.chs| && c < 4 && Sound(d.chs[c]) && FinishesIn(d, Engine, c)
    requires d.chs[c].ctrl.circular
    ensures var ch, r := d.chs[c], Step(d, Engine);
      && Shown(r, c, 0x18) == ch.src && Shown(r, c, 0x1C) == ch.dst && Shown(r, c, 0x20) == ch.size
      && Shown(r, c, 0x24) == U32(ch.wraps + 1) && Active(r.chs[c])
  {
    hide Beats, Finishes, Selected, EngineStep, Shown;
    RoundRuns(d, c);
    EngineIsStep(d);
    EngineKeepsRegisters(d, c);
    FinishedBurst(Arbitrated(d), c, BeatCount(d.chs[c]));
  }

  lemma LeftIsAll(ch: Channel, k: nat, m: nat)
    requires m <= k && m * WidthOf(ch) == ch.remaining
    requires k * WidthOf(ch) == Min(BurstBytes(ch), ch.remaining)
    ensures m * WidthOf(ch) == Min(BurstBytes(ch), ch.remaining)
  {
    assert m * WidthOf(ch) <= k * WidthOf(ch);
  }

  // ---------- The status registers ----------

  /** The global registers, bit by bit: which channels are active, which status bits stand, which
      interrupts are masked, and the enable bit. */
  lemma GlobalRegistersShow(d: Dma, k: nat)
    requires WellFormed(d)
    ensures Bit(ReadReg(d, 0x000), k) <==> k < |d.chs| && Active(d.chs[k])
    ensures Bit(ReadReg(d, 0x004), k) <==> k < 32 && k in d.intStatus
    ensures Bit(ReadReg(d, 0x014), k) <==> k < 32 && k in d.intMask
    ensures ReadReg(d, 0x00C) == One(d.enable) && ReadReg(d, 0x008) == 0 && ReadReg(d, 0x010) == 0x444D4102
  {
    hide Bit, Pack;
    PackBits(ActiveBits(d), 0, 32, k);
    PackBits(d.intStatus, 0, 32, k);
    PackBits(d.intMask, 0, 32, k);
  }

  /** CH_STATUS: busy, error and complete bits, and two bits of state. */
  lemma ChannelStatusShows(d: Dma, c: nat)
    requires WellFormed(d) && c < |d.chs| && c < 4
    ensures var v, s := Shown(d, c, 0x14), d.chs[c].state;
      && (Bit(v, 0) <==> s == Running || s == Suspended)
      && (Bit(v, 1) <==> s == Error)
      && (Bit(v, 2) <==> s == Complete)
      && (Bit(v, 3) <==> s == Configured || s == Suspended)
      && (Bit(v, 4) <==> s == Running || s == Suspended)
      && v < 32
  {
    hide Shown;
    var v := PackStatus(d.chs[c]);
    assert Bit(v, 0) <==> v % 2 == 1;
    assert Bit(v, 1) <==> v / 2 % 2 == 1;
    assert Bit(v, 2) <==> v / 2 / 2 % 2 == 1;
    assert Bit(v, 3) <==> v / 2 / 2 / 2 % 2 == 1;
    assert Bit(v, 4) <==> v / 2 / 2 / 2 / 2 % 2 == 1;
  }

  /** Over every run with good resizes the REMAINING register of an active channel shows its size
      less the bytes it has moved in its current iteration. */
  lemma RemainingShowsProgress(n: nat, mem: map<nat, Byte>, es: seq<Event>, c: nat)
    requires 1 <= n <= 10 && c < n && c < 4 && LegalEvents(es)
    requires (ResetStateIsConserved(n, mem); ResizesWellAll(Reset(n, mem), es))
    ensures var r := Run(Reset(n, mem), es);
      Active(r.chs[c]) ==> Shown(r, c, 0x20) + TallyAll(Reset(n, mem), es, c, 0) == Shown(r, c, 0x08)
  {
    hide Run, ResizesWellAll, TallyAll, Shown;
    ConservationFromReset(n, mem, es, c);
  }

  /** After a reset event every channel register reads 0, nothing is active, enabled or set, and only
      the memory is left. */
  lemma ResetReadsZero(d: Dma, e: Event, c: nat, off: nat)
    requires WellFormed(d) && LegalEvent(e) && IsReset(e) && c < |d.chs| && c < 4 && off < 0x40 && off % 4 == 0
    ensures var r := Step(d, e);
      Shown(r, c, off) == 0 && !Active(r.chs[c]) && !r.enable && r.intStatus == {} && r.mem == d.mem
  {
    hide Step, Shown, Flag;
    RegisterStep(d, e, c);
    EnableIff(d, e);
    forall b: nat
      ensures b !in Step(d, e).intStatus
    {
      StatusBitIff(d, e, b);
    }
    ResetKeepsMemory(d, e);
  }

  lemma ResetKeepsMemory(d: Dma, e: Event)
    requires WellFormed(d) && IsReset(e)
    ensures Step(d, e).mem == d.mem
  {
    hide UpdateIrqs, Flag;
  }

  /** Which register accesses are refused, and how: a wrong command, length or alignment by a generic
      error, an address between the registers or of a missing channel by an address error; they
      change nothing, and neither does a read. */
  lemma RefusedIff(d: Dma, cmd: Command, addr: nat, len: nat, w: nat)
    requires WellFormed(d)
    ensures Check(|d.chs|, cmd, addr, len) == GenericError <==> cmd == OtherCmd || len != 4 || addr % 4 != 0
    ensures Check(|d.chs|, cmd, addr, len) == Ok <==>
      && cmd != OtherCmd && len == 4 && addr % 4 == 0
      && (addr < 0x018 || exists c, off :: 0 <= c < |d.chs| && 0 <= off < 0x40 && IsAt(addr, c, off) && addr < 0x200)
    ensures cmd != WriteCmd || Check(|d.chs|, cmd, addr, len) != Ok ==> Step(d, Register(cmd, addr, len, w)) == d
  {
    hide WriteReg;
    if 0x100 <= addr < 0x200 {
      var c, off := (addr - 0x100) / 0x40, (addr - 0x100) % 0x40;
      assert IsAt(addr, c, off);
    }
  }

  predicate IsAt(addr: nat, c: nat, off: nat) {
    addr == 0x100 + 0x40 * c + off
  }
}

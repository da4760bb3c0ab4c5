/** Counting and reading the machine timer: after how many ticks the counter stands where, when the
overflow flag is up, when an untouched comparator fires, and that both ports read what was
written. */
module MtimerCount {
  import opened Prelude
  import opened Mtimer

  // ---------- Counting ----------

  /** A write that may reach the counter, through either port. */
  predicate SetsTime(e: Event) {
    !e.TickEvent? && e.cmd.WriteCmd? && e.data != [] && e.addr < MTIME + 8 && MTIME < e.addr + |e.data|
  }

  /** A read that clears the overflow flag. */
  predicate ReadsFlag(e: Event) {
    e.BusEvent? && e.cmd.ReadCmd? && e.addr == OVERFLOW_FLAG && |e.data| == 4
  }

  /** A write of the enable register. */
  predicate SetsEnable(e: Event) {
    e.BusEvent? && e.cmd.WriteCmd? && e.addr == TIMER_ENABLE && |e.data| == 4
  }

  /** The device has no more harts than fit below its control registers. */
  ghost predicate FitsMap(s: State) {
    |s.cmp| * 8 <= OVERFLOW_FLAG
  }

  /** Event `e` advances the counter. */
  ghost predicate Counts(s: State, e: Event) {
    e.TickEvent? && s.enable == 1
  }

  /** Event `e` takes the counter from its last value to zero. */
  ghost predicate Overflows(s: State, e: Event) {
    Counts(s, e) && s.mtime == RANGE - 1
  }

  /** What one event does to the counter, the enable bit and the overflow flag. */
  lemma StepCounts(s: State, e: Event)
    requires Exact(s) && FitsMap(s)
    ensures var r := Step(s, e);
      && (!SetsTime(e) ==> r.mtime == if !Counts(s, e) then s.mtime else if s.mtime + 1 < RANGE then s.mtime + 1 else 0)
      && (r.enable == if SetsEnable(e) then Value(e.data) % 2 else s.enable)
      && (r.overflow == 1 <==> Overflows(s, e) || (s.overflow == 1 && !ReadsFlag(e)))
      && |r.cmp| == |s.cmp|
  {
    hide Bus, Debug, Value, SetsTime;
    StepKeepsExact(s, e);
    match e
    case TickEvent =>
    case BusEvent(cmd, addr, data) => BusCounts(s, e);
    case DebugEvent(cmd, addr, data) => DebugCounts(s, e);
  }

  lemma BusCounts(s: State, e: Event)
    requires Exact(s) && FitsMap(s) && e.BusEvent?
    ensures var r := Bus(s, e.cmd, e.addr, e.data).1;
      && (!SetsTime(e) ==> r.mtime == s.mtime)
      && (r.enable == if SetsEnable(e) then Value(e.data) % 2 else s.enable)
      && (r.overflow == if ReadsFlag(e) then 0 else s.overflow)
  {
    hide Value, Bytes, WriteSplit, ReadSplit, Exact;
    ExactIsWellFormed(s);
  }

  lemma DebugCounts(s: State, e: Event)
    requires Exact(s) && FitsMap(s) && e.DebugEvent?
    ensures var r := Debug(s, e.cmd, e.addr, e.data).1;
      (!SetsTime(e) ==> r.mtime == s.mtime) && r.enable == s.enable && r.overflow == s.overflow
  {
    hide Value, Bytes, AllBytes, FromBytes;
    if e.data == [] {
      var b := Bytes(s.mtime, 8);
      if MTIME <= e.addr < MTIME + 8 {
        assert Patch(b, e.addr - MTIME, e.data[..0]) == b;
      }
      WordSizes();
      ValueOfBytes(s.mtime, 8);
    }
  }

  /** Ticks that find the timer enabled. */
  ghost function Ticks(s: State, es: seq<Event>): nat
    requires Exact(s)
    decreases |es|
  {
    if es == [] then 0
    else
      StepKeepsExact(s, es[0]);
      (if Counts(s, es[0]) then 1 else 0) + Ticks(Step(s, es[0]), es[1..])
  }

  lemma NextModulo(t: nat, n: nat)
    requires t < RANGE
    ensures ((if t + 1 < RANGE then t + 1 else 0) + n) % RANGE == (t + 1 + n) % RANGE
  {}

  /** The counter counts: whatever else happens, until somebody writes it, it stands where it stood
      plus one for every tick that found it enabled, modulo 2^64. */
  lemma {:induction false} CounterCounts(s: State, es: seq<Event>)
    requires Exact(s) && FitsMap(s) && forall k :: 0 <= k < |es| ==> !SetsTime(es[k])
    ensures Run(s, es).mtime == (s.mtime + Ticks(s, es)) % RANGE
    decreases |es|
  {
    hide Step, Exact, SetsTime, Counts;
    ExactIsWellFormed(s);
    if es != [] {
      StepKeepsExact(s, es[0]);
      StepCounts(s, es[0]);
      CounterCounts(Step(s, es[0]), es[1..]);
      NextModulo(s.mtime, Ticks(Step(s, es[0]), es[1..]));
    }
  }

  /** The number of tick events. */
  function TickEvents(es: seq<Event>): nat {
    if es == [] then 0 else (if es[0].TickEvent? then 1 else 0) + TickEvents(es[1..])
  }

  /** While the timer stays enabled every tick counts; while it stays disabled none does. */
  lemma {:induction false} EveryTickCounts(s: State, es: seq<Event>)
    requires Exact(s) && FitsMap(s) && forall k :: 0 <= k < |es| ==> !SetsEnable(es[k])
    ensures Run(s, es).enable == s.enable
    ensures Ticks(s, es) == if s.enable == 1 then TickEvents(es) else 0
    decreases |es|
  {
    hide Step, Exact, SetsEnable;
    ExactIsWellFormed(s);
    if es != [] {
      StepKeepsExact(s, es[0]);
      StepCounts(s, es[0]);
      EveryTickCounts(Step(s, es[0]), es[1..]);
    }
  }

  lemma {:induction false} RunLast(s: State, es: seq<Event>)
    requires Exact(s) && es != []
    ensures Run(s, es) == Step(Run(s, es[..|es| - 1]), es[|es| - 1])
    decreases |es|
  {
    hide Step, Exact;
    ExactIsWellFormed(s);
    StepKeepsExact(s, es[0]);
    ExactIsWellFormed(Step(s, es[0]));
    if |es| == 1 {
      assert es[..0] == [] && es[1..] == [];
    } else {
      RunLast(Step(s, es[0]), es[1..]);
      assert es[..|es| - 1][1..] == es[1..][..|es| - 2];
    }
  }

  ghost predicate OverflowsAt(s: State, es: seq<Event>, k: nat)
    requires Exact(s) && k < |es|
  {
    Overflows(Run(s, es[..k]), es[k])
  }

  ghost predicate NotReadFrom(es: seq<Event>, k: nat) {
    forall j :: k <= j < |es| ==> !ReadsFlag(es[j])
  }

  ghost predicate OverflowedUnread(s: State, es: seq<Event>)
    requires Exact(s)
  {
    exists k :: 0 <= k < |es| && OverflowsAt(s, es, k) && NotReadFrom(es, k + 1)
  }

  /** The overflow flag is up exactly if the counter has passed its last value, or the flag was up to
      begin with, and nobody has read the flag since. */
  lemma {:induction false} FlagIsExact(s: State, es: seq<Event>)
    requires Exact(s) && FitsMap(s)
    ensures Run(s, es).overflow == 1 <==> OverflowedUnread(s, es) || (s.overflow == 1 && NotReadFrom(es, 0))
    decreases |es|
  {
    hide Step, Exact, Overflows, ReadsFlag, OverflowedUnread;
    if es == [] {
      NothingOverflowed(s);
    } else {
      var front, last := es[..|es| - 1], es[|es| - 1];
      RunLast(s, es);
      FlagIsExact(s, front);
      StepCounts(Run(s, front), last);
      SplitLast(s, es);
    }
  }

  lemma NothingOverflowed(s: State)
    requires Exact(s)
    ensures Run(s, []) == s && !OverflowedUnread(s, [])
  {}

  lemma SplitLast(s: State, es: seq<Event>)
    requires Exact(s) && es != []
    ensures var front, last := es[..|es| - 1], es[|es| - 1];
      && (OverflowedUnread(s, es) <==>
           Overflows(Run(s, front), last) || (OverflowedUnread(s, front) && !ReadsFlag(last)))
      && (NotReadFrom(es, 0) <==> NotReadFrom(front, 0) && !ReadsFlag(last))
  {
    hide Exact, Overflows, ReadsFlag, Run, OverflowsAt, NotReadFrom;
    var n := |es| - 1;
    var front, last := es[..n], es[n];
    forall k: nat | k < n
      ensures OverflowsAt(s, es, k) <==> OverflowsAt(s, front, k)
      ensures NotReadFrom(es, k + 1) <==> NotReadFrom(front, k + 1) && !ReadsFlag(last)
    {
      AtPrefix(s, es, k);
      ReadSplit2(es, k + 1);
    }
    ReadSplit2(es, 0);
    AtLast(s, es);
    if Overflows(Run(s, front), last) {
      assert OverflowsAt(s, es, n) && NotReadFrom(es, n + 1);
    }
    if OverflowedUnread(s, front) && !ReadsFlag(last) {
      var k :| 0 <= k < |front| && OverflowsAt(s, front, k) && NotReadFrom(front, k + 1);
      assert OverflowsAt(s, es, k) && NotReadFrom(es, k + 1);
    }
  }

  lemma AtPrefix(s: State, es: seq<Event>, k: nat)
    requires Exact(s) && k + 1 < |es|
    ensures OverflowsAt(s, es, k) <==> OverflowsAt(s, es[..|es| - 1], k)
  {
    hide Exact, Overflows, Run;
    assert es[..k] == es[..|es| - 1][..k];
  }

  lemma AtLast(s: State, es: seq<Event>)
    requires Exact(s) && es != []
    ensures OverflowsAt(s, es, |es| - 1) <==> Overflows(Run(s, es[..|es| - 1]), es[|es| - 1])
    ensures NotReadFrom(es, |es|)
  {
    hide Exact, Overflows, Run;
  }

  lemma ReadSplit2(es: seq<Event>, k: nat)
    requires k < |es|
    ensures NotReadFrom(es, k) <==> NotReadFrom(es[..|es| - 1], k) && !ReadsFlag(es[|es| - 1])
  {
    hide ReadsFlag;
    var front := es[..|es| - 1];
    if NotReadFrom(front, k) {
      forall j | k <= j < |es| - 1
        ensures !ReadsFlag(es[j])
      {
        assert es[j] == front[j];
      }
    }
  }

  /** A comparator ahead of the counter that nobody writes fires on the tick that takes the counter
      to it, not before and without fail: while the counter is not written and has not wrapped,
      the interrupt is up exactly after at least `cmp - mtime` counted ticks. */
  lemma FiresAfter(s: State, es: seq<Event>, h: nat)
    requires Exact(s) && FitsMap(s) && h < |s.cmp| && s.mtime < s.cmp[h]
    requires forall k :: 0 <= k < |es| ==> !SetsTime(es[k]) && !Touches(es[k], h)
    requires s.mtime + Ticks(s, es) < RANGE
    ensures Run(s, es).irq[h] <==> Ticks(s, es) >= s.cmp[h] - s.mtime
  {
    hide Run, Exact, SetsTime, Touches, Ticks;
    CounterCounts(s, es);
    FollowsComparator(s, es, h);
    Small(s.mtime + Ticks(s, es));
  }

  lemma Small(t: nat)
    requires t < RANGE
    ensures t % RANGE == t
  {}

  // ---------- Reading ----------

  /** The 64-bit register a bus access of four or eight aligned bytes reaches. */
  ghost predicate Reaches(s: State, addr: nat, len: nat) {
    && (len == 4 || len == 8) && addr % len == 0
    && (addr + len <= |s.cmp| * 8 || (MTIME <= addr && addr + len <= MTIME + 8))
  }

  ghost function Register(s: State, addr: nat): nat
    requires addr < |s.cmp| * 8 || MTIME <= addr
  {
    if addr < |s.cmp| * 8 then s.cmp[addr / 8] else s.mtime
  }

  lemma Aligned(addr: nat, len: nat)
    requires (len == 4 || len == 8) && addr % len == 0
    ensures addr % 8 == 0 || (len == 4 && addr % 8 == 4)
    ensures addr % 8 == 0 ==> addr / 8 * 8 == addr
    ensures addr % 8 == 4 ==> addr / 8 * 8 + 4 == addr
  {}

  /** The little-endian bytes of that register at that address. */
  ghost function BytesAt(s: State, addr: nat, len: nat): (b: seq<Byte>)
    requires FitsMap(s) && Reaches(s, addr, len)
    ensures |b| == len
  {
    Aligned(addr, len);
    Bytes(Register(s, addr), 8)[addr % 8..addr % 8 + len]
  }

  /** A bus read answers with the little-endian bytes of the register it reaches, all eight, the low
      four or the high four, and changes nothing. */
  lemma BusReads(s: State, addr: nat, data: seq<Byte>)
    requires Exact(s) && FitsMap(s) && Reaches(s, addr, |data|)
    ensures Bus(s, ReadCmd, addr, data) == (Ok(BytesAt(s, addr, |data|)), s)
  {
    hide Bytes, ReadSplit, WriteSplit;
    Aligned(addr, |data|);
    ReadSplitSlices(Register(s, addr), |data|, addr % 8 == 4);
  }

  lemma ReadSplitSlices(reg: nat, len: nat, high: bool)
    requires reg < RANGE && (len == 4 || (len == 8 && !high))
    ensures ReadSplit(reg, len, high) == var ofs := if high then 4 else 0; Bytes(reg, 8)[ofs..ofs + len]
  {
    hide Bytes;
    HalvesOf(reg);
    var lo, hi := Bytes(reg % HALF, 4), Bytes(reg / HALF, 4);
    assert (lo + hi)[0..4] == lo && (lo + hi)[4..8] == hi;
    assert Bytes(reg, 8)[0..8] == Bytes(reg, 8);
  }

  /** The debug port sees the same bytes at the same addresses. */
  lemma PortsAgree(s: State, addr: nat, data: seq<Byte>)
    requires Exact(s) && FitsMap(s) && Reaches(s, addr, |data|)
    ensures Debug(s, ReadCmd, addr, data) == (Bus(s, ReadCmd, addr, data).0.data, s)
  {
    hide Bytes, AllBytes, Bus, Exact, Debug, Register;
    ExactIsWellFormed(s);
    BusReads(s, addr, data);
    if addr < |s.cmp| * 8 {
      DebugReadsCmp(s, addr, data);
    } else {
      DebugReadsTime(s, addr, data);
    }
  }

  lemma DebugReadsCmp(s: State, addr: nat, data: seq<Byte>)
    requires Exact(s) && FitsMap(s) && Reaches(s, addr, |data|) && addr < |s.cmp| * 8
    ensures Debug(s, ReadCmd, addr, data) == (BytesAt(s, addr, |data|), s)
  {
    hide Bytes, AllBytes, Exact;
    ExactIsWellFormed(s);
    var h, ofs := addr / 8, addr % 8;
    Aligned(addr, |data|);
    AllBytesAt(s.cmp, h);
    assert addr == 8 * h + ofs;
    SliceOfSlice(AllBytes(s.cmp), 8 * h, 8, ofs, |data|);
  }

  lemma DebugReadsTime(s: State, addr: nat, data: seq<Byte>)
    requires Exact(s) && FitsMap(s) && Reaches(s, addr, |data|) && addr >= |s.cmp| * 8
    ensures Debug(s, ReadCmd, addr, data) == (BytesAt(s, addr, |data|), s)
  {
    hide Bytes, AllBytes, Exact;
    ExactIsWellFormed(s);
    assert addr % 8 == addr - MTIME;
  }

  lemma SliceOfSlice(b: seq<Byte>, i: nat, n: nat, j: nat, m: nat)
    requires i + n <= |b| && j + m <= n
    ensures b[i + j..i + j + m] == b[i..i + n][j..j + m]
  {
    var part, whole := b[i + j..i + j + m], b[i..i + n];
    forall k | 0 <= k < m
      ensures part[k] == whole[j..j + m][k]
    {
      assert whole[j + k] == b[i + (j + k)];
    }
  }

  /** What is written is what is read, through either port, and a write reaches no other register;
      with `BusReads` and `PortsAgree` this says what every byte of the map is. */
  lemma BusReadsBack(s: State, addr: nat, data: seq<Byte>)
    requires Exact(s) && FitsMap(s) && Reaches(s, addr, |data|)
    ensures var r := Bus(s, WriteCmd, addr, data);
      && r.0 == Ok([]) && Exact(r.1) && |r.1.cmp| == |s.cmp|
      && Patched(s, r.1, addr, data)
      && Bus(r.1, ReadCmd, addr, data).0 == Ok(data)
      && (forall h :: 0 <= h < |s.cmp| && !(addr < |s.cmp| * 8 && h == addr / 8) ==> r.1.cmp[h] == s.cmp[h])
      && (addr < |s.cmp| * 8 ==> r.1.mtime == s.mtime)
      && r.1.enable == s.enable && r.1.prescaler == s.prescaler && r.1.overflow == s.overflow
  {
    hide Bytes, WriteSplit, ReadSplit, Patch;
    BusKeepsExact(s, WriteCmd, addr, data);
    Aligned(addr, |data|);
    SplitWriteIsCopy(Register(s, addr), data, addr % 8 == 4);
    var r := Bus(s, WriteCmd, addr, data).1;
    BusReads(r, addr, data);
    PatchReads(Bytes(Register(s, addr), 8), addr % 8, data);
  }

  /** The register has the data at its place and its other bytes as before. */
  ghost predicate Patched(s: State, r: State, addr: nat, data: seq<Byte>)
    requires Reaches(s, addr, |data|) && |r.cmp| == |s.cmp|
  {
    Aligned(addr, |data|);
    Bytes(Register(r, addr), 8) == Patch(Bytes(Register(s, addr), 8), addr % 8, data)
  }

  lemma PatchReads(b: seq<Byte>, ofs: nat, data: seq<Byte>)
    requires ofs + |data| <= |b|
    ensures Patch(b, ofs, data)[ofs..ofs + |data|] == data
  {}

  // ---------- Debug writes ----------

  lemma {:induction false} AllBytesOfFromBytes(b: seq<Byte>)
    requires |b| % 8 == 0
    ensures AllBytes(FromBytes(b)) == b
    decreases |b|
  {
    if b != [] {
      AllBytesOfFromBytes(b[8..]);
      BytesOfValue(b[..8]);
      assert b == b[..8] + b[8..];
    }
  }

  /** The end of the region a debug access starts in, or its start when it starts outside. */
  ghost function RegionEnd(s: State, addr: nat): nat {
    if MTIME <= addr < MTIME + 8 then MTIME + 8 else if addr < |s.cmp| * 8 then |s.cmp| * 8 else addr
  }

  /** A debug write copies as many bytes as fit the region, over the bytes that were there; every
      other byte of the map stays, and what was copied is read back. */
  lemma DebugReadsBack(s: State, addr: nat, data: seq<Byte>)
    requires Exact(s) && FitsMap(s)
    ensures var (done, r) := Debug(s, WriteCmd, addr, data);
      && done <= data && |done| == Min(|data|, RegionEnd(s, addr) - addr)
      && Exact(r) && |r.cmp| == |s.cmp|
      && Debug(r, ReadCmd, addr, data).0 == done
      && r.enable == s.enable && r.prescaler == s.prescaler && r.overflow == s.overflow
      && (addr < |s.cmp| * 8 ==>
           AllBytes(r.cmp) == Patch(AllBytes(s.cmp), addr, done) && r.mtime == s.mtime)
      && (MTIME <= addr < MTIME + 8 ==>
           Bytes(r.mtime, 8) == Patch(Bytes(s.mtime, 8), addr - MTIME, done) && r.cmp == s.cmp)
      && (RegionEnd(s, addr) == addr ==> r == s)
  {
    hide Bytes, Value, AllBytes, FromBytes, Exact, Patch;
    ExactIsWellFormed(s);
    DebugKeepsExact(s, WriteCmd, addr, data);
    ExactIsWellFormed(Debug(s, WriteCmd, addr, data).1);
    var n := Min(|data|, RegionEnd(s, addr) - addr);
    if MTIME <= addr < MTIME + 8 {
      var b := Bytes(s.mtime, 8);
      BytesOfValue(Patch(b, addr - MTIME, data[..n]));
      PatchReads(b, addr - MTIME, data[..n]);
      assert data[..n] <= data;
    } else if addr < |s.cmp| * 8 {
      var b := AllBytes(s.cmp);
      AllBytesOfFromBytes(Patch(b, addr, data[..n]));
      PatchReads(b, addr, data[..n]);
      assert data[..n] <= data;
    } else {
      assert [] <= data;
    }
  }

  // ---------- Refused accesses ----------

  /** Which bus accesses are refused, and how. A wrong length is a generic error; an unaligned access
      or one that is not inside a register region is an address error; a command that is neither
      read nor write is refused where a register would have answered it. A refused access changes
      nothing. */
  lemma BusRefusedIff(s: State, cmd: Command, addr: nat, data: seq<Byte>)
    requires Exact(s) && FitsMap(s)
    ensures var (reply, r) := Bus(s, cmd, addr, data);
      && (reply.AddressError? <==> (|data| == 4 || |data| == 8) && !Answers(s, addr, |data|))
      && (reply.GenericError? <==>
           (|data| != 4 && |data| != 8) || (Answers(s, addr, |data|) && cmd.OtherCmd?))
      && (!reply.Ok? ==> r == s)
  {
    hide Bytes, Value, WriteSplit, ReadSplit, Exact;
    ExactIsWellFormed(s);
  }

  ghost predicate Answers(s: State, addr: nat, len: nat) {
    Reaches(s, addr, len) || (len == 4 && addr in {OVERFLOW_FLAG, TIMER_ENABLE, PRESCALER})
  }

  /** At power-up the timer runs from zero, every comparator is out of reach and no interrupt is up. */
  lemma ResetShows(harts: nat, h: nat)
    requires 1 <= harts && harts * 8 <= OVERFLOW_FLAG && h < harts
    ensures var s := Reset(harts);
      && Exact(s) && FitsMap(s) && Register(s, MTIME) == 0 && Register(s, 8 * h) == RANGE - 1
      && s.enable == 1 && s.overflow == 0 && s.prescaler == 1 && !s.irq[h]
  {}
}

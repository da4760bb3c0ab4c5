/** The ACLINT machine timer (aclint_mtimer.h): a 64-bit counter and one 64-bit comparator per hart,
reachable in 32-bit halves, as a whole, or byte by byte through the debug port. */
module Mtimer {
  import opened Prelude

  const HALF: nat := 0x1_0000_0000
  const RANGE: nat := 0x1_0000_0000_0000_0000
  const OVERFLOW_FLAG: nat := 0x7FE0
  const TIMER_ENABLE: nat := 0x7FE8
  const PRESCALER: nat := 0x7FF0
  const MTIME: nat := 0x7FF8

  // ---------- Little-endian bytes ----------

  function Value(b: seq<Byte>): nat {
    if b == [] then 0 else b[0] + 256 * Value(b[1..])
  }

  function Bytes(v: nat, n: nat): (b: seq<Byte>)
    ensures |b| == n
    decreases n
  {
    if n == 0 then [] else [v % 256] + Bytes(v / 256, n - 1)
  }

  function Pow256(n: nat): nat {
    if n == 0 then 1 else 256 * Pow256(n - 1)
  }

  lemma {:induction false} BytesOfValue(b: seq<Byte>)
    ensures Bytes(Value(b), |b|) == b
  {
    if b != [] {
      BytesOfValue(b[1..]);
    }
  }

  lemma {:induction false} ValueBound(b: seq<Byte>)
    ensures Value(b) < Pow256(|b|)
  {
    if b != [] {
      ValueBound(b[1..]);
    }
  }

  lemma {:induction false} ValueOfBytes(v: nat, n: nat)
    requires v < Pow256(n)
    ensures Value(Bytes(v, n)) == v
    decreases n
  {
    if n > 0 {
      ValueOfBytes(v / 256, n - 1);
    }
  }

  lemma WordSizes()
    ensures Pow256(4) == HALF && Pow256(8) == RANGE
  {
    assert Pow256(2) == 65536;
    assert Pow256(4) == HALF;
    assert Pow256(6) == 0x1_0000_0000_0000;
  }

  lemma {:induction false} BytesSplit(lo: nat, hi: nat, m: nat, n: nat)
    requires lo < Pow256(m)
    ensures Bytes(lo + Pow256(m) * hi, m + n) == Bytes(lo, m) + Bytes(hi, n)
    decreases m
  {
    if m > 0 {
      LowByte(lo, Pow256(m - 1), hi);
      BytesSplit(lo / 256, hi, m - 1, n);
    }
  }

  lemma LowByte(lo: nat, p: nat, hi: nat)
    requires lo < 256 * p
    ensures var v := lo + 256 * p * hi; v % 256 == lo % 256 && v / 256 == lo / 256 + p * hi && lo / 256 < p
  {
    var x := p * hi;
    assert 256 * p * hi == 256 * x;
  }

  // ---------- Split registers ----------

  function WriteSplit(reg: nat, data: seq<Byte>, high: bool): nat {
    if |data| == 4 && !high then reg / HALF * HALF + Value(data)
    else if |data| == 4 then reg % HALF + Value(data) * HALF
    else Value(data)
  }

  function ReadSplit(reg: nat, len: nat, high: bool): (data: seq<Byte>)
    requires len == 4 || len == 8
    ensures |data| == len
  {
    if len == 4 && !high then Bytes(reg % HALF, 4)
    else if len == 4 then Bytes(reg / HALF, 4)
    else Bytes(reg, 8)
  }

  /** Copying bytes over bytes. */
  function Patch(b: seq<Byte>, ofs: nat, data: seq<Byte>): (r: seq<Byte>)
    requires ofs + |data| <= |b|
    ensures |r| == |b|
  {
    b[..ofs] + data + b[ofs + |data|..]
  }

  lemma HalvesOf(reg: nat)
    requires reg < RANGE
    ensures reg / HALF < HALF && Bytes(reg, 8) == Bytes(reg % HALF, 4) + Bytes(reg / HALF, 4)
  {
    WordSizes();
    BytesSplit(reg % HALF, reg / HALF, 4, 4);
    assert reg == reg % HALF + Pow256(4) * (reg / HALF);
  }

  lemma SplitWriteFits(reg: nat, data: seq<Byte>, high: bool)
    requires reg < RANGE && (|data| == 4 || (|data| == 8 && !high))
    ensures WriteSplit(reg, data, high) < RANGE
    ensures |data| == 4 && !high ==>
      WriteSplit(reg, data, high) / HALF == reg / HALF && WriteSplit(reg, data, high) % HALF == Value(data)
    ensures |data| == 4 && high ==>
      WriteSplit(reg, data, high) % HALF == reg % HALF && WriteSplit(reg, data, high) / HALF == Value(data)
  {
    WordSizes();
    ValueBound(data);
  }

  /** The mask-and-shift halves are a byte copy at offset 0 or 4: the written half takes the
      data, the other half keeps its bytes. */
  lemma SplitWriteIsCopy(reg: nat, data: seq<Byte>, high: bool)
    requires reg < RANGE && (|data| == 4 || (|data| == 8 && !high))
    ensures Bytes(WriteSplit(reg, data, high), 8) == Patch(Bytes(reg, 8), if high then 4 else 0, data)
  {
    var w := WriteSplit(reg, data, high);
    SplitWriteFits(reg, data, high);
    BytesOfValue(data);
    HalvesOf(reg);
    if |data| == 4 {
      HalvesOf(w);
    }
  }

  /** What was written is what is read, in the same half; the two halves side by side are the
      register. */
  lemma SplitReadsBack(reg: nat, data: seq<Byte>, high: bool)
    requires reg < RANGE && (|data| == 4 || (|data| == 8 && !high))
    ensures ReadSplit(WriteSplit(reg, data, high), |data|, high) == data
    ensures |data| == 4 ==> ReadSplit(WriteSplit(reg, data, high), 4, !high) == ReadSplit(reg, 4, !high)
    ensures ReadSplit(reg, 4, false) + ReadSplit(reg, 4, true) == ReadSplit(reg, 8, false)
  {
    SplitWriteFits(reg, data, high);
    BytesOfValue(data);
    HalvesOf(reg);
  }

  // ---------- The device ----------

  datatype State = State(mtime: nat, prescaler: nat, enable: nat, overflow: nat, cmp: seq<nat>, irq: seq<bool>)

  ghost predicate WellFormed(s: State) {
    && s.mtime < RANGE && 1 <= s.prescaler <= 65535 && s.enable <= 1 && s.overflow <= 1
    && 1 <= |s.cmp| == |s.irq|
    && forall h :: 0 <= h < |s.cmp| ==> s.cmp[h] < RANGE
  }

  function Reset(harts: nat): State {
    State(0, 1, 1, 0, seq(harts, h => RANGE - 1), seq(harts, h => false))
  }

  /** The comparison drives every output. */
  function Compare(s: State): State {
    s.(irq := seq(|s.cmp|, h requires 0 <= h < |s.cmp| => s.mtime >= s.cmp[h]))
  }

  function Tick(s: State): State {
    if s.enable == 0 then s
    else if s.mtime == RANGE - 1 then Compare(s.(mtime := 0, overflow := 1))
    else Compare(s.(mtime := s.mtime + 1))
  }

  datatype Command = ReadCmd | WriteCmd | OtherCmd

  datatype Reply = Ok(data: seq<Byte>) | AddressError | GenericError

  ghost function AccessCmp(s: State, cmd: Command, h: nat, high: bool, data: seq<Byte>): (Reply, State)
    requires h < |s.cmp| && (|data| == 4 || |data| == 8)
  {
    match cmd
    case ReadCmd => (Ok(ReadSplit(s.cmp[h], |data|, high)), s)
    case WriteCmd => (Ok([]), Compare(s.(cmp := s.cmp[h := WriteSplit(s.cmp[h], data, high)])))
    case OtherCmd => (GenericError, s)
  }

  ghost function AccessTime(s: State, cmd: Command, high: bool, data: seq<Byte>): (Reply, State)
    requires |data| == 4 || |data| == 8
  {
    match cmd
    case ReadCmd => (Ok(ReadSplit(s.mtime, |data|, high)), s)
    case WriteCmd => (Ok([]), Compare(s.(mtime := WriteSplit(s.mtime, data, high))))
    case OtherCmd => (GenericError, s)
  }

  function Clamp(v: nat): nat {
    if v == 0 then 1 else if v > 65535 then 65535 else v
  }

  ghost function AccessControl(s: State, cmd: Command, addr: nat, data: seq<Byte>): (Reply, State) {
    match cmd
    case ReadCmd =>
      if addr == OVERFLOW_FLAG then (Ok(Bytes(s.overflow, 4)), s.(overflow := 0))
      else if addr == TIMER_ENABLE then (Ok(Bytes(s.enable, 4)), s)
      else (Ok(Bytes(s.prescaler, 4)), s)
    case WriteCmd =>
      if addr == OVERFLOW_FLAG then (Ok([]), s)
      else if addr == TIMER_ENABLE then (Ok([]), s.(enable := Value(data) % 2))
      else (Ok([]), s.(prescaler := Clamp(Value(data))))
    case OtherCmd => (GenericError, s)
  }

  /** One bus access of `|data|` bytes (for a read only the length of `data` matters). */
  ghost function Bus(s: State, cmd: Command, addr: nat, data: seq<Byte>): (Reply, State)
    requires WellFormed(s)
  {
    var len, last := |data|, |s.cmp| * 8 - 1;
    if len != 4 && len != 8 then (GenericError, s)
    else if addr % len != 0 then (AddressError, s)
    else if addr <= last && addr + len - 1 <= last then AccessCmp(s, cmd, addr / 8, addr % 8 == 4, data)
    else if addr in {OVERFLOW_FLAG, TIMER_ENABLE, PRESCALER} && len == 4 then AccessControl(s, cmd, addr, data)
    else if addr >= MTIME && addr + len - 1 <= MTIME + 7 then AccessTime(s, cmd, addr % 8 == 4, data)
    else (AddressError, s)
  }

  /** The control registers read back the legal value of what was written; the overflow flag
      ignores writes and is cleared by being read. */
  lemma ControlReadsBack(s: State, data: seq<Byte>)
    requires |data| == 4
    ensures AccessControl(AccessControl(s, WriteCmd, TIMER_ENABLE, data).1, ReadCmd, TIMER_ENABLE, data).0 ==
      Ok(Bytes(Value(data) % 2, 4))
    ensures AccessControl(AccessControl(s, WriteCmd, PRESCALER, data).1, ReadCmd, PRESCALER, data).0 ==
      Ok(Bytes(if Value(data) == 0 then 1 else Min(Value(data), 65535), 4))
    ensures AccessControl(s, WriteCmd, OVERFLOW_FLAG, data).1 == s
    ensures AccessControl(AccessControl(s, ReadCmd, OVERFLOW_FLAG, data).1, ReadCmd, OVERFLOW_FLAG, data).0 ==
      Ok(Bytes(0, 4))
  {
    hide Value, Bytes;
  }

  /** The comparators as the debug port sees them: eight bytes each, one after the other. */
  function AllBytes(cmp: seq<nat>): (b: seq<Byte>)
    ensures |b| == 8 * |cmp|
  {
    if cmp == [] then [] else Bytes(cmp[0], 8) + AllBytes(cmp[1..])
  }

  function FromBytes(b: seq<Byte>): (cmp: seq<nat>)
    requires |b| % 8 == 0
    ensures |cmp| == |b| / 8
  {
    if b == [] then [] else [Value(b[..8])] + FromBytes(b[8..])
  }

  /** A debug access copies as many bytes as fit the region; a write compares again. */
  ghost function Debug(s: State, cmd: Command, addr: nat, data: seq<Byte>): (seq<Byte>, State)
    requires WellFormed(s)
  {
    if MTIME <= addr < MTIME + 8 then
      var n := Min(|data|, MTIME + 8 - addr);
      match cmd
      case ReadCmd => (Bytes(s.mtime, 8)[addr - MTIME..addr - MTIME + n], s)
      case WriteCmd => (data[..n], Compare(s.(mtime := Value(Patch(Bytes(s.mtime, 8), addr - MTIME, data[..n])))))
      case OtherCmd => ([], s)
    else if addr < |s.cmp| * 8 then
      var n := Min(|data|, |s.cmp| * 8 - addr);
      match cmd
      case ReadCmd => (AllBytes(s.cmp)[addr..addr + n], s)
      case WriteCmd => (data[..n], Compare(s.(cmp := FromBytes(Patch(AllBytes(s.cmp), addr, data[..n])))))
      case OtherCmd => ([], s)
    else ([], s)
  }

  datatype Event =
    | TickEvent
    | BusEvent(cmd: Command, addr: nat, data: seq<Byte>)
    | DebugEvent(cmd: Command, addr: nat, data: seq<Byte>)

  ghost function Step(s: State, e: Event): State
    requires WellFormed(s)
  {
    match e
    case TickEvent => Tick(s)
    case BusEvent(cmd, addr, data) => Bus(s, cmd, addr, data).1
    case DebugEvent(cmd, addr, data) => Debug(s, cmd, addr, data).1
  }

  // ---------- The interrupt outputs are never stale ----------

  ghost predicate Exact(s: State) {
    WellFormed(s) && forall h :: 0 <= h < |s.cmp| ==> s.irq[h] == (s.mtime >= s.cmp[h])
  }

  lemma ResetIsExact(harts: nat)
    requires 1 <= harts
    ensures Exact(Reset(harts))
  {}

  lemma CompareIsExact(s: State)
    requires s.mtime < RANGE && 1 <= s.prescaler <= 65535 && s.enable <= 1 && s.overflow <= 1 && 1 <= |s.cmp|
    requires forall h :: 0 <= h < |s.cmp| ==> s.cmp[h] < RANGE
    ensures Exact(Compare(s))
  {}

  lemma FromBytesAt(b: seq<Byte>, h: nat)
    requires |b| % 8 == 0 && 8 * h + 8 <= |b|
    ensures FromBytes(b)[h] == Value(b[8 * h..8 * h + 8])
    decreases h
  {
    if h > 0 {
      FromBytesAt(b[8..], h - 1);
      assert b[8..][8 * (h - 1)..8 * (h - 1) + 8] == b[8 * h..8 * h + 8];
    }
  }

  lemma AllBytesAt(cmp: seq<nat>, h: nat)
    requires h < |cmp|
    ensures AllBytes(cmp)[8 * h..8 * h + 8] == Bytes(cmp[h], 8)
    decreases h
  {
    hide Bytes;
    var first, rest := Bytes(cmp[0], 8), AllBytes(cmp[1..]);
    if h == 0 {
      assert (first + rest)[..8] == first;
    } else {
      AllBytesAt(cmp[1..], h - 1);
      SliceAfter(first, rest, 8 * (h - 1), 8 * h);
    }
  }

  lemma SliceAfter(a: seq<Byte>, b: seq<Byte>, i: nat, j: nat)
    requires i <= j <= |b|
    ensures (a + b)[|a| + i..|a| + j] == b[i..j]
  {}

  lemma DebugKeepsExact(s: State, cmd: Command, addr: nat, data: seq<Byte>)
    requires Exact(s)
    ensures Exact(Debug(s, cmd, addr, data).1) && |Debug(s, cmd, addr, data).1.cmp| == |s.cmp|
  {
    hide Value, Bytes, FromBytes;
    WordSizes();
    if cmd.WriteCmd? && MTIME <= addr < MTIME + 8 {
      var b := Patch(Bytes(s.mtime, 8), addr - MTIME, data[..Min(|data|, MTIME + 8 - addr)]);
      ValueBound(b);
    } else if cmd.WriteCmd? && addr < |s.cmp| * 8 {
      var b := Patch(AllBytes(s.cmp), addr, data[..Min(|data|, |s.cmp| * 8 - addr)]);
      forall h | 0 <= h < |s.cmp|
        ensures FromBytes(b)[h] < RANGE
      {
        FromBytesAt(b, h);
        ValueBound(b[8 * h..8 * h + 8]);
      }
      CompareIsExact(s.(cmp := FromBytes(b)));
    }
  }

  lemma BusKeepsExact(s: State, cmd: Command, addr: nat, data: seq<Byte>)
    requires Exact(s)
    ensures Exact(Bus(s, cmd, addr, data).1) && |Bus(s, cmd, addr, data).1.cmp| == |s.cmp|
  {
    hide WriteSplit, Bytes, Value;
    if cmd.WriteCmd? && (|data| == 4 || |data| == 8) && addr % |data| == 0 {
      var high := addr % 8 == 4;
      SplitWriteFits(s.mtime, data, high);
      if addr / 8 < |s.cmp| {
        SplitWriteFits(s.cmp[addr / 8], data, high);
      }
    }
  }

  /** After every tick, register access and debug access, each output equals its comparison. */
  lemma StepKeepsExact(s: State, e: Event)
    requires Exact(s)
    ensures Exact(Step(s, e)) && |Step(s, e).cmp| == |s.cmp|
  {
    match e
    case TickEvent =>
    case BusEvent(cmd, addr, data) => BusKeepsExact(s, cmd, addr, data);
    case DebugEvent(cmd, addr, data) => DebugKeepsExact(s, cmd, addr, data);
  }

  ghost function Run(s: State, es: seq<Event>): (r: State)
    requires Exact(s)
    ensures Exact(r) && |r.cmp| == |s.cmp|
    decreases |es|
  {
    if es == [] then s
    else
      StepKeepsExact(s, es[0]);
      Run(Step(s, es[0]), es[1..])
  }

  // ---------- Updating a comparator without a spurious interrupt ----------

  /** A write that reaches a byte of hart `h`'s comparator. */
  predicate Touches(e: Event, h: nat) {
    !e.TickEvent? && e.cmd.WriteCmd? && e.addr < 8 * h + 8 && 8 * h < e.addr + |e.data|
  }

  lemma DebugLeavesOthers(s: State, cmd: Command, addr: nat, data: seq<Byte>, h: nat)
    requires Exact(s) && h < |s.cmp| && !Touches(DebugEvent(cmd, addr, data), h)
    ensures h < |Debug(s, cmd, addr, data).1.cmp| && Debug(s, cmd, addr, data).1.cmp[h] == s.cmp[h]
  {
    hide Value, Bytes, FromBytes, AllBytes;
    if cmd.WriteCmd? && !(MTIME <= addr < MTIME + 8) && addr < |s.cmp| * 8 {
      var b := AllBytes(s.cmp);
      var p := Patch(b, addr, data[..Min(|data|, |s.cmp| * 8 - addr)]);
      FromBytesAt(p, h);
      AllBytesAt(s.cmp, h);
      assert p[8 * h..8 * h + 8] == b[8 * h..8 * h + 8];
      WordSizes();
      ValueOfBytes(s.cmp[h], 8);
    }
  }

  lemma StepLeavesOthers(s: State, e: Event, h: nat)
    requires Exact(s) && h < |s.cmp| && !Touches(e, h)
    ensures h < |Step(s, e).cmp| && Step(s, e).cmp[h] == s.cmp[h]
  {
    hide WriteSplit, ReadSplit, Value, Bytes;
    if e.DebugEvent? {
      DebugLeavesOthers(s, e.cmd, e.addr, e.data, h);
    }
  }

  /** Whatever else happens, hart `h`'s output follows the comparison with its own comparator
      until somebody writes that comparator. */
  lemma {:induction false} FollowsComparator(s: State, es: seq<Event>, h: nat)
    requires Exact(s) && h < |s.cmp| && forall k :: 0 <= k < |es| ==> !Touches(es[k], h)
    ensures Run(s, es).cmp[h] == s.cmp[h]
    ensures Run(s, es).irq[h] == (Run(s, es).mtime >= s.cmp[h])
    decreases |es|
  {
    hide Step, Touches;
    if es != [] {
      StepKeepsExact(s, es[0]);
      StepLeavesOthers(s, es[0], h);
      FollowsComparator(Step(s, es[0]), es[1..], h);
    }
  }

  /** A 32-bit write of the low or the high half of hart `h`'s comparator. */
  function HalfWrite(h: nat, high: bool, word: nat): Event {
    BusEvent(WriteCmd, if high then 8 * h + 4 else 8 * h, Bytes(word, 4))
  }

  lemma HalfWriteSets(s: State, h: nat, high: bool, word: nat)
    requires Exact(s) && h < |s.cmp| && word < HALF
    ensures var s' := Step(s, HalfWrite(h, high, word));
      && |s'.cmp| == |s.cmp|
      && s'.cmp[h] == if high then word * HALF + s.cmp[h] % HALF else s.cmp[h] / HALF * HALF + word
  {
    hide Bytes, Value, Pow256;
    WordSizes();
    ValueOfBytes(word, 4);
    HalfAddress(h, high);
  }

  lemma HalfAddress(h: nat, high: bool)
    ensures var a := if high then 8 * h + 4 else 8 * h; a % 4 == 0 && a / 8 == h && (a % 8 == 4 <==> high)
  {
    if high {
      assert 8 * h + 4 == 4 * (2 * h + 1);
    } else {
      assert 8 * h == 4 * (2 * h);
    }
  }

  lemma Prefixes(s: State, es: seq<Event>, h: nat)
    requires Exact(s) && h < |s.cmp| && forall e :: e in es ==> !Touches(e, h)
    ensures forall k :: 0 <= k <= |es| ==>
      Run(s, es[..k]).cmp[h] == s.cmp[h] && Run(s, es[..k]).irq[h] == (Run(s, es[..k]).mtime >= s.cmp[h])
  {
    hide Touches;
    forall k | 0 <= k <= |es|
      ensures Run(s, es[..k]).cmp[h] == s.cmp[h] && Run(s, es[..k]).irq[h] == (Run(s, es[..k]).mtime >= s.cmp[h])
    {
      FollowsComparator(s, es[..k], h);
    }
  }

  /** One half write and the events after it. */
  lemma Phase(s: State, h: nat, high: bool, word: nat, es: seq<Event>)
    requires Exact(s) && h < |s.cmp| && word < HALF && forall e :: e in es ==> !Touches(e, h)
    ensures var s' := Step(s, HalfWrite(h, high, word));
      && Exact(s') && |s'.cmp| == |s.cmp|
      && s'.cmp[h] == (if high then word * HALF + s.cmp[h] % HALF else s.cmp[h] / HALF * HALF + word)
      && Run(s', es).cmp[h] == s'.cmp[h]
      && forall k :: 0 <= k <= |es| ==> Run(s', es[..k]).irq[h] == (Run(s', es[..k]).mtime >= s'.cmp[h])
  {
    hide Step, Touches, HalfWrite, Exact;
    ExactIsWellFormed(s);
    var w := HalfWrite(h, high, word);
    StepKeepsExact(s, w);
    HalfWriteSets(s, h, high, word);
    Prefixes(Step(s, w), es, h);
    assert es[..|es|] == es;
  }

  lemma ExactIsWellFormed(s: State)
    requires Exact(s)
    ensures WellFormed(s)
  {}

  ghost function AfterHalf(s: State, h: nat, high: bool, word: nat): (r: State)
    requires Exact(s) && h < |s.cmp| && word < HALF
    ensures Exact(r) && |r.cmp| == |s.cmp|
  {
    StepKeepsExact(s, HalfWrite(h, high, word));
    Step(s, HalfWrite(h, high, word))
  }

  /** At every moment after some prefix of `es`, an interrupt at hart `h` means the counter has
      reached `bound`. */
  ghost predicate QuietBelow(s: State, es: seq<Event>, h: nat, bound: nat)
    requires Exact(s) && h < |s.cmp|
  {
    forall k :: 0 <= k <= |es| ==> Run(s, es[..k]).irq[h] ==> Run(s, es[..k]).mtime >= bound
  }

  /** The update sequence of section 3.2.1 of the RISC-V privileged architecture: all ones to
      the high half, then the new low half, then the new high half. Between the writes anything
      may happen that does not write this comparator: ticks, accesses to other registers and
      other harts, writes of the counter. From the first write on, hart `h` sees no interrupt
      while the counter is below both the parking value and the new value, and once the last
      write is done it sees one exactly when the counter has reached the new value. */
  lemma NoSpuriousInterrupt(s: State, h: nat, next: nat, a: seq<Event>, b: seq<Event>, c: seq<Event>)
    requires Exact(s) && h < |s.cmp| && next < RANGE
    requires forall e :: e in a || e in b || e in c ==> !Touches(e, h)
    ensures var s1 := AfterHalf(s, h, true, HALF - 1);
      var s2 := AfterHalf(Run(s1, a), h, false, next % HALF);
      var s3 := AfterHalf(Run(s2, b), h, true, next / HALF);
      && QuietBelow(s1, a, h, RANGE - HALF)
      && QuietBelow(s2, b, h, RANGE - HALF)
      && QuietBelow(s3, c, h, next)
      && Run(s3, c).cmp[h] == next && Run(s3, c).irq[h] == (Run(s3, c).mtime >= next)
  {
    hide Step, Touches, HalfWrite, Exact, Run;
    var s1 := AfterHalf(s, h, true, HALF - 1);
    Phase(s, h, true, HALF - 1, a);
    var q1 := Run(s1, a);
    Phase(q1, h, false, next % HALF, b);
    var s2 := AfterHalf(q1, h, false, next % HALF);
    var q2 := Run(s2, b);
    Phase(q2, h, true, next / HALF, c);
    assert c[..|c|] == c;
  }

  /** What the comparator holds between an unparked write of the new low half and that of the
      new high half. */
  function Mixture(was: nat, next: nat): nat {
    was / HALF * HALF + next % HALF
  }

  /** An interrupt at counter value `t` that neither the old nor the new comparator asks for. */
  predicate Spurious(was: nat, next: nat, t: nat) {
    Mixture(was, next) <= t && t < was && t < next
  }

  /** Writing the new low half first, without parking: at any later moment before the high half
      is written an interrupt is up exactly when the counter has reached the mixture. */
  lemma LowFirstRaisesIff(s: State, h: nat, next: nat, es: seq<Event>)
    requires Exact(s) && h < |s.cmp| && next < RANGE && forall e :: e in es ==> !Touches(e, h)
    ensures var q := Run(AfterHalf(s, h, false, next % HALF), es);
      q.irq[h] <==> Mixture(s.cmp[h], next) <= q.mtime
  {
    hide Step, Touches, HalfWrite, Exact;
    Phase(s, h, false, next % HALF, es);
    assert es[..|es|] == es;
  }

  /** There are counter values at which it is spurious if and only if the new low half is below
      the old one and the new high half above: the mixture then undercuts both values. */
  lemma LowFirstMisfiresIff(was: nat, next: nat)
    requires was < RANGE && next < RANGE
    ensures (exists t: nat :: Spurious(was, next, t)) <==> next % HALF < was % HALF && was / HALF < next / HALF
  {
    var m := Mixture(was, next);
    assert m < was <==> next % HALF < was % HALF;
    assert m < next <==> was / HALF < next / HALF;
    if m < was && m < next {
      assert Spurious(was, next, m);
    }
  }

  /** For one state and the low-half write itself: from an exact state with the counter below the
      old and the new value, the write raises the interrupt exactly when the counter has reached
      the mixture. */
  lemma LowWriteMisfiresIff(s: State, h: nat, next: nat)
    requires Exact(s) && h < |s.cmp| && next < RANGE && s.mtime < s.cmp[h] && s.mtime < next
    ensures !s.irq[h]
    ensures AfterHalf(s, h, false, next % HALF).irq[h] <==> s.cmp[h] / HALF * HALF + next % HALF <= s.mtime
  {
    hide Step;
    LowFirstRaisesIff(s, h, next, []);
    HalfWriteKeepsTime(s, h, next % HALF);
  }

  lemma HalfWriteKeepsTime(s: State, h: nat, word: nat)
    requires Exact(s) && h < |s.cmp| && word < HALF
    ensures AfterHalf(s, h, false, word).mtime == s.mtime
  {
    hide Bytes, Value, WriteSplit, ReadSplit;
    HalfAddress(h, false);
  }

  /** Writing the halves low first, without parking, can raise a spurious interrupt: the counter
      is below the old and the new value, but not below the mixture of the two. */
  lemma LowFirstCanMisfire()
    ensures var s := Compare(State(0x1_8000_0000, 1, 1, 0, [0x1_FFFF_FFFF], [false]));
      Exact(s) && !s.irq[0] && s.mtime < 0x2_0000_0000 && Step(s, HalfWrite(0, false, 0)).irq[0]
  {
    var s := Compare(State(0x1_8000_0000, 1, 1, 0, [0x1_FFFF_FFFF], [false]));
    HalfWriteSets(s, 0, false, 0);
    StepKeepsExact(s, HalfWrite(0, false, 0));
  }
}

/** The NoC router's data cache (noc_cache.h, class noc_data_cache): direct mapped, 16 lines of 32
bytes, write through, one valid bit per byte.

The cache is described address by address: `Cached(c, a)` says that the byte at address `a` is
held, `CachedByte` is its value. Each operation is then a statement about which addresses are
held afterwards, and `Coherent` compares the held bytes with the memory behind the cache. */
module NocDataCache {
  import opened Prelude
  const LINES: nat := 16
  const LINE_SIZE: nat := 32

  /** One line; `byteValid` is the set of one bits of the 32-bit mask. */
  datatype Line = Line(valid: bool, tag: nat, byteValid: set<nat>, data: seq<Byte>)

  type Cache = c: seq<Line> | |c| == LINES && forall k :: 0 <= k < LINES ==> |c[k].data| == LINE_SIZE
    witness EmptyCache()

  function EmptyCache(): seq<Line> {
    seq(LINES, i => Line(false, 0, {}, seq(LINE_SIZE, j => 0)))
  }

  function Index(addr: nat): (k: nat)
    ensures k < LINES
  {
    addr / LINE_SIZE % LINES
  }

  function Tag(addr: nat): nat {
    addr / (LINE_SIZE * LINES)
  }

  function Offset(addr: nat): (k: nat)
    ensures k < LINE_SIZE
  {
    addr % LINE_SIZE
  }

  /** Tag, index and offset together are the address. */
  lemma AddressParts(addr: nat)
    ensures addr == Tag(addr) * 512 + Index(addr) * 32 + Offset(addr)
  {}

  /** The bytes of an access that stays inside one line share its tag and index. */
  lemma SameLine(addr: nat, j: nat)
    requires Offset(addr) + j < LINE_SIZE
    ensures Tag(addr + j) == Tag(addr) && Index(addr + j) == Index(addr) && Offset(addr + j) == Offset(addr) + j
  {
    var line := addr / 32;
    assert addr == 32 * line + addr % 32;
    assert (addr + j) / 32 == line;
    assert addr / 512 == line / 16 && (addr + j) / 512 == line / 16;
  }

  predicate Fits(addr: nat, len: nat) {
    Offset(addr) + len <= LINE_SIZE
  }

  /** The mask the program computes: all ones from 32 bytes on, else `len` ones shifted left by
      `ofs`, with the bits shifted out of the word lost. */
  function ByteMask(ofs: nat, len: nat): set<nat> {
    set k | 0 <= k < 32 && MaskBit(ofs, len, k)
  }

  predicate MaskBit(ofs: nat, len: nat, k: nat) {
    len >= 32 || ofs <= k < ofs + len
  }

  function Ones(len: bv32): bv32
    requires len < 32
  {
    (1 << len) - 1
  }

  function ShiftLeft(x: bv32, ofs: bv32): bv32
    requires ofs < 32
  {
    x << ofs
  }

  predicate BitAt(x: bv32, k: bv32)
    requires k < 32
  {
    (x >> k) & 1 == 1
  }

  lemma OnesBits(len: bv32, k: bv32)
    requires len < 32 && k < 32
    ensures BitAt(Ones(len), k) <==> k < len
  {}

  lemma ShiftMovesBits(x: bv32, ofs: bv32, k: bv32)
    requires ofs < 32 && k < 32
    ensures BitAt(x << ofs, k) <==> ofs <= k && BitAt(x, k - ofs)
  {}

  lemma ShiftLeftMovesBits(x: bv32, ofs: bv32, k: bv32)
    requires ofs < 32 && k < 32
    ensures BitAt(ShiftLeft(x, ofs), k) <==> ofs <= k && BitAt(x, k - ofs)
  {
    hide BitAt;
    ShiftMovesBits(x, ofs, k);
  }

  lemma ShiftedOnes(ofs: bv32, len: bv32, k: bv32)
    requires ofs < 32 && len < 32 && k < 32
    ensures BitAt(ShiftLeft(Ones(len), ofs), k) <==> ofs <= k < ofs + len
  {
    hide Ones, ShiftLeft, BitAt;
    ShiftLeftMovesBits(Ones(len), ofs, k);
    if ofs <= k {
      OnesBits(len, k - ofs);
    }
  }

  /** The expression of the program. */
  function MaskWord(ofs: bv32, len: bv32): bv32
    requires ofs < 32
  {
    if len >= 32 then 0xFFFF_FFFF else ShiftLeft(Ones(len), ofs)
  }

  lemma SmallSum(a: bv32, b: bv32)
    requires a < 64 && b < 64
    ensures (a + b) as nat == (a as nat) + (b as nat)
  {}

  lemma SmallPositive(a: bv32)
    requires 0 < a < 64
    ensures (a as nat) > 0
  {}

  lemma SmallOrder(a: bv32, b: bv32)
    requires a <= b < 64
    ensures (a as nat) <= (b as nat) && (a < b ==> (a as nat) < (b as nat))
  {
    var c := b - a;
    assert c < 64 && a + c == b;
    SmallSum(a, c);
    if a < b {
      SmallPositive(c);
    }
  }

  lemma AtLeast32(a: bv32)
    requires a >= 32
    ensures (a as nat) >= 32
  {}

  lemma AllOnes(k: bv32)
    requires k < 32
    ensures BitAt(0xFFFF_FFFF, k)
  {}

  lemma SmallInterval(lo: bv32, hi: bv32, k: bv32)
    requires lo < 64 && hi < 64 && k < 64
    ensures lo <= k < hi <==> (lo as nat) <= (k as nat) < (hi as nat)
  {
    if lo <= k {
      SmallOrder(lo, k);
    } else {
      SmallOrder(k, lo);
    }
    if k < hi {
      SmallOrder(k, hi);
    } else {
      SmallOrder(hi, k);
    }
  }

  lemma ShortMask(ofs: bv32, len: bv32, k: bv32)
    requires ofs < 32 && len < 32 && k < 32
    ensures BitAt(MaskWord(ofs, len), k) <==> (ofs as nat) <= (k as nat) < (ofs as nat) + (len as nat)
  {
    hide Ones, ShiftLeft, BitAt;
    ShiftedOnes(ofs, len, k);
    SmallSum(ofs, len);
    SmallInterval(ofs, ofs + len, k);
  }

  lemma LongMask(ofs: bv32, len: bv32, k: bv32)
    requires ofs < 32 && len >= 32 && k < 32
    ensures BitAt(MaskWord(ofs, len), k) && (len as nat) >= 32
  {
    hide BitAt;
    AtLeast32(len);
    AllOnes(k);
  }

  lemma Below32(a: bv32)
    requires a < 32
    ensures (a as nat) < 32
  {}

  lemma MaskHas(ofs: nat, len: nat, k: nat)
    ensures k in ByteMask(ofs, len) <==> k < 32 && (len >= 32 || ofs <= k < ofs + len)
  {}

  /** The 32-bit shift expression has exactly the bits of the mask. */
  lemma MaskArithmetic(ofs: bv32, len: bv32, k: bv32)
    requires ofs < 32 && k < 32
    ensures BitAt(MaskWord(ofs, len), k) <==> (k as nat) in ByteMask(ofs as nat, len as nat)
  {
    hide MaskWord, BitAt, ByteMask, MaskBit;
    MaskHas(ofs as nat, len as nat, k as nat);
    Below32(k);
    if len >= 32 {
      LongMask(ofs, len, k);
    } else {
      Below32(len);
      ShortMask(ofs, len, k);
    }
  }

  ghost predicate Resident(c: Cache, addr: nat) {
    c[Index(addr)].valid && c[Index(addr)].tag == Tag(addr)
  }

  ghost predicate Cached(c: Cache, a: nat) {
    Resident(c, a) && Offset(a) in c[Index(a)].byteValid
  }

  ghost function CachedByte(c: Cache, a: nat): Byte {
    c[Index(a)].data[Offset(a)]
  }

  /** A read is served by the cache. */
  ghost predicate ReadHits(c: Cache, addr: nat, len: nat) {
    Resident(c, addr) && Fits(addr, len) && ByteMask(Offset(addr), len) <= c[Index(addr)].byteValid
  }

  ghost function ReadData(c: Cache, addr: nat, len: nat): (data: seq<Byte>)
    requires Fits(addr, len)
    ensures |data| == len
  {
    c[Index(addr)].data[Offset(addr)..Offset(addr) + len]
  }

  ghost function Merge(line: Line, ofs: nat, data: seq<Byte>): (l: Line)
    requires |line.data| == LINE_SIZE && ofs + |data| <= LINE_SIZE
    ensures |l.data| == LINE_SIZE
  {
    line.(data := line.data[..ofs] + data + line.data[ofs + |data|..],
          byteValid := line.byteValid + ByteMask(ofs, |data|))
  }

  ghost function Write(c: Cache, addr: nat, data: seq<Byte>): Cache {
    if Resident(c, addr) && Fits(addr, |data|)
    then c[Index(addr) := Merge(c[Index(addr)], Offset(addr), data)]
    else c
  }

  /** The line a successful read leaves behind: only the bytes just read are valid. */
  ghost function Allocate(c: Cache, addr: nat, data: seq<Byte>): Cache {
    var n := Min(|data|, LINE_SIZE - Offset(addr));
    var blank := Line(true, Tag(addr), {}, seq(LINE_SIZE, j => 0));
    c[Index(addr) := Merge(blank, Offset(addr), data[..n])]
  }

  ghost function Flush(c: Cache): Cache {
    seq(LINES, k requires 0 <= k < LINES => c[k].(valid := false))
  }

  /** The number of valid lines among the first `k`. */
  function ValidCount(c: Cache, k: nat): (n: nat)
    requires k <= LINES
    ensures n <= k
    ensures n == 0 <==> forall j :: 0 <= j < k ==> !c[j].valid
  {
    if k == 0 then 0 else ValidCount(c, k - 1) + if c[k - 1].valid then 1 else 0
  }

  lemma {:induction false} CountsValid(c: Cache, k: nat)
    requires k <= LINES
    ensures ValidCount(c, k) == |set j | 0 <= j < k && c[j].valid|
    decreases k
  {
    var all := set j | 0 <= j < k && c[j].valid;
    if k == 0 {
      assert all == {};
    } else {
      CountsValid(c, k - 1);
      var rest := set j | 0 <= j < k - 1 && c[j].valid;
      assert all == if c[k - 1].valid then rest + {k - 1} else rest;
    }
  }

  // ---------- What each operation holds ----------

  lemma MaskMember(ofs: nat, len: nat, k: nat)
    requires ofs + len <= LINE_SIZE
    ensures k in ByteMask(ofs, len) <==> ofs <= k < ofs + len
  {}

  /** A read hits exactly when it stays inside a resident line and every byte of it is held;
      the answer is then the held bytes. */
  lemma ReadHitMeansCached(c: Cache, addr: nat, len: nat)
    ensures ReadHits(c, addr, len) <==>
      Resident(c, addr) && Fits(addr, len) && forall a :: addr <= a < addr + len ==> Cached(c, a)
    ensures ReadHits(c, addr, len) ==>
      forall a :: addr <= a < addr + len ==> ReadData(c, addr, len)[a - addr] == CachedByte(c, a)
  {
    if Resident(c, addr) && Fits(addr, len) {
      forall a | addr <= a < addr + len
        ensures Cached(c, a) <==> Offset(a) in c[Index(addr)].byteValid
        ensures Offset(a) in ByteMask(Offset(addr), len)
        ensures ReadData(c, addr, len)[a - addr] == CachedByte(c, a)
      {
        SameLine(addr, a - addr);
        MaskMember(Offset(addr), len, Offset(a));
      }
      if forall a :: addr <= a < addr + len ==> Cached(c, a) {
        forall k | k in ByteMask(Offset(addr), len)
          ensures k in c[Index(addr)].byteValid
        {
          MaskMember(Offset(addr), len, k);
          var a := addr + (k - Offset(addr));
          SameLine(addr, a - addr);
          assert Cached(c, a);
        }
      }
    }
  }

  /** Which addresses fall into a line, seen from an access inside that line. */
  lemma InSameLine(addr: nat, a: nat, len: nat)
    requires Fits(addr, len)
    ensures addr <= a < addr + len <==>
      Index(a) == Index(addr) && Tag(a) == Tag(addr) && Offset(addr) <= Offset(a) < Offset(addr) + len
    ensures addr <= a < addr + len ==> Offset(a) == Offset(addr) + (a - addr)
  {
    AddressParts(a);
    AddressParts(addr);
    if addr <= a < addr + len {
      SameLine(addr, a - addr);
    }
  }

  /** A write into a resident line updates exactly the bytes written; any other write leaves
      the cache alone. */
  lemma WriteHolds(c: Cache, addr: nat, data: seq<Byte>, a: nat)
    ensures var c' := Write(c, addr, data);
      if Resident(c, addr) && Fits(addr, |data|) && addr <= a < addr + |data|
      then Cached(c', a) && CachedByte(c', a) == data[a - addr]
      else (Cached(c', a) <==> Cached(c, a)) && (Cached(c, a) ==> CachedByte(c', a) == CachedByte(c, a))
  {
    hide Index, Tag, Offset, ByteMask, MaskBit;
    if Resident(c, addr) && Fits(addr, |data|) {
      InSameLine(addr, a, |data|);
      MaskMember(Offset(addr), |data|, Offset(a));
    }
  }

  /** An allocation holds the bytes it was given, up to the end of the line, and evicts every
      other byte of that line; other lines are untouched. */
  lemma AllocateHolds(c: Cache, addr: nat, data: seq<Byte>, a: nat)
    ensures var c', n := Allocate(c, addr, data), Min(|data|, LINE_SIZE - Offset(addr));
      && (addr <= a < addr + n ==> Cached(c', a) && CachedByte(c', a) == data[a - addr])
      && (Cached(c', a) && !(addr <= a < addr + n) ==>
           Index(a) != Index(addr) && Cached(c, a) && CachedByte(c', a) == CachedByte(c, a))
      && (Cached(c, a) && Index(a) != Index(addr) ==> Cached(c', a))
  {
    hide Index, Tag, Offset, ByteMask, MaskBit;
    var n := Min(|data|, LINE_SIZE - Offset(addr));
    InSameLine(addr, a, n);
    MaskMember(Offset(addr), n, Offset(a));
  }

  /** A fill that stays in its line is answered by the next read of the same bytes. */
  lemma AllocateFillsLine(c: Cache, addr: nat, data: seq<Byte>)
    requires data != [] && Fits(addr, |data|)
    ensures var c' := Allocate(c, addr, data);
      ReadHits(c', addr, |data|) && ReadData(c', addr, |data|) == data
  {
    hide Index, Tag, ByteMask, Cached, CachedByte;
    var c' := Allocate(c, addr, data);
    forall a: nat | addr <= a < addr + |data|
      ensures Cached(c', a) && CachedByte(c', a) == data[a - addr]
    {
      AllocateHolds(c, addr, data, a);
    }
    ReadHitMeansCached(c', addr, |data|);
    assert Cached(c', addr);
    forall j | 0 <= j < |data|
      ensures ReadData(c', addr, |data|)[j] == data[j]
    {
      assert ReadData(c', addr, |data|)[addr + j - addr] == CachedByte(c', addr + j);
    }
  }

  lemma FlushHoldsNothing(c: Cache, a: nat)
    ensures !Cached(Flush(c), a)
  {}

  // ---------- Coherence ----------

  /** The memory behind the cache, as far as the cache's clients can address it. */
  type View = nat -> Option<Byte>

  ghost predicate Coherent(c: Cache, v: View) {
    forall a :: Cached(c, a) ==> v(a) == Some(CachedByte(c, a))
  }

  /** The memory after a write: the target stores the bytes only if it accepts the access. */
  ghost function Stored(v: View, addr: nat, data: seq<Byte>, accepted: bool): View {
    (a: nat) => if accepted && addr <= a < addr + |data| then Some(data[a - addr]) else v(a)
  }

  /** The write path: the cache is updated first, then the target is asked. */
  ghost predicate WriteKeepsCoherence(c: Cache, v: View, addr: nat, data: seq<Byte>, accepted: bool) {
    Coherent(Write(c, addr, data), Stored(v, addr, data, accepted))
  }

  /** What a caller has to check: an accepted write must stay inside one line or touch no held
      byte; a rejected write must not have found its line. */
  ghost predicate SafeWrite(c: Cache, addr: nat, len: nat, accepted: bool) {
    || len == 0
    || (if accepted then Fits(addr, len) || forall a :: addr <= a < addr + len ==> !Cached(c, a)
        else !(Resident(c, addr) && Fits(addr, len)))
  }

  lemma HeldMeansResident(c: Cache, addr: nat, len: nat, a: nat)
    requires Fits(addr, len) && addr <= a < addr + len && Cached(c, a)
    ensures Resident(c, addr)
  {
    InSameLine(addr, a, len);
  }

  lemma SafeWriteKeeps(c: Cache, v: View, addr: nat, data: seq<Byte>, accepted: bool)
    requires Coherent(c, v) && SafeWrite(c, addr, |data|, accepted)
    ensures WriteKeepsCoherence(c, v, addr, data, accepted)
  {
    hide Write, Cached, Fits, Resident, CachedByte;
    var c', v' := Write(c, addr, data), Stored(v, addr, data, accepted);
    forall a: nat | Cached(c', a)
      ensures v'(a) == Some(CachedByte(c', a))
    {
      WriteHolds(c, addr, data, a);
      if addr <= a < addr + |data| && Fits(addr, |data|) && !Resident(c, addr) {
        HeldMeansResident(c, addr, |data|, a);
      }
    }
  }

  /** An unsafe write destroys coherence for some payload of that length. */
  lemma UnsafeWriteBreaks(c: Cache, v: View, addr: nat, len: nat, accepted: bool) returns (data: seq<Byte>)
    requires Coherent(c, v) && !SafeWrite(c, addr, len, accepted)
    ensures |data| == len && !WriteKeepsCoherence(c, v, addr, data, accepted)
  {
    hide Write, Cached, Fits, Resident, CachedByte;
    if accepted {
      var a :| addr <= a < addr + len && Cached(c, a);
      var other: Byte := (CachedByte(c, a) + 1) % 256;
      data := seq(len, j => other);
      WriteHolds(c, addr, data, a);
      assert Stored(v, addr, data, accepted)(a) == Some(other);
    } else {
      var other: Byte := if v(addr) == Some(0) then 1 else 0;
      data := seq(len, j => other);
      WriteHolds(c, addr, data, addr);
      assert Cached(Write(c, addr, data), addr);
    }
  }

  /** Exactly when a write keeps the cache coherent whatever the bytes written. */
  lemma WriteCoherenceIff(c: Cache, v: View, addr: nat, len: nat, accepted: bool)
    requires Coherent(c, v)
    ensures (forall data: seq<Byte> :: |data| == len ==> WriteKeepsCoherence(c, v, addr, data, accepted))
      <==> SafeWrite(c, addr, len, accepted)
  {
    hide WriteKeepsCoherence, SafeWrite, Coherent;
    if SafeWrite(c, addr, len, accepted) {
      forall data: seq<Byte> | |data| == len
        ensures WriteKeepsCoherence(c, v, addr, data, accepted)
      {
        SafeWriteKeeps(c, v, addr, data, accepted);
      }
    } else {
      var data := UnsafeWriteBreaks(c, v, addr, len, accepted);
    }
  }

  ghost predicate Agrees(v: View, addr: nat, data: seq<Byte>) {
    forall a :: addr <= a < addr + |data| ==> v(a) == Some(data[a - addr])
  }

  /** Exactly when a fill keeps the cache coherent: the bytes that fit the line are the bytes the
      memory holds at that moment. (A blocking read fills with what its target just answered; a
      response that arrives after a later write to the same bytes does not qualify.) */
  lemma AllocateCoherenceIff(c: Cache, v: View, addr: nat, data: seq<Byte>)
    requires Coherent(c, v)
    ensures Coherent(Allocate(c, addr, data), v) <==> Agrees(v, addr, data[..Min(|data|, LINE_SIZE - Offset(addr))])
  {
    hide Allocate, Cached;
    var c', n := Allocate(c, addr, data), Min(|data|, LINE_SIZE - Offset(addr));
    if Agrees(v, addr, data[..n]) {
      forall a: nat | Cached(c', a)
        ensures v(a) == Some(CachedByte(c', a))
      {
        AllocateHolds(c, addr, data, a);
      }
    }
    if Coherent(c', v) {
      forall a | addr <= a < addr + n
        ensures v(a) == Some(data[..n][a - addr])
      {
        AllocateHolds(c, addr, data, a);
        assert Cached(c', a);
      }
    }
  }

  lemma AllocateKeepsCoherence(c: Cache, v: View, addr: nat, data: seq<Byte>)
    requires Coherent(c, v)
    requires forall a :: addr <= a < addr + |data| ==> v(a) == Some(data[a - addr])
    ensures Coherent(Allocate(c, addr, data), v)
  {
    hide Allocate, Coherent;
    AllocateCoherenceIff(c, v, addr, data);
  }

  lemma FlushIsCoherent(c: Cache, v: View)
    ensures Coherent(Flush(c), v)
  {
    forall a: nat
      ensures !Cached(Flush(c), a)
    {
      FlushHoldsNothing(c, a);
    }
  }

  /** The program. */
  class DataCache {
    var lines: Cache

    constructor ()
      ensures lines == EmptyCache()
    {
      lines := EmptyCache();
    }

    method ReadBytes(addr: nat, len: nat) returns (hit: bool, data: seq<Byte>)
      ensures hit == ReadHits(lines, addr, len)
      ensures hit ==> data == ReadData(lines, addr, len)
    {
      var idx := Index(addr);
      if lines[idx].valid && lines[idx].tag == Tag(addr) {
        var ofs := Offset(addr);
        if ofs + len <= LINE_SIZE {
          var mask := ByteMask(ofs, len);
          if lines[idx].byteValid * mask == mask {
            return true, lines[idx].data[ofs..ofs + len];
          }
        }
      }
      return false, [];
    }

    method WriteBytes(addr: nat, data: seq<Byte>) returns (found: bool)
      modifies this
      ensures lines == Write(old(lines), addr, data)
      ensures found == Resident(old(lines), addr)
    {
      var idx := Index(addr);
      if lines[idx].valid && lines[idx].tag == Tag(addr) {
        var ofs := Offset(addr);
        if ofs + |data| <= LINE_SIZE {
          CopyIn(idx, ofs, data);
          lines := lines[idx := lines[idx].(byteValid := lines[idx].byteValid + ByteMask(ofs, |data|))];
        }
        return true;
      }
      return false;
    }

    method AllocateLine(addr: nat, data: seq<Byte>) returns (evicted: bool)
      modifies this
      ensures lines == Allocate(old(lines), addr, data)
      ensures evicted == old(lines)[Index(addr)].valid
    {
      var idx := Index(addr);
      evicted := lines[idx].valid;
      lines := lines[idx := Line(true, Tag(addr), {}, seq(LINE_SIZE, j => 0))];
      var ofs := Offset(addr);
      var copyLen := Min(|data|, LINE_SIZE - ofs);
      CopyIn(idx, ofs, data[..copyLen]);
      lines := lines[idx := lines[idx].(byteValid := ByteMask(ofs, copyLen))];
      assert lines[idx] == Allocate(old(lines), addr, data)[idx];
    }

    /** std::memcpy into the line's data. */
    method CopyIn(idx: nat, ofs: nat, data: seq<Byte>)
      requires idx < LINES && ofs + |data| <= LINE_SIZE
      modifies this
      ensures lines == old(lines)[idx := old(lines)[idx].(data :=
        old(lines)[idx].data[..ofs] + data + old(lines)[idx].data[ofs + |data|..])]
    {
      var bytes := lines[idx].data;
      for j := 0 to |data|
        invariant |bytes| == LINE_SIZE
        invariant bytes == lines[idx].data[..ofs] + data[..j] + lines[idx].data[ofs + j..]
      {
        bytes := bytes[ofs + j := data[j]];
      }
      assert data[..|data|] == data;
      lines := lines[idx := lines[idx].(data := bytes)];
    }

    method CountValid() returns (count: nat)
      ensures count == ValidCount(lines, LINES)
    {
      count := 0;
      for k := 0 to LINES
        invariant count == ValidCount(lines, k)
      {
        if lines[k].valid {
          count := count + 1;
        }
      }
    }

    method FlushLines()
      modifies this
      ensures lines == Flush(old(lines))
    {
      for k := 0 to LINES
        invariant forall j :: 0 <= j < k ==> lines[j] == old(lines)[j].(valid := false)
        invariant forall j :: k <= j < LINES ==> lines[j] == old(lines)[j]
      {
        lines := lines[k := lines[k].(valid := false)];
      }
    }
  }
}

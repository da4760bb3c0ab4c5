/** The point of the DMA controller: a transfer that completes has copied its source to its
destination, under any interleaving with other channels, pauses, resumes and register traffic. */
module DmaCopy {
  import opened Prelude
  import opened CyclicScan
  import opened Words
  import opened DmaState
  import opened DmaInvariants
  import opened DmaConservation
  import opened DmaRuns

  type Memory = map<nat, Byte>

  function Moved(ch: Channel): int {
    ch.size - ch.remaining
  }

  /** Both addresses increment and neither region runs past the end of the address space. */
  ghost predicate Incrementing(ch: Channel) {
    && ch.config % 4 == 0 && ch.config / 4 % 4 == 0
    && ch.src < WORD_RANGE && ch.src + ch.size <= WORD_RANGE
    && ch.dst < WORD_RANGE && ch.dst + ch.size <= WORD_RANGE
  }

  ghost predicate Apart(ch: Channel) {
    ch.src + ch.size <= ch.dst || ch.dst + ch.size <= ch.src
  }

  /** Copying upwards never overwrites a source byte before reading it. */
  ghost predicate NotAhead(ch: Channel) {
    ch.dst <= ch.src || ch.src + ch.size <= ch.dst
  }

  /** A transfer whose regions overlap is not repeated. */
  ghost predicate OverlapOnce(ch: Channel) {
    Apart(ch) || !ch.ctrl.circular
  }

  /** The byte at `x` is the byte that stood at the corresponding source address. */
  ghost predicate Holds(mem: Memory, m0: Memory, x: int, src: int, dst: int) {
    x in mem && src + (x - dst) in m0 && mem[x] == m0[src + (x - dst)]
  }

  /** The first `n` bytes of the destination are in place. */
  ghost predicate Placed(mem: Memory, m0: Memory, src: int, dst: int, n: int) {
    forall x :: dst <= x < dst + n ==> Holds(mem, m0, x, src, dst)
  }

  ghost predicate Kept(mem: Memory, m0: Memory, x: int) {
    x in m0 ==> x in mem && mem[x] == m0[x]
  }

  ghost predicate Intact(mem: Memory, m0: Memory, lo: int, hi: int) {
    forall x :: lo <= x < hi ==> Kept(mem, m0, x)
  }

  /** The current addresses have advanced by the bytes moved (and may have wrapped to zero after
      the last one). */
  ghost predicate InStep(ch: Channel) {
    Incrementing(ch) && 0 <= Moved(ch) <= ch.size && ch.currSrc == U32(ch.src + Moved(ch)) &&
      ch.currDst == U32(ch.dst + Moved(ch))
  }

  lemma NextAddresses(ch: Channel)
    requires InStep(ch) && Moved(ch) < ch.size
    ensures ch.currSrc == ch.src + Moved(ch) && ch.currDst == ch.dst + Moved(ch)
  {}

  /** The byte at `x` of a destination that starts inside the source: the first `dst - src` source
      bytes over and over. */
  ghost predicate Repeats(mem: Memory, m0: Memory, x: int, src: int, dst: int)
    requires src < dst
  {
    var from := src + Fold(x - dst, dst - src);
    x in mem && from in m0 && mem[x] == m0[from]
  }

  /** An offset within the repeated part. */
  function Fold(k: int, gap: int): int
    requires 0 < gap
  {
    k % gap
  }

  lemma FoldSmall(k: nat, gap: nat)
    requires k < gap
    ensures Fold(k, gap) == k
  {
    SmallMod(k, gap);
  }

  lemma FoldPeriod(k: nat, gap: nat)
    requires 0 < gap <= k
    ensures Fold(k, gap) == Fold(k - gap, gap)
  {
    ModPeriod(k - gap, gap);
  }

  /** Copying upwards into one's own source: the bytes before the destination stay, and the first
      `n` bytes of the destination tile them. */
  ghost predicate Tiled(mem: Memory, m0: Memory, src: int, dst: int, n: int) {
    src < dst && Intact(mem, m0, src, dst) && forall x :: dst <= x < dst + n ==> Repeats(mem, m0, x, src, dst)
  }

  /** The destination is a whole number of beats away from the source. */
  ghost predicate GapOk(ch: Channel) {
    (ch.dst - ch.src) % WidthOf(ch) == 0
  }

  /** How far channel `ch` has got against the memory `m0` it started from: what has moved is in
      place, what has not is still in the source, unless the destination lies ahead inside the
      source. */
  ghost predicate Copied(ch: Channel, mem: Memory, m0: Memory) {
    && InStep(ch) && mem.Keys == m0.Keys
    && (NotAhead(ch) ==>
         && Placed(mem, m0, ch.src, ch.dst, Moved(ch))
         && Intact(mem, m0, ch.src + Moved(ch), ch.src + ch.size))
    && (Apart(ch) ==> Intact(mem, m0, ch.src, ch.src + ch.size))
    && (!NotAhead(ch) && GapOk(ch) ==> Tiled(mem, m0, ch.src, ch.dst, Moved(ch)))
  }

  /** The destination holds what the source held at the start: for every address `x` of it,
      `mem[x] == m0[src + (x - dst)]`. */
  ghost predicate Delivered(ch: Channel, mem: Memory, m0: Memory) {
    Placed(mem, m0, ch.src, ch.dst, ch.size)
  }

  lemma FirstByteIsCopied(ch: Channel, mem: Memory)
    requires AtFirstByte(ch) && Incrementing(ch)
    ensures Copied(ch, mem, mem)
  {}

  lemma MovedChannelAdvances(ch: Channel)
    requires WellFormedChannel(ch) && Sound(ch) && Active(ch) && InStep(ch)
    ensures var r := MovedChannel(ch);
      && r.src == ch.src && r.dst == ch.dst && r.size == ch.size && r.config == ch.config && r.ctrl == ch.ctrl
      && InStep(r) && Moved(r) == Moved(ch) + WidthOf(ch) && WidthOf(r) == WidthOf(ch)
  {
    hide U32, MovedChannel, Sound;
    SoundSize(ch);
    NextAddresses(ch);
    MovedChannelFacts(ch);
    StepsUp(ch);
  }

  lemma StepsUp(ch: Channel)
    requires WellFormedChannelRange(ch) && ch.config % 4 == 0 && ch.config / 4 % 4 == 0
    ensures var r := MovedChannel(ch);
      r.currSrc == U32(ch.currSrc + WidthOf(ch)) && r.currDst == U32(ch.currDst + WidthOf(ch))
  {
    hide U32;
  }

  /** Copying the next `w` bytes puts them in place. */
  lemma CopyPlaces(mem: Memory, m0: Memory, src: nat, dst: nat, size: nat, n: nat, w: nat)
    requires n + w <= size && mem.Keys == m0.Keys
    requires Placed(mem, m0, src, dst, n) && Intact(mem, m0, src + n, src + size)
    requires Decodes(mem, src + n, w) && Decodes(mem, dst + n, w)
    ensures Placed(CopyBytes(mem, src + n, dst + n, w), m0, src, dst, n + w)
  {
    hide CopyBytes, Decodes, Intact, Placed, Holds;
    var mem' := CopyBytes(mem, src + n, dst + n, w);
    forall x: int | dst <= x < dst + (n + w)
      ensures Holds(mem', m0, x, src, dst)
    {
      CopyPlacesOne(mem, m0, src, dst, size, n, w, x);
    }
    PlacedFrom(mem', m0, src, dst, n + w);
  }

  lemma PlacedFrom(mem: Memory, m0: Memory, src: int, dst: int, n: int)
    requires forall x :: dst <= x < dst + n ==> Holds(mem, m0, x, src, dst)
    ensures Placed(mem, m0, src, dst, n)
  {}

  lemma CopyPlacesOne(mem: Memory, m0: Memory, src: nat, dst: nat, size: nat, n: nat, w: nat, x: int)
    requires n + w <= size && mem.Keys == m0.Keys
    requires Placed(mem, m0, src, dst, n) && Intact(mem, m0, src + n, src + size)
    requires Decodes(mem, src + n, w) && Decodes(mem, dst + n, w)
    requires dst <= x < dst + (n + w)
    ensures Holds(CopyBytes(mem, src + n, dst + n, w), m0, x, src, dst)
  {
    hide CopyBytes;
    if x < dst + n {
      assert Holds(mem, m0, x, src, dst);
      assert x in mem;
    } else {
      var y := src + (x - dst);
      assert Kept(mem, m0, y);
      assert y in mem && y in mem.Keys;
      assert x in mem;
      assert src + n + (x - (dst + n)) == y;
    }
  }

  /** It spoils nothing outside the bytes it writes. */
  lemma CopyKeeps(mem: Memory, m0: Memory, from: nat, to: nat, w: nat, lo: int, hi: int)
    requires Decodes(mem, from, w) && Intact(mem, m0, lo, hi) && (hi <= to || to + w <= lo)
    ensures Intact(CopyBytes(mem, from, to, w), m0, lo, hi)
  {
    var mem' := CopyBytes(mem, from, to, w);
    forall x | lo <= x < hi
      ensures Kept(mem', m0, x)
    {
      assert Kept(mem, m0, x);
      assert x in mem ==> x in mem.Keys;
    }
  }

  lemma IntactTail(mem: Memory, m0: Memory, lo: int, mid: int, hi: int)
    requires lo <= mid && Intact(mem, m0, lo, hi)
    ensures Intact(mem, m0, mid, hi)
  {
    hide Kept;
  }

  /** One beat of an overlapping copy. */
  lemma CopyTiles(mem: Memory, m0: Memory, src: nat, dst: nat, n: nat, w: nat)
    requires w in {1, 2, 4} && (dst - src) % w == 0 && mem.Keys == m0.Keys
    requires Tiled(mem, m0, src, dst, n)
    requires Decodes(mem, src + n, w) && Decodes(mem, dst + n, w)
    ensures Tiled(CopyBytes(mem, src + n, dst + n, w), m0, src, dst, n + w)
  {
    hide CopyBytes, Decodes, Repeats;
    assert src < dst;
    GapHoldsABeat(dst - src, w);
    CopyKeeps(mem, m0, src + n, dst + n, w, src, dst);
    var mem' := CopyBytes(mem, src + n, dst + n, w);
    forall x: int | dst <= x < dst + (n + w)
      ensures Repeats(mem', m0, x, src, dst)
    {
      var j := x - dst;
      RepeatedIsThere(mem, m0, src, dst, n, j);
      BeatByte(mem, src, dst, n, w, j);
      CopyTilesOne(mem, mem', m0, src, dst, n, j);
    }
  }

  lemma KeepsByte(mem: Memory, from: nat, to: nat, w: nat, x: int)
    requires Decodes(mem, from, w) && x in mem && !(to <= x < to + w)
    ensures x in CopyBytes(mem, from, to, w) && CopyBytes(mem, from, to, w)[x] == mem[x]
  {
    assert x in mem.Keys;
  }

  lemma CopiesByte(mem: Memory, from: nat, to: nat, w: nat, j: nat)
    requires Decodes(mem, from, w) && Decodes(mem, to, w) && j < w
    ensures from + j in mem && to + j in CopyBytes(mem, from, to, w)
    ensures CopyBytes(mem, from, to, w)[to + j] == mem[from + j]
  {
    assert to + j in mem && to + j in mem.Keys;
    assert from + (to + j - to) == from + j;
  }

  /** Byte `j` of the destination, before and after the beat. */
  lemma CopyTilesOne(mem: Memory, mem': Memory, m0: Memory, src: nat, dst: nat, n: nat, j: nat)
    requires mem.Keys == m0.Keys && Tiled(mem, m0, src, dst, n) && j < dst - src + n && dst + j in mem'
    requires j < n && dst + j in mem ==> mem'[dst + j] == mem[dst + j]
    requires j >= n ==> src + j in mem && mem'[dst + j] == mem[src + j]
    ensures Repeats(mem', m0, dst + j, src, dst)
  {
    if j < n {
      assert Repeats(mem, m0, dst + j, src, dst);
    } else {
      hide Tiled, Fold, Repeats;
      FoldedByte(mem, m0, src, dst, n, j);
      IsRepeated(mem', m0, src, dst, j);
    }
  }

  lemma BeatByte(mem: Memory, src: nat, dst: nat, n: nat, w: nat, j: nat)
    requires Decodes(mem, src + n, w) && Decodes(mem, dst + n, w) && j < n + w && (j < n ==> dst + j in mem)
    ensures var mem' := CopyBytes(mem, src + n, dst + n, w);
      && dst + j in mem'
      && (j < n ==> mem'[dst + j] == mem[dst + j])
      && (j >= n ==> src + j in mem && mem'[dst + j] == mem[src + j])
  {
    hide CopyBytes;
    if j < n {
      KeepsByte(mem, src + n, dst + n, w, dst + j);
    } else {
      CopiesByte(mem, src + n, dst + n, w, j - n);
      assert dst + n + (j - n) == dst + j && src + n + (j - n) == src + j;
    }
  }

  lemma RepeatedIsThere(mem: Memory, m0: Memory, src: nat, dst: nat, n: nat, j: nat)
    requires Tiled(mem, m0, src, dst, n)
    ensures j < n ==> dst + j in mem
  {
    assert j < n ==> Repeats(mem, m0, dst + j, src, dst);
  }

  lemma IsRepeated(mem: Memory, m0: Memory, src: nat, dst: nat, j: nat)
    requires src < dst && dst + j in mem && src + Fold(j, dst - src) in m0
    requires mem[dst + j] == m0[src + Fold(j, dst - src)]
    ensures Repeats(mem, m0, dst + j, src, dst)
  {
    assert dst + j - dst == j;
  }

  /** The next byte to copy already holds what belongs at its destination. */
  lemma FoldedByte(mem: Memory, m0: Memory, src: nat, dst: nat, n: nat, j: nat)
    requires mem.Keys == m0.Keys && Tiled(mem, m0, src, dst, n) && src + j in mem
    requires j < dst - src + n
    ensures var from := src + Fold(j, dst - src); from in m0 && mem[src + j] == m0[from]
  {
    hide Fold;
    var gap := dst - src;
    assert src + j in mem.Keys;
    if j < gap {
      FoldSmall(j, gap);
      assert Kept(mem, m0, src + j);
    } else {
      FoldPeriod(j, gap);
      assert Repeats(mem, m0, src + j, src, dst);
      assert src + j - dst == j - gap;
    }
  }

  lemma GapHoldsABeat(gap: nat, w: nat)
    requires w in {1, 2, 4} && gap % w == 0 && gap > 0
    ensures gap >= w
  {
    match w
    case 1 =>
    case 2 => assert gap >= 2;
    case 4 => assert gap >= 4;
  }

  lemma DifferenceDivides(a: nat, b: nat, w: nat)
    requires w in {1, 2, 4} && a % w == 0 && b % w == 0
    ensures (a - b) % w == 0
  {
    match w
    case 1 =>
    case 2 => assert (a - b) % 2 == 0;
    case 4 => assert (a - b) % 4 == 0;
  }

  lemma PlainBeat(ch: Channel, mem: Memory, m0: Memory)
    requires InStep(ch) && NotAhead(ch) && mem.Keys == m0.Keys && Moved(ch) + WidthOf(ch) <= ch.size
    requires Placed(mem, m0, ch.src, ch.dst, Moved(ch)) && Intact(mem, m0, ch.src + Moved(ch), ch.src + ch.size)
    requires Decodes(mem, ch.currSrc, WidthOf(ch)) && Decodes(mem, ch.currDst, WidthOf(ch))
    ensures var mem', n := CopyBytes(mem, ch.currSrc, ch.currDst, WidthOf(ch)), Moved(ch) + WidthOf(ch);
      Placed(mem', m0, ch.src, ch.dst, n) && Intact(mem', m0, ch.src + n, ch.src + ch.size)
  {
    hide CopyBytes, Placed, Intact, Decodes, Incrementing, U32;
    NextAddresses(ch);
    var w := WidthOf(ch);
    CopyPlaces(mem, m0, ch.src, ch.dst, ch.size, Moved(ch), w);
    IntactTail(mem, m0, ch.src + Moved(ch), ch.src + Moved(ch) + w, ch.src + ch.size);
    CopyKeeps(mem, m0, ch.currSrc, ch.currDst, w, ch.src + Moved(ch) + w, ch.src + ch.size);
  }

  /** `Copied` depends on the programmed registers and the bytes moved only. */
  lemma CopiedSoFar(ch: Channel, r: Channel, mem: Memory, m0: Memory)
    requires r.src == ch.src && r.dst == ch.dst && r.size == ch.size && r.ctrl == ch.ctrl
    requires InStep(r) && mem.Keys == m0.Keys
    requires NotAhead(ch) ==>
      Placed(mem, m0, ch.src, ch.dst, Moved(r)) && Intact(mem, m0, ch.src + Moved(r), ch.src + ch.size)
    requires Apart(ch) ==> Intact(mem, m0, ch.src, ch.src + ch.size)
    requires !NotAhead(ch) && GapOk(ch) ==> Tiled(mem, m0, ch.src, ch.dst, Moved(r))
    ensures Copied(r, mem, m0)
  {
    hide Placed, Intact, Tiled, InStep;
  }

  lemma OverlapBeat(ch: Channel, mem: Memory, m0: Memory)
    requires InStep(ch) && Sound(ch) && Active(ch) && GapOk(ch) && Moved(ch) < ch.size && mem.Keys == m0.Keys
    requires Tiled(mem, m0, ch.src, ch.dst, Moved(ch))
    requires Decodes(mem, ch.currSrc, WidthOf(ch)) && Decodes(mem, ch.currDst, WidthOf(ch))
    ensures Tiled(CopyBytes(mem, ch.currSrc, ch.currDst, WidthOf(ch)), m0, ch.src, ch.dst, Moved(ch) + WidthOf(ch))
  {
    hide Sound, CopyBytes, Decodes, Tiled, U32, WidthOf;
    NextAddresses(ch);
    CopyTiles(mem, m0, ch.src, ch.dst, Moved(ch), WidthOf(ch));
  }

  lemma ApartBeat(ch: Channel, mem: Memory, m0: Memory)
    requires InStep(ch) && Apart(ch) && Moved(ch) + WidthOf(ch) <= ch.size
    requires Intact(mem, m0, ch.src, ch.src + ch.size)
    requires Decodes(mem, ch.currSrc, WidthOf(ch))
    ensures Intact(CopyBytes(mem, ch.currSrc, ch.currDst, WidthOf(ch)), m0, ch.src, ch.src + ch.size)
  {
    hide CopyBytes, Decodes, Intact, U32;
    NextAddresses(ch);
    CopyKeeps(mem, m0, ch.currSrc, ch.currDst, WidthOf(ch), ch.src, ch.src + ch.size);
  }

  /** One beat of a copy in progress. */
  lemma BeatCopies(ch: Channel, mem: Memory, m0: Memory)
    requires WellFormedChannel(ch) && Sound(ch) && Active(ch)
    requires Copied(ch, mem, m0)
    requires Decodes(mem, ch.currSrc, WidthOf(ch)) && Decodes(mem, ch.currDst, WidthOf(ch))
    ensures Copied(MovedChannel(ch), CopyBytes(mem, ch.currSrc, ch.currDst, WidthOf(ch)), m0)
  {
    hide MovedChannel, Sound, CopyBytes, Placed, Intact, Decodes, Incrementing, Tiled, U32, GapOk, WidthOf;
    SoundSize(ch);
    MovedChannelAdvances(ch);
    if NotAhead(ch) {
      PlainBeat(ch, mem, m0);
    } else if GapOk(ch) {
      OverlapBeat(ch, mem, m0);
    }
    if Apart(ch) {
      ApartBeat(ch, mem, m0);
    }
    CopiedSoFar(ch, MovedChannel(ch), CopyBytes(mem, ch.currSrc, ch.currDst, WidthOf(ch)), m0);
  }

  lemma WrapCopies(ch: Channel, mem: Memory, m0: Memory)
    requires Copied(ch, mem, m0) && OverlapOnce(ch) && ch.ctrl.circular
    ensures Copied(Wrapped(ch), mem, m0)
  {
    hide Holds, Kept;
  }

  /** What a completed transfer leaves: a copy, unless the destination started inside the source;
      then the source bytes before the destination, over and over. */
  ghost predicate Outcome(ch: Channel, mem: Memory, m0: Memory) {
    && (NotAhead(ch) ==> Delivered(ch, mem, m0))
    && (!NotAhead(ch) && GapOk(ch) ==> Tiled(mem, m0, ch.src, ch.dst, ch.size))
  }

  lemma CompleteDelivers(ch: Channel, mem: Memory, m0: Memory)
    requires Copied(ch, mem, m0) && ch.remaining == 0
    ensures Outcome(ch, mem, m0)
  {
    hide Holds, Intact, Tiled;
  }

  ghost predicate SameShape(a: Channel, b: Channel) {
    a.src == b.src && a.dst == b.dst && a.size == b.size && a.ctrl.width == b.ctrl.width
  }

  /** The channel is not linked to itself. */
  ghost predicate NoSelfLink(d: Dma, c: nat)
    requires c < |d.chs|
  {
    d.chs[c].link.on ==> d.chs[c].link.target != c
  }

  /** Its own burst brings a channel further, or delivers, or stops it. */
  lemma {:induction false} OwnBeatsCopy(d: Dma, c: nat, k: nat, m0: Memory)
    requires WellFormed(d) && c < |d.chs| && Sound(d.chs[c]) && d.chs[c].state == Running
    requires Copied(d.chs[c], d.mem, m0) && OverlapOnce(d.chs[c]) && NoSelfLink(d, c)
    ensures var d' := Beats(d, c, k); var r := d'.chs[c];
      && (Active(r) ==> Copied(r, d'.mem, m0))
      && (r.state == Complete || Finishes(d, c, k) ==> Outcome(r, d'.mem, m0))
      && SameShape(r, d.chs[c])
    decreases k
  {
    hide Copied, CopyBytes, MovedChannel, HalfFires, StartChannel, Sound, Incrementing, Outcome;
    if k > 0 && !d.chs[c].abortPending && BusOk(d, d.chs[c]) {
      var ch := d.chs[c];
      MoveKeepsRange(d, c);
      MovedChannelFacts(ch);
      BeatCopies(ch, d.mem, m0);
      var d1 := Move(d, c);
      OverlapStays(ch, d1.chs[c]);
      if d1.chs[c].remaining != 0 {
        MovedIsSound(ch);
        OwnBeatsCopy(d1, c, k - 1, m0);
      } else {
        FinishDelivers(d1, c, m0);
      }
    }
  }

  lemma OverlapStays(ch: Channel, r: Channel)
    requires SameJob(ch, r) && OverlapOnce(ch)
    ensures OverlapOnce(r)
  {}

  lemma MovedIsSound(ch: Channel)
    requires WellFormedChannel(ch) && Sound(ch) && Active(ch) && MovedChannel(ch).remaining != 0
    ensures Sound(MovedChannel(ch))
  {
    MovedChannelFacts(ch);
  }

  lemma FinishDelivers(d: Dma, c: nat, m0: Memory)
    requires c < |d.chs| && Copied(d.chs[c], d.mem, m0) && d.chs[c].remaining == 0 && OverlapOnce(d.chs[c]) &&
      NoSelfLink(d, c)
    ensures var d' := Finish(d, c); var r := d'.chs[c];
      && (Active(r) ==> Copied(r, d'.mem, m0))
      && Outcome(r, d'.mem, m0)
      && SameShape(r, d.chs[c])
  {
    hide Copied, Placed, StartChannel, OverlapOnce, Tiled;
    var ch := d.chs[c];
    CompleteDelivers(ch, d.mem, m0);
    if ch.ctrl.circular {
      WrapCopies(ch, d.mem, m0);
    }
  }

  // ---------- Other channels ----------

  /** The addresses the next `k` beats of a channel may write, `lo <= x < hi`. */
  function WindowLo(ch: Channel, k: nat): int {
    if ch.config / 4 % 4 == 1 then ch.currDst - (k - 1) * WidthOf(ch) else ch.currDst
  }

  function WindowHi(ch: Channel, k: nat): int {
    if ch.config / 4 % 4 == 0 then ch.currDst + k * WidthOf(ch) else ch.currDst + WidthOf(ch)
  }

  /** The window of the next burst does not run over either end of the address space. */
  ghost predicate WindowOk(ch: Channel, k: nat) {
    0 <= WindowLo(ch, k) && WindowHi(ch, k) <= WORD_RANGE
  }

  lemma WindowShrinks(ch: Channel, k: nat)
    requires WellFormedChannelRange(ch) && k > 1 && WindowOk(ch, k)
    ensures var r := MovedChannel(ch);
      WindowOk(r, k - 1) && WindowLo(ch, k) <= WindowLo(r, k - 1) && WindowHi(r, k - 1) <= WindowHi(ch, k)
    ensures WindowLo(ch, k) <= ch.currDst && ch.currDst + WidthOf(ch) <= WindowHi(ch, k)
  {
    var w := WidthOf(ch);
    var a, b := (k - 1) * w, (k - 2) * w;
    assert k * w == a + w && a == b + w && b >= 0;
    MovedDestination(ch);
  }

  /** Where the destination pointer goes when it does not wrap. */
  lemma MovedDestination(ch: Channel)
    requires WellFormedChannelRange(ch)
    ensures var r, m, w := MovedChannel(ch), ch.config / 4 % 4, WidthOf(ch);
      && r.config == ch.config && WidthOf(r) == w
      && (m == 0 && ch.currDst + w < WORD_RANGE ==> r.currDst == ch.currDst + w)
      && (m == 1 && ch.currDst >= w ==> r.currDst == ch.currDst - w)
      && (m > 1 ==> r.currDst == ch.currDst)
  {}

  /** A burst writes nothing outside its window. */
  lemma {:induction false} BeatsStayInWindow(d: Dma, o: nat, k: nat, x: nat)
    requires WellFormed(d) && o < |d.chs| && k > 0 && WindowOk(d.chs[o], k)
    requires !(WindowLo(d.chs[o], k) <= x < WindowHi(d.chs[o], k)) && x in d.mem
    ensures Beats(d, o, k).mem[x] == d.mem[x]
    decreases k
  {
    hide MovedChannel, HalfFires, Finish, WindowLo, WindowHi;
    if !d.chs[o].abortPending && BusOk(d, d.chs[o]) {
      MoveKeepsRange(d, o);
      var d1 := Move(d, o);
      if k > 1 {
        WindowShrinks(d.chs[o], k);
      } else {
        WindowOfOne(d.chs[o]);
      }
      if d1.chs[o].remaining != 0 && k > 1 {
        BeatsStayInWindow(d1, o, k - 1, x);
      }
    }
  }

  lemma WindowOfOne(ch: Channel)
    ensures WindowLo(ch, 1) == ch.currDst && WindowHi(ch, 1) == ch.currDst + WidthOf(ch)
  {}

  ghost predicate Disjoint(lo: int, hi: int, lo': int, hi': int) {
    hi <= lo' || hi' <= lo
  }

  /** Nobody else is about to write into channel `c`'s source or destination: a condition on the
      registers as they stand. */
  ghost predicate Undisturbed(d: Dma, c: nat)
    requires c < |d.chs|
  {
    forall o :: 0 <= o < |d.chs| && o != c && d.chs[o].state == Running ==>
      var ch, k := d.chs[o], BeatCount(d.chs[o]);
      && WindowOk(ch, k)
      && Disjoint(WindowLo(ch, k), WindowHi(ch, k), d.chs[c].src, d.chs[c].src + d.chs[c].size)
      && Disjoint(WindowLo(ch, k), WindowHi(ch, k), d.chs[c].dst, d.chs[c].dst + d.chs[c].size)
  }

  lemma WindowWithinDestination(ch: Channel)
    requires WellFormedChannel(ch) && Sound(ch) && ch.state == Running && InStep(ch)
    ensures WindowOk(ch, BeatCount(ch))
    ensures ch.dst <= WindowLo(ch, BeatCount(ch)) && WindowHi(ch, BeatCount(ch)) <= ch.dst + ch.size
  {
    BeatsFit(ch.remaining, BurstOf(ch), WidthOf(ch));
  }

  lemma BeatsFit(remaining: nat, burst: nat, w: nat)
    requires w in {1, 2, 4} && remaining % w == 0 && 0 < remaining
    ensures remaining / w > 0 && Min(burst, remaining / w) * w <= remaining
  {
    if w == 1 {
    } else if w == 2 {
    } else {
    }
  }

  /** The usual way to leave a channel undisturbed: every other running channel copies in step
      into a destination that is disjoint from this channel's regions. */
  lemma DisjointDestinationsDoNotDisturb(d: Dma, c: nat)
    requires Conserved(d) && c < |d.chs|
    requires forall o :: 0 <= o < |d.chs| && o != c && d.chs[o].state == Running ==>
      var ch := d.chs[o];
      && InStep(ch)
      && Disjoint(ch.dst, ch.dst + ch.size, d.chs[c].src, d.chs[c].src + d.chs[c].size)
      && Disjoint(ch.dst, ch.dst + ch.size, d.chs[c].dst, d.chs[c].dst + d.chs[c].size)
    ensures Undisturbed(d, c)
  {
    hide WindowLo, WindowHi, WindowOk, InStep;
    forall o: nat | o < |d.chs| && o != c && d.chs[o].state == Running
      ensures WindowOk(d.chs[o], BeatCount(d.chs[o]))
      ensures d.chs[o].dst <= WindowLo(d.chs[o], BeatCount(d.chs[o])) &&
        WindowHi(d.chs[o], BeatCount(d.chs[o])) <= d.chs[o].dst + d.chs[o].size
    {
      WindowWithinDestination(d.chs[o]);
    }
  }

  /** The memory regions of a channel are the same in two memories. */
  ghost predicate SameRegions(ch: Channel, mem: Memory, mem': Memory) {
    && mem'.Keys == mem.Keys
    && (forall x :: ch.src <= x < ch.src + ch.size && x in mem ==> mem'[x] == mem[x])
    && (forall x :: ch.dst <= x < ch.dst + ch.size && x in mem ==> mem'[x] == mem[x])
  }

  lemma SameRegionsCopied(ch: Channel, mem: Memory, mem': Memory, m0: Memory)
    requires Copied(ch, mem, m0) && SameRegions(ch, mem, mem') && Sound(ch) && Active(ch)
    ensures Copied(ch, mem', m0)
  {
    hide Incrementing, Sound, SameRegions;
    SoundSize(ch);
    SameKeys(ch, mem, mem');
    if NotAhead(ch) {
      SamePlaced(mem, mem', m0, ch.src, ch.dst, Moved(ch), ch);
      SameIntact(mem, mem', m0, ch.src + Moved(ch), ch.src + ch.size, ch);
    } else if GapOk(ch) {
      SameTiles(mem, mem', m0, ch);
    }
    if Apart(ch) {
      SameIntact(mem, mem', m0, ch.src, ch.src + ch.size, ch);
    }
  }

  lemma SoundSize(ch: Channel)
    requires Sound(ch) && Active(ch)
    ensures 0 < ch.size && Moved(ch) < ch.size
  {}

  lemma SameKeys(ch: Channel, mem: Memory, mem': Memory)
    requires SameRegions(ch, mem, mem')
    ensures mem'.Keys == mem.Keys
  {}

  lemma SameTiles(mem: Memory, mem': Memory, m0: Memory, ch: Channel)
    requires SameRegions(ch, mem, mem') && !NotAhead(ch) && 0 <= Moved(ch) < ch.size && mem.Keys == m0.Keys
    requires Tiled(mem, m0, ch.src, ch.dst, Moved(ch))
    ensures Tiled(mem', m0, ch.src, ch.dst, Moved(ch))
  {
    SameIntact(mem, mem', m0, ch.src, ch.dst, ch);
    forall x: int | ch.dst <= x < ch.dst + Moved(ch)
      ensures Repeats(mem', m0, x, ch.src, ch.dst)
    {
      assert Repeats(mem, m0, x, ch.src, ch.dst);
      assert x in mem.Keys;
    }
  }

  lemma SamePlaced(mem: Memory, mem': Memory, m0: Memory, src: int, dst: int, n: int, ch: Channel)
    requires SameRegions(ch, mem, mem') && dst == ch.dst && n <= ch.size && Placed(mem, m0, src, dst, n)
    ensures Placed(mem', m0, src, dst, n)
  {
    forall x | dst <= x < dst + n
      ensures Holds(mem', m0, x, src, dst)
    {
      assert Holds(mem, m0, x, src, dst);
      assert x in mem.Keys;
    }
  }

  lemma SameIntact(mem: Memory, mem': Memory, m0: Memory, lo: int, hi: int, ch: Channel)
    requires SameRegions(ch, mem, mem') && ch.src <= lo && hi <= ch.src + ch.size && mem.Keys == m0.Keys
    requires Intact(mem, m0, lo, hi)
    ensures Intact(mem', m0, lo, hi)
  {
    forall x | lo <= x < hi
      ensures Kept(mem', m0, x)
    {
      assert Kept(mem, m0, x);
      assert x in m0 ==> x in m0.Keys;
    }
  }

  lemma OtherBurstKeepsRegions(d: Dma, c: nat, o: nat)
    requires Conserved(d) && c < |d.chs| && o < |d.chs| && o != c && o == Selected(d)
    requires Active(d.chs[c]) && Undisturbed(d, c)
    ensures SameRegions(d.chs[c], d.mem, EngineStep(d).mem)
    ensures EngineStep(d).chs[c] == d.chs[c]
  {
    hide Beats, Choose, WindowLo, WindowHi, StartChannel, Selected;
    EngineIsBurst(d);
    SelectedRuns(d);
    EngineOnOther(d, c);
    var d1, k := Arbitrated(d), BeatCount(d.chs[o]);
    forall x: nat | x in d.mem && !(WindowLo(d.chs[o], k) <= x < WindowHi(d.chs[o], k))
      ensures Beats(d1, o, k).mem[x] == d.mem[x]
    {
      BeatsStayInWindow(d1, o, k, x);
    }
  }

  // ---------- One event ----------

  /** What a caller has to respect while channel `c` copies: its regions are usable and stay
      undisturbed, it is not linked to itself, and it is not reprogrammed while suspended. */
  ghost predicate Respected(d: Dma, e: Event, c: nat)
    requires c < |d.chs|
  {
    && OverlapOnce(d.chs[c]) && NoSelfLink(d, c) && Undisturbed(d, c)
    && !(exists off :: WritesAt(d, e, c, off) && Reprograms(d.chs[c], off))
  }

  lemma StepCopies(d: Dma, e: Event, c: nat, m0: Memory)
    requires Conserved(d) && c < |d.chs| && LegalEvent(e) && Respected(d, e, c)
    requires Active(d.chs[c]) && Copied(d.chs[c], d.mem, m0)
    ensures var d' := Step(d, e); var r := d'.chs[c];
      && (Active(r) ==> Copied(r, d'.mem, m0) && SameShape(r, d.chs[c]))
      && (r.state == Complete ==> Outcome(r, d'.mem, m0) && SameShape(r, d.chs[c]))
  {
    hide Copied, Outcome, Selected, EngineStep, Beats, Written, OverlapOnce, Undisturbed, Sound, WellFormedChannel;
    if e.Engine? {
      EngineIsStep(d);
      EngineCopies(d, c, m0);
    } else {
      RegisterCopies(d, e, c, m0);
    }
  }

  lemma EngineCopies(d: Dma, c: nat, m0: Memory)
    requires Conserved(d) && c < |d.chs|
    requires OverlapOnce(d.chs[c]) && NoSelfLink(d, c) && Undisturbed(d, c)
    requires Active(d.chs[c]) && Copied(d.chs[c], d.mem, m0)
    ensures var d' := EngineStep(d); var r := d'.chs[c];
      && (Active(r) ==> Copied(r, d'.mem, m0))
      && (r.state == Complete ==> Outcome(r, d'.mem, m0))
      && SameShape(r, d.chs[c])
  {
    hide Copied, Outcome, Selected, Arbitrated, Beats, Undisturbed, OverlapOnce;
    EngineIsBurst(d);
    SelectedRuns(d);
    var sel := Selected(d);
    if sel == c {
      var d1, k := Arbitrated(d), BeatCount(d.chs[c]);
      OwnBeatsCopy(d1, c, k, m0);
      var d2 := Beats(d1, c, k);
      CopiedWhateverState(d2.chs[c], PauseCheck(d2, c).chs[c], d2.mem, m0);
    } else if sel < |d.chs| {
      hide EngineStep;
      OtherBurstKeepsRegions(d, c, sel);
      SameRegionsCopied(d.chs[c], d.mem, EngineStep(d).mem, m0);
    }
  }

  lemma CopiedWhateverState(ch: Channel, r: Channel, mem: Memory, m0: Memory)
    requires r == ch || r == ch.(state := Suspended, pausePending := false)
    ensures Copied(ch, mem, m0) ==> Copied(r, mem, m0)
    ensures Outcome(ch, mem, m0) ==> Outcome(r, mem, m0)
  {
    hide Placed, Intact, Tiled, GapOk, NotAhead, Apart;
    SameGap(ch, r);
  }

  lemma SameGap(ch: Channel, r: Channel)
    requires SameShape(r, ch)
    ensures GapOk(r) == GapOk(ch) && NotAhead(r) == NotAhead(ch) && Apart(r) == Apart(ch)
  {}

  lemma RegisterCopies(d: Dma, e: Event, c: nat, m0: Memory)
    requires WellFormed(d) && c < |d.chs| && LegalEvent(e) && e.Register?
    requires !(exists off :: WritesAt(d, e, c, off) && Reprograms(d.chs[c], off))
    requires Active(d.chs[c]) && Copied(d.chs[c], d.mem, m0)
    ensures var d' := Step(d, e); var r := d'.chs[c];
      && r.state != Complete
      && (Active(r) ==> Copied(r, d'.mem, m0) && SameShape(r, d.chs[c]))
  {
    hide Written, Copied, Step;
    RegisterStep(d, e, c);
    RegisterLeavesMemory(d, e);
    if off: nat :| WritesAt(d, e, c, off) {
      RegisterEffect(d.chs[c], off, e.data, d.enable);
      NeverCompletes(d.chs[c], off, e.data, d.enable);
      CopiedSameTransfer(d.chs[c], Written(d.chs[c], off, e.data, d.enable).ch, d.mem, m0);
    }
  }

  lemma RegisterLeavesMemory(d: Dma, e: Event)
    requires WellFormed(d) && e.Register?
    ensures Step(d, e).mem == d.mem
  {}

  lemma NeverCompletes(ch: Channel, off: nat, w: nat, enable: bool)
    requires Active(ch)
    ensures Written(ch, off, w, enable).ch.state != Complete
  {
    hide Flag;
  }

  lemma CopiedSameTransfer(ch: Channel, r: Channel, mem: Memory, m0: Memory)
    requires SameTransfer(ch, r)
    ensures Copied(ch, mem, m0) ==> Copied(r, mem, m0)
  {
    hide Placed, Intact, Tiled;
  }

  // ---------- The theorem ----------

  /** The run keeps channel `c` active up to its last event, and every event respects it. */
  ghost predicate Transfers(d: Dma, es: seq<Event>, c: nat)
    requires Conserved(d) && c < |d.chs| && forall k :: 0 <= k < |es| ==> LegalEvent(es[k])
    decreases |es|
  {
    es == [] || (
      Active(d.chs[c]) && Respected(d, es[0], c) && ResizesWell(d, es[0]) &&
      (ConservedIff(d, es[0]); Transfers(Step(d, es[0]), es[1..], c)))
  }

  lemma {:induction false} TransferCopies(d: Dma, es: seq<Event>, c: nat, m0: Memory)
    requires Conserved(d) && c < |d.chs| && (forall k :: 0 <= k < |es| ==> LegalEvent(es[k])) && Transfers(d, es, c)
    requires Active(d.chs[c]) && Copied(d.chs[c], d.mem, m0)
    ensures var d' := Run(d, es); var r := d'.chs[c];
      && (r.state == Complete ==> Outcome(r, d'.mem, m0) && SameShape(r, d.chs[c]))
      && (Active(r) ==> Copied(r, d'.mem, m0) && SameShape(r, d.chs[c]))
    decreases |es|
  {
    hide Step, Conserved, ResizesWell, Copied, Outcome, Respected;
    ConservedIsWellFormed(d);
    if es != [] {
      ConservedIff(d, es[0]);
      ConservedIsWellFormed(Step(d, es[0]));
      StepCopies(d, es[0], c, m0);
      if |es| > 1 {
        TransferCopies(Step(d, es[0]), es[1..], c, m0);
      } else {
        assert es[1..] == [];
      }
    }
  }

  /** Copy correctness under interleaving. Take any run from the moment a channel is at the first
      byte of an incrementing transfer to the moment it completes, with any mixture in between
      of its own and other channels' bursts, register traffic, pauses and resumes, priority
      changes, aborts and bus errors elsewhere. If nobody else is about to write into its
      regions while it is active and it is not reprogrammed while suspended, then, unless the
      destination starts strictly inside the source, it ends up holding exactly what the source
      held at the start. */
  lemma CompletedTransferIsACopy(d: Dma, es: seq<Event>, c: nat)
    requires Conserved(d) && c < |d.chs| && (forall k :: 0 <= k < |es| ==> LegalEvent(es[k])) && Transfers(d, es, c)
    requires AtFirstByte(d.chs[c]) && Incrementing(d.chs[c]) && NotAhead(d.chs[c])
    requires Run(d, es).chs[c].state == Complete
    ensures Delivered(d.chs[c], Run(d, es).mem, d.mem)
  {
    hide Run, Placed, Copied, Tiled;
    FirstByteIsCopied(d.chs[c], d.mem);
    TransferCopies(d, es, c, d.mem);
  }

  lemma {:induction false} TransfersFront(d: Dma, es: seq<Event>, c: nat)
    requires Conserved(d) && c < |d.chs| && (forall k :: 0 <= k < |es| ==> LegalEvent(es[k])) && Transfers(d, es, c)
    requires es != []
    ensures var front, last := es[..|es| - 1], es[|es| - 1];
      var q := Run(d, front);
      && Transfers(d, front, c) && Conserved(q) && Active(q.chs[c]) && Respected(q, last, c)
      && Run(d, es) == Step(q, last)
    decreases |es|
  {
    hide Step, Conserved, ResizesWell, Respected;
    ConservedIsWellFormed(d);
    ConservedIff(d, es[0]);
    var n := |es| - 1;
    var next := Step(d, es[0]);
    ConservedIsWellFormed(next);
    assert Run(d, es) == Run(next, es[1..]);
    if n == 0 {
      assert es[..0] == [] && es[1..] == [];
    } else {
      TransfersFront(next, es[1..], c);
      var front := es[..n];
      assert front[0] == es[0] && front[1..] == es[1..][..n - 1];
      assert Run(d, front) == Run(next, front[1..]);
      assert Transfers(next, front[1..], c);
    }
  }

  lemma FinishingBurstDelivers(d: Dma, c: nat, m0: Memory)
    requires Conserved(d) && c < |d.chs| && FinishesIn(d, Engine, c)
    requires OverlapOnce(d.chs[c]) && NoSelfLink(d, c) && Copied(d.chs[c], d.mem, m0)
    ensures Outcome(d.chs[c], EngineStep(d).mem, m0)
  {
    hide Copied, Outcome, Selected, Arbitrated, Beats, OverlapOnce, Finishes;
    EngineIsBurst(d);
    SelectedRuns(d);
    var d1, k := Arbitrated(d), BeatCount(d.chs[c]);
    OwnBeatsCopy(d1, c, k, m0);
    OutcomeOfShape(Beats(d1, c, k).chs[c], d.chs[c], Beats(d1, c, k).mem, m0);
  }

  lemma OutcomeOfShape(r: Channel, ch: Channel, mem: Memory, m0: Memory)
    requires SameShape(r, ch)
    ensures Outcome(r, mem, m0) ==> Outcome(ch, mem, m0)
  {
    hide Placed, Tiled;
  }

  /** The end of every iteration delivers, not only completion: whenever a burst of the run moves
      the last byte (and the channel completes, or wraps and goes on), the destination holds the
      source as it was at the start; or, when it starts inside the source, the tiles. */
  lemma FinishedIterationDelivers(d: Dma, es: seq<Event>, c: nat)
    requires Conserved(d) && c < |d.chs| && (forall k :: 0 <= k < |es| ==> LegalEvent(es[k])) && Transfers(d, es, c)
    requires AtFirstByte(d.chs[c]) && Incrementing(d.chs[c])
    requires es != [] && FinishesIn(Run(d, es[..|es| - 1]), es[|es| - 1], c)
    ensures Outcome(d.chs[c], Run(d, es).mem, d.mem)
  {
    hide Run, Copied, Transfers, Outcome, EngineStep, Undisturbed, OverlapOnce, Finishes, Selected, Arbitrated;
    var front := es[..|es| - 1];
    var q := Run(d, front);
    FirstByteIsCopied(d.chs[c], d.mem);
    TransfersFront(d, es, c);
    TransferCopies(d, front, c, d.mem);
    FinishingBurstDelivers(q, c, d.mem);
    OutcomeOfShape(q.chs[c], d.chs[c], EngineStep(q).mem, d.mem);
    EngineIsStep(q);
  }

  ghost predicate SameByte(m: Memory, a: int, b: int) {
    a in m && b in m && m[a] == m[b]
  }

  /** The `size` bytes from `src` repeat their first `gap` bytes. */
  ghost predicate Periodic(m: Memory, src: int, gap: int, size: int)
    requires 0 < gap
  {
    forall k :: 0 <= k < size ==> SameByte(m, src + k, src + Fold(k, gap))
  }

  lemma TiledIsCopyIff(mem: Memory, m0: Memory, src: int, dst: int, size: int)
    requires src < dst && Tiled(mem, m0, src, dst, size)
    ensures Placed(mem, m0, src, dst, size) <==> Periodic(m0, src, dst - src, size)
  {
    hide Fold;
    var gap := dst - src;
    forall x | dst <= x < dst + size
      ensures Holds(mem, m0, x, src, dst) <==> SameByte(m0, src + (x - dst), src + Fold(x - dst, gap))
    {
      assert Repeats(mem, m0, x, src, dst);
    }
    forall k | 0 <= k < size
      ensures Holds(mem, m0, dst + k, src, dst) <==> SameByte(m0, src + k, src + Fold(k, gap))
    {
      assert dst + k - dst == k;
    }
  }

  /** The other case, exactly: when the destination starts strictly inside the source, the same
      run delivers a copy if and only if the source repeats its first `dst - src` bytes, which is
      what the destination then holds. */
  lemma OverlapAheadCopiesIff(d: Dma, es: seq<Event>, c: nat)
    requires Conserved(d) && c < |d.chs| && (forall k :: 0 <= k < |es| ==> LegalEvent(es[k])) && Transfers(d, es, c)
    requires AtFirstByte(d.chs[c]) && Incrementing(d.chs[c]) && !NotAhead(d.chs[c]) && Startable(d.chs[c])
    requires Run(d, es).chs[c].state == Complete
    ensures var ch, mem := d.chs[c], Run(d, es).mem;
      && Tiled(mem, d.mem, ch.src, ch.dst, ch.size)
      && (Delivered(ch, mem, d.mem) <==> Periodic(d.mem, ch.src, ch.dst - ch.src, ch.size))
  {
    hide Run, Copied, Step, Transfers, Respected, Tiled, Placed, Periodic;
    var ch := d.chs[c];
    FirstByteIsCopied(ch, d.mem);
    TransferCopies(d, es, c, d.mem);
    AlignedGap(ch);
    TiledIsCopyIff(Run(d, es).mem, d.mem, ch.src, ch.dst, ch.size);
  }

  /** Exactly when a completed incrementing transfer has copied its source: when the destination
      does not start strictly inside the source, or the source repeats itself from there. */
  lemma DeliversIff(d: Dma, es: seq<Event>, c: nat)
    requires Conserved(d) && c < |d.chs| && (forall k :: 0 <= k < |es| ==> LegalEvent(es[k])) && Transfers(d, es, c)
    requires AtFirstByte(d.chs[c]) && Incrementing(d.chs[c]) && Startable(d.chs[c])
    requires Run(d, es).chs[c].state == Complete
    ensures var ch := d.chs[c];
      Delivered(ch, Run(d, es).mem, d.mem) <==> NotAhead(ch) || Periodic(d.mem, ch.src, ch.dst - ch.src, ch.size)
  {
    hide Run, Transfers, Delivered, Periodic, Incrementing;
    if NotAhead(d.chs[c]) {
      CompletedTransferIsACopy(d, es, c);
    } else {
      OverlapAheadCopiesIff(d, es, c);
    }
  }

  lemma AlignedGap(ch: Channel)
    requires Startable(ch) && ch.src < ch.dst
    ensures (ch.dst - ch.src) % WidthOf(ch) == 0
  {
    DifferenceDivides(ch.dst, ch.src, WidthOf(ch));
  }
}

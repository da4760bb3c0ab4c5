/** The NoC router's route cache (noc_cache.h, class noc_route_cache): a fully associative table
of address ranges with timestamp LRU replacement. The second half shows that the timestamps
implement a recency list: move to front, insert at the front dropping the last, clear. */
module NocRouteCache {
  import opened Prelude
  import opened CyclicScan
  import opened Sequences

  datatype Line = Line(lo: nat, hi: nat, tgt: nat, cacheable: bool) {
    predicate Covers(addr: nat) {
      lo <= addr < hi
    }
  }

  datatype Entry = Entry(valid: bool, line: Line, stamp: nat)

  datatype Cache = Cache(tick: nat, entries: seq<Entry>)

  datatype Found = Found(line: Option<Line>, cache: Cache)

  ghost function Hits(c: Cache, addr: nat): (b: seq<bool>)
    ensures |b| == |c.entries|
  {
    seq(|c.entries|, k requires 0 <= k < |c.entries| => c.entries[k].valid && c.entries[k].line.Covers(addr))
  }

  ghost function SameRange(c: Cache, x: Line): (b: seq<bool>)
    ensures |b| == |c.entries|
  {
    seq(|c.entries|, k requires 0 <= k < |c.entries| =>
      c.entries[k].valid && c.entries[k].line.lo == x.lo && c.entries[k].line.hi == x.hi)
  }

  ghost function Free(c: Cache): (b: seq<bool>)
    ensures |b| == |c.entries|
  {
    seq(|c.entries|, k requires 0 <= k < |c.entries| => !c.entries[k].valid)
  }

  ghost function Oldest(c: Cache): (b: seq<bool>)
    ensures |b| == |c.entries|
  {
    seq(|c.entries|, k requires 0 <= k < |c.entries| =>
      forall j :: 0 <= j < |c.entries| ==> c.entries[k].stamp <= c.entries[j].stamp)
  }

  /** The lowest-numbered set slot, or the number of slots. */
  ghost function Slot(b: seq<bool>): (k: nat)
    requires 0 < |b|
    ensures k <= |b| && (k < |b| <==> Somewhere(b)) && (k < |b| ==> b[k])
  {
    Nearest(b, 0)
  }

  ghost function Stamp(c: Cache, k: nat, x: Line): (r: Cache)
    requires k < |c.entries|
    ensures |r.entries| == |c.entries|
  {
    Cache(c.tick + 1, c.entries[k := Entry(true, x, c.tick + 1)])
  }

  ghost function Lookup(c: Cache, addr: nat): (f: Found)
    requires 0 < |c.entries|
    ensures |f.cache.entries| == |c.entries|
  {
    var k := Slot(Hits(c, addr));
    if k < |c.entries| then Found(Some(c.entries[k].line), Stamp(c, k, c.entries[k].line)) else Found(None, c)
  }

  /** The slot `Update` overwrites: the one with the same range, else a free one, else the
      least recently stamped. */
  ghost function Victim(c: Cache, x: Line): (k: nat)
    requires 0 < |c.entries|
    ensures k < |c.entries|
  {
    if Somewhere(SameRange(c, x)) then Slot(SameRange(c, x))
    else if Somewhere(Free(c)) then Slot(Free(c))
    else
      OldestExists(c);
      Slot(Oldest(c))
  }

  ghost function Update(c: Cache, x: Line): (r: Cache)
    requires 0 < |c.entries|
    ensures |r.entries| == |c.entries|
  {
    Stamp(c, Victim(c, x), x)
  }

  ghost function Flush(c: Cache): Cache {
    Cache(0, seq(|c.entries|, k requires 0 <= k < |c.entries| => c.entries[k].(valid := false)))
  }

  lemma {:induction false} MinStamp(c: Cache, n: nat) returns (k: nat)
    requires 0 < n <= |c.entries|
    ensures k < n && forall j :: 0 <= j < n ==> c.entries[k].stamp <= c.entries[j].stamp
  {
    if n == 1 {
      k := 0;
    } else {
      k := MinStamp(c, n - 1);
      if c.entries[n - 1].stamp < c.entries[k].stamp {
        k := n - 1;
      }
    }
  }

  lemma OldestExists(c: Cache)
    requires 0 < |c.entries|
    ensures Somewhere(Oldest(c))
  {
    var k := MinStamp(c, |c.entries|);
    assert Oldest(c)[k];
  }

  lemma SlotIsFirst(b: seq<bool>, k: nat)
    requires k < |b| && b[k] && forall j :: 0 <= j < k ==> !b[j]
    ensures Slot(b) == k
  {
    NearestUnique(b, 0, k);
  }

  lemma NoSlot(b: seq<bool>)
    requires 0 < |b| && forall j :: 0 <= j < |b| ==> !b[j]
    ensures Slot(b) == |b| && !Somewhere(b)
  {}

  /** The program. */
  class RouteCache {
    var lruTick: nat
    var entries: seq<Entry>

    ghost predicate Valid()
      reads this
    {
      0 < |entries|
    }

    ghost function View(): Cache
      reads this
    {
      Cache(lruTick, entries)
    }

    constructor (capacity: nat)
      requires 0 < capacity
      ensures Valid() && |entries| == capacity && lruTick == 0
      ensures forall k :: 0 <= k < capacity ==> !entries[k].valid
    {
      lruTick := 0;
      entries := seq(capacity, k => Entry(false, Line(0, 0, 0, false), 0));
    }

    method LookupAddr(addr: nat) returns (hit: bool, tgt: nat, cacheable: bool)
      requires Valid()
      modifies this
      ensures Valid()
      ensures View() == Lookup(old(View()), addr).cache
      ensures hit == Lookup(old(View()), addr).line.Some?
      ensures hit ==> var x := Lookup(old(View()), addr).line.value; tgt == x.tgt && cacheable == x.cacheable
    {
      for k := 0 to |entries|
        invariant View() == old(View())
        invariant forall j :: 0 <= j < k ==> !Hits(View(), addr)[j]
      {
        var e := entries[k];
        if e.valid && addr >= e.line.lo && addr < e.line.hi {
          SlotIsFirst(Hits(View(), addr), k);
          lruTick := lruTick + 1;
          entries := entries[k := e.(stamp := lruTick)];
          return true, e.line.tgt, e.line.cacheable;
        }
      }
      NoSlot(Hits(View(), addr));
      return false, 0, false;
    }

    method UpdateLine(x: Line)
      requires Valid()
      modifies this
      ensures Valid()
      ensures View() == Update(old(View()), x)
    {
      for k := 0 to |entries|
        invariant View() == old(View())
        invariant forall j :: 0 <= j < k ==> !SameRange(View(), x)[j]
      {
        var e := entries[k];
        if e.valid && e.line.lo == x.lo && e.line.hi == x.hi {
          SlotIsFirst(SameRange(View(), x), k);
          lruTick := lruTick + 1;
          entries := entries[k := e.(line := e.line.(tgt := x.tgt, cacheable := x.cacheable), stamp := lruTick)];
          return;
        }
      }
      NoSlot(SameRange(View(), x));
      for k := 0 to |entries|
        invariant View() == old(View())
        invariant forall j :: 0 <= j < k ==> !Free(View())[j]
      {
        if !entries[k].valid {
          SlotIsFirst(Free(View()), k);
          lruTick := lruTick + 1;
          entries := entries[k := Entry(true, x, lruTick)];
          return;
        }
      }
      NoSlot(Free(View()));
      var it := MinElement();
      lruTick := lruTick + 1;
      entries := entries[it := Entry(true, x, lruTick)];
    }

    /** std::min_element over the stamps: the first of the smallest. */
    method MinElement() returns (it: nat)
      requires Valid()
      ensures it < |entries| && it == Slot(Oldest(View()))
    {
      it := 0;
      for k := 1 to |entries|
        invariant it < k
        invariant forall j :: 0 <= j < k ==> entries[it].stamp <= entries[j].stamp
        invariant forall j :: 0 <= j < it ==> entries[it].stamp < entries[j].stamp
      {
        if entries[k].stamp < entries[it].stamp {
          it := k;
        }
      }
      SlotIsFirst(Oldest(View()), it);
    }

    method FlushAll()
      requires Valid()
      modifies this
      ensures Valid()
      ensures View() == Flush(old(View()))
    {
      for k := 0 to |entries|
        invariant |entries| == |old(entries)| && lruTick == old(lruTick)
        invariant forall j :: 0 <= j < k ==> entries[j] == old(entries)[j].(valid := false)
        invariant forall j :: k <= j < |entries| ==> entries[j] == old(entries)[j]
      {
        entries := entries[k := entries[k].(valid := false)];
      }
      lruTick := 0;
    }
  }

  // ---------- The timestamps implement a recency list ----------

  /** `order` lists the valid slots, most recently stamped first. */
  ghost predicate Recency(c: Cache, order: seq<nat>) {
    && (forall k :: 0 <= k < |order| ==> order[k] < |c.entries| && c.entries[order[k]].valid)
    && (forall s :: 0 <= s < |c.entries| && c.entries[s].valid ==> s in order)
    && (forall j, k :: 0 <= j < k < |order| ==> c.entries[order[j]].stamp > c.entries[order[k]].stamp)
    && (forall k :: 0 <= k < |order| ==> c.entries[order[k]].stamp <= c.tick)
  }

  /** What the cache holds, most recently used first. */
  ghost function Lines(c: Cache, order: seq<nat>): (ls: seq<Line>)
    requires forall k :: 0 <= k < |order| ==> order[k] < |c.entries|
    ensures |ls| == |order|
  {
    seq(|order|, k requires 0 <= k < |order| => c.entries[order[k]].line)
  }

  ghost function ToFront<T>(s: seq<T>, k: nat): (t: seq<T>)
    requires k < |s|
  {
    [s[k]] + Without(s, k)
  }

  ghost function InsertFront<T>(s: seq<T>, capacity: nat, x: T): (t: seq<T>)
    requires 0 < capacity && |s| <= capacity
  {
    [x] + if |s| < capacity then s else s[..capacity - 1]
  }

  ghost predicate DisjointLines(c: Cache) {
    forall j, k :: 0 <= j < k < |c.entries| && c.entries[j].valid && c.entries[k].valid ==>
      forall a :: !(c.entries[j].line.Covers(a) && c.entries[k].line.Covers(a))
  }

  lemma OrderedSlotsDiffer(c: Cache, order: seq<nat>)
    requires Recency(c, order)
    ensures forall j, k :: 0 <= j < k < |order| ==> order[j] != order[k]
  {}

  /** `rest` lists the valid slots other than `s`, most recently stamped first. */
  ghost predicate RecencyBut(c: Cache, s: nat, rest: seq<nat>) {
    && s < |c.entries|
    && (forall k :: 0 <= k < |rest| ==> rest[k] < |c.entries| && rest[k] != s && c.entries[rest[k]].valid)
    && (forall t :: 0 <= t < |c.entries| && c.entries[t].valid && t != s ==> t in rest)
    && (forall j, k :: 0 <= j < k < |rest| ==> c.entries[rest[j]].stamp > c.entries[rest[k]].stamp)
    && (forall k :: 0 <= k < |rest| ==> c.entries[rest[k]].stamp <= c.tick)
  }

  lemma StampGoesFirst(c: Cache, s: nat, rest: seq<nat>, x: Line)
    requires RecencyBut(c, s, rest)
    ensures Recency(Stamp(c, s, x), [s] + rest)
  {
    var c', o := Stamp(c, s, x), [s] + rest;
    forall t | 0 <= t < |c'.entries| && c'.entries[t].valid
      ensures t in o
    {
      if t != s {
        assert t in rest;
      } else {
        assert o[0] == t;
      }
    }
    forall j, k | 0 <= j < k < |o|
      ensures c'.entries[o[j]].stamp > c'.entries[o[k]].stamp
    {
      assert c'.entries[o[k]].stamp == c.entries[rest[k - 1]].stamp;
      if j > 0 {
        assert c'.entries[o[j]].stamp == c.entries[rest[j - 1]].stamp;
      }
    }
  }

  lemma StampedLines(c: Cache, s: nat, rest: seq<nat>, x: Line)
    requires RecencyBut(c, s, rest)
    ensures Lines(Stamp(c, s, x), [s] + rest) == [x] + Lines(c, rest)
  {}

  lemma Others(c: Cache, order: seq<nat>, k: nat)
    requires Recency(c, order) && k < |order|
    ensures RecencyBut(c, order[k], Without(order, k))
  {
    OrderedSlotsDiffer(c, order);
    var rest := Without(order, k);
    WithoutAt(order, k);
    forall t | 0 <= t < |c.entries| && c.entries[t].valid && t != order[k]
      ensures t in rest
    {
      StillIn(order, k, t);
    }
    hide Without;
    forall i, j | 0 <= i < j < |rest|
      ensures c.entries[rest[i]].stamp > c.entries[rest[j]].stamp
    {
      assert rest[i] == order[if i < k then i else i + 1] && rest[j] == order[if j < k then j else j + 1];
    }
  }

  /** Stamping the slot at position `k` of the order moves it to the front. */
  lemma StampMovesToFront(c: Cache, order: seq<nat>, k: nat)
    requires Recency(c, order) && k < |order|
    ensures Recency(Stamp(c, order[k], c.entries[order[k]].line), ToFront(order, k))
    ensures Lines(Stamp(c, order[k], c.entries[order[k]].line), ToFront(order, k)) == ToFront(Lines(c, order), k)
  {
    var x, rest := c.entries[order[k]].line, Without(order, k);
    Others(c, order, k);
    assert forall j :: 0 <= j < |order| ==> order[j] < |c.entries|;
    assert forall j :: 0 <= j < |rest| ==> rest[j] < |c.entries|;
    hide Stamp, Recency, RecencyBut, Without;
    StampGoesFirst(c, order[k], rest, x);
    StampedLines(c, order[k], rest, x);
    WithoutAt(order, k);
    WithoutAt(Lines(c, order), k);
    assert ToFront(order, k) == [order[k]] + rest;
    assert Lines(c, rest) == Without(Lines(c, order), k);
  }

  /** A lookup is a hit exactly when some listed line covers the address; a hit answers from
      that line and moves it to the front, a miss changes nothing. */
  lemma LookupIsMoveToFront(c: Cache, order: seq<nat>, addr: nat) returns (k: nat)
    requires 0 < |c.entries| && Recency(c, order) && DisjointLines(c)
    ensures Lookup(c, addr).line.None? <==> forall j :: 0 <= j < |order| ==> !Lines(c, order)[j].Covers(addr)
    ensures Lookup(c, addr).line.None? ==> Lookup(c, addr).cache == c
    ensures Lookup(c, addr).line.Some? ==>
      && k < |order| && Lines(c, order)[k].Covers(addr)
      && Lookup(c, addr).line.value == Lines(c, order)[k]
      && Recency(Lookup(c, addr).cache, ToFront(order, k))
      && Lines(Lookup(c, addr).cache, ToFront(order, k)) == ToFront(Lines(c, order), k)
  {
    var s := Slot(Hits(c, addr));
    if s < |c.entries| {
      k :| 0 <= k < |order| && order[k] == s;
      StampMovesToFront(c, order, k);
      assert Lines(c, order)[k].Covers(addr);
    } else {
      k := 0;
      forall j | 0 <= j < |order|
        ensures !Lines(c, order)[j].Covers(addr)
      {
        assert !Hits(c, addr)[order[j]];
      }
    }
  }

  ghost function SlotSet(n: nat): (s: set<nat>)
    ensures |s| == n && forall k :: k in s <==> 0 <= k < n
  {
    if n == 0 then {} else SlotSet(n - 1) + {n - 1}
  }

  lemma {:induction false} DistinctLength(order: seq<nat>, s: set<nat>)
    requires forall j, k :: 0 <= j < k < |order| ==> order[j] != order[k]
    requires forall x :: x in s <==> x in order
    ensures |order| == |s|
    decreases |order|
  {
    if order == [] {
      assert s == {};
    } else {
      var x := order[0];
      assert forall y :: y in order[1..] ==> y in order;
      DistinctLength(order[1..], s - {x});
    }
  }

  /** The order names no more slots than there are, and all of them only if none is free. */
  lemma OrderLength(c: Cache, order: seq<nat>)
    requires Recency(c, order)
    ensures |order| <= |c.entries|
    ensures Somewhere(Free(c)) <==> |order| < |c.entries|
  {
    OrderedSlotsDiffer(c, order);
    ListedAreValid(c, order);
    hide Recency;
    var all, used := SlotSet(|c.entries|), ValidSlots(c);
    DistinctLength(order, used);
    if Somewhere(Free(c)) {
      var k :| 0 <= k < |c.entries| && Free(c)[k];
      assert used <= all - {k};
      SubsetSize(used, all - {k});
    } else {
      assert used == all by {
        forall k | k in all ensures k in used { assert !Free(c)[k]; }
      }
    }
  }

  ghost function ValidSlots(c: Cache): (s: set<nat>)
    ensures s <= SlotSet(|c.entries|)
  {
    set k | k in SlotSet(|c.entries|) && c.entries[k].valid
  }

  lemma ListedAreValid(c: Cache, order: seq<nat>)
    requires Recency(c, order)
    ensures forall k :: k in ValidSlots(c) <==> k in order
  {}

  lemma SubsetSize(a: set<nat>, b: set<nat>)
    requires a <= b
    ensures |a| <= |b|
  {
    assert b == a + (b - a);
  }

  /** The least recently stamped slot of a full cache is the last of the order. */
  lemma OldestIsLast(c: Cache, order: seq<nat>)
    requires Recency(c, order) && |order| == |c.entries| > 0
    ensures Slot(Oldest(c)) == order[|order| - 1]
  {
    OldestExists(c);
    OrderLength(c, order);
    var last, k := order[|order| - 1], Slot(Oldest(c));
    assert Oldest(c)[k] && !Free(c)[k];
    assert c.entries[k].stamp <= c.entries[last].stamp;
    var j :| 0 <= j < |order| && order[j] == k;
  }

  /** Recording a range the cache does not hold yet inserts it at the front of the list,
      dropping the least recently used line when the cache is full. */
  lemma UpdateIsInsertFront(c: Cache, order: seq<nat>, x: Line) returns (order': seq<nat>)
    requires 0 < |c.entries| && Recency(c, order)
    requires !Somewhere(SameRange(c, x))
    ensures Recency(Update(c, x), order') && |order| <= |c.entries|
    ensures Lines(Update(c, x), order') == InsertFront(Lines(c, order), |c.entries|, x)
  {
    OrderLength(c, order);
    var s := Victim(c, x);
    if |order| < |c.entries| {
      assert Free(c)[s];
      StampGoesFirst(c, s, order, x);
      StampedLines(c, s, order, x);
      order' := [s] + order;
    } else {
      OldestIsLast(c, order);
      var last := |order| - 1;
      Others(c, order, last);
      assert Without(order, last) == order[..last];
      StampGoesFirst(c, s, order[..last], x);
      StampedLines(c, s, order[..last], x);
      order' := [s] + order[..last];
    }
  }

  /** Clearing empties the list, whatever stamps are left behind in the invalid slots. */
  lemma FlushClears(c: Cache)
    ensures Recency(Flush(c), [])
  {}

  /** The list is determined by the cache: there is only one order. */
  lemma {:induction false} OrderUnique(c: Cache, order: seq<nat>, order': seq<nat>)
    requires Recency(c, order) && Recency(c, order')
    ensures order == order'
  {
    OrderedSlotsDiffer(c, order);
    OrderedSlotsDiffer(c, order');
    SamePrefix(c, order, order', 0);
  }

  lemma {:induction false} SamePrefix(c: Cache, o: seq<nat>, p: seq<nat>, k: nat)
    requires Recency(c, o) && Recency(c, p)
    requires k <= |o| && k <= |p| && o[..k] == p[..k]
    ensures o == p
    decreases |o| - k
  {
    if k < |o| {
      var j := Position(c, o, p, k, k);
      var i := Position(c, p, o, k, k);
      SamePrefix(c, o, p, k + 1);
    } else if k < |p| {
      var i := Position(c, p, o, k, k);
    }
  }

  /** What one order lists after the common prefix, the other lists after it too. */
  lemma Position(c: Cache, o: seq<nat>, p: seq<nat>, k: nat, i: nat) returns (j: nat)
    requires Recency(c, o) && Recency(c, p)
    requires k <= i < |o| && k <= |p| && o[..k] == p[..k]
    ensures k <= j < |p| && p[j] == o[i]
  {
    assert forall m :: 0 <= m < k ==> o[..k][m] == p[..k][m];
    assert o[i] in p;
    j :| 0 <= j < |p| && p[j] == o[i];
  }
}

/** The per-target queue of the non-blocking data path (noc_router.h, tgt_thread_func): which entry
each turn of the drain loop dispatches, and what that adds up to. */
module NocDrain {
  import opened Prelude
  import opened CyclicScan
  import opened Sequences
  import A = NocArbiter
  import F = NocFairness
  import DC = NocDataCache
  import opened NocTransport

  /** A queued transaction; `serial` is its identity (the payload pointer). */
  datatype NbEntry = NbEntry(serial: nat, initId: nat, cacheable: bool, op: Op)

  /** The settings the loop reads. */
  datatype Settings = Settings(nInit: nat, tgt: nat, arbEn: bool, mode: nat, qos: bool, prios: seq<nat>,
    weights: seq<nat>)

  ghost predicate LegalSettings(g: Settings) {
    && 0 < g.nInit && g.mode <= 2
    && |g.prios| == |g.weights| == g.nInit
    && F.LegalWeights(g.weights)
  }

  ghost predicate QueueOk(n: nat, q: seq<NbEntry>) {
    forall k :: 0 <= k < |q| ==> q[k].initId < n
  }

  ghost predicate Waiting(q: seq<NbEntry>, i: nat) {
    exists k :: 0 <= k < |q| && q[k].initId == i
  }

  ghost function Requests(n: nat, q: seq<NbEntry>): (r: seq<bool>)
    ensures |r| == n
  {
    seq(n, i requires 0 <= i < n => Waiting(q, i))
  }

  ghost function CallFor(g: Settings, q: seq<NbEntry>): A.Call {
    A.Call(g.tgt, Requests(g.nInit, q), g.prios, g.weights, g.mode, g.qos)
  }

  /** The first entry of initiator `w`. */
  ghost function FirstOf(q: seq<NbEntry>, w: nat): (k: nat)
    ensures k <= |q|
    ensures k < |q| <==> Waiting(q, w)
    ensures k < |q| ==> q[k].initId == w
    ensures forall j :: 0 <= j < k ==> q[j].initId != w
  {
    if q == [] || q[0].initId == w then 0
    else
      var k := FirstOf(q[1..], w);
      assert forall j :: 0 < j < |q| ==> q[j] == q[1..][j - 1];
      1 + k
  }

  /** One turn: the entry dispatched, what stays queued and the arbiter port afterwards. A head
      that loses the arbitration goes to the back before the winner is looked up. */
  datatype Turn = Turn(entry: NbEntry, rest: seq<NbEntry>, port: A.Port)

  ghost function TakeTurn(g: Settings, p: A.Port, q: seq<NbEntry>): (t: Turn)
    requires LegalSettings(g) && A.ValidPort(g.nInit, p) && QueueOk(g.nInit, q) && q != []
    ensures A.ValidPort(g.nInit, t.port) && QueueOk(g.nInit, t.rest) && |t.rest| < |q|
  {
    if !g.arbEn then Turn(q[0], q[1..], p)
    else
      WinnerIsWaiting(g, p, q);
      var d := A.Decide(p, CallFor(g, q));
      var k := Pick(q, d.winner);
      Turn(k.0, k.1, d.port)
  }

  /** The entry of initiator `w` that is served and the queue it leaves. */
  ghost function Pick(q: seq<NbEntry>, w: nat): (r: (NbEntry, seq<NbEntry>))
    requires q != [] && Waiting(q, w)
    ensures |r.1| == |q| - 1
    ensures forall n :: QueueOk(n, q) ==> QueueOk(n, r.1)
  {
    if w == q[0].initId then (q[0], q[1..])
    else
      var q' := q[1..] + [q[0]];
      RotationWaits(q, w);
      var k := FirstOf(q', w);
      (q'[k], Without(q', k))
  }

  /** With a reachable mode the arbiter names an initiator that has an entry in the queue, so
      the search after a loss always finds one: the loop's `!found` retry never happens. */
  lemma WinnerIsWaiting(g: Settings, p: A.Port, q: seq<NbEntry>)
    requires LegalSettings(g) && A.ValidPort(g.nInit, p) && QueueOk(g.nInit, q) && q != []
    ensures A.ValidCall(g.nInit, CallFor(g, q))
    ensures A.ValidPort(g.nInit, A.Decide(p, CallFor(g, q)).port)
    ensures A.Decide(p, CallFor(g, q)).winner < g.nInit && Waiting(q, A.Decide(p, CallFor(g, q)).winner)
  {
    hide A.Decide;
    var c := CallFor(g, q);
    assert Waiting(q, q[0].initId);
    assert c.requests[q[0].initId];
    A.GrantsARequester(p, c);
  }

  lemma RotationWaits(q: seq<NbEntry>, w: nat)
    requires q != [] && Waiting(q, w)
    ensures Waiting(q[1..] + [q[0]], w)
  {
    var k :| 0 <= k < |q| && q[k].initId == w;
    var q' := q[1..] + [q[0]];
    assert q'[if k == 0 then |q| - 1 else k - 1] == q[k];
  }

  /** The entries in the order the drain loop dispatches them. */
  ghost function DrainOrder(g: Settings, p: A.Port, q: seq<NbEntry>): (r: seq<NbEntry>)
    requires LegalSettings(g) && A.ValidPort(g.nInit, p) && QueueOk(g.nInit, q)
    decreases |q|
  {
    if q == [] then []
    else
      var t := TakeTurn(g, p, q);
      [t.entry] + DrainOrder(g, t.port, t.rest)
  }

  ghost function DrainPort(g: Settings, p: A.Port, q: seq<NbEntry>): A.Port
    requires LegalSettings(g) && A.ValidPort(g.nInit, p) && QueueOk(g.nInit, q)
    decreases |q|
  {
    if q == [] then p
    else
      var t := TakeTurn(g, p, q);
      DrainPort(g, t.port, t.rest)
  }

  // ---------- Nothing lost, nothing duplicated ----------

  lemma TurnTakesOne(g: Settings, p: A.Port, q: seq<NbEntry>)
    requires LegalSettings(g) && A.ValidPort(g.nInit, p) && QueueOk(g.nInit, q) && q != []
    ensures multiset(q) == multiset{TakeTurn(g, p, q).entry} + multiset(TakeTurn(g, p, q).rest)
  {
    hide A.Decide;
    WinnerIsWaiting(g, p, q);
    assert q == [q[0]] + q[1..];
    var w := A.Decide(p, CallFor(g, q)).winner;
    if g.arbEn && w != q[0].initId {
      var q' := q[1..] + [q[0]];
      RotationWaits(q, w);
      WithoutOne(q', FirstOf(q', w));
      assert multiset(q') == multiset(q);
    }
  }

  /** In every reachable arbitration mode the loop dispatches a permutation of the queue: each
      entry exactly once. (It terminates because every turn removes one entry.) */
  lemma {:induction false} DrainIsPermutation(g: Settings, p: A.Port, q: seq<NbEntry>)
    requires LegalSettings(g) && A.ValidPort(g.nInit, p) && QueueOk(g.nInit, q)
    ensures multiset(DrainOrder(g, p, q)) == multiset(q)
    ensures |DrainOrder(g, p, q)| == |q|
    decreases |q|
  {
    hide TakeTurn;
    if q != [] {
      var t := TakeTurn(g, p, q);
      TurnTakesOne(g, p, q);
      DrainIsPermutation(g, t.port, t.rest);
      assert |multiset(q)| == |q| && |multiset(t.rest)| == |t.rest|;
    }
  }

  /** Without arbitration the queue is first in, first out. */
  lemma {:induction false} UnarbitratedIsFifo(g: Settings, p: A.Port, q: seq<NbEntry>)
    requires LegalSettings(g) && A.ValidPort(g.nInit, p) && QueueOk(g.nInit, q)
    requires !g.arbEn
    ensures DrainOrder(g, p, q) == q
    decreases |q|
  {
    if q != [] {
      UnarbitratedIsFifo(g, p, q[1..]);
    }
  }

  /** With QoS, nothing queued outranks initiator `i`. */
  ghost predicate Top(g: Settings, q: seq<NbEntry>, i: nat)
    requires LegalSettings(g) && QueueOk(g.nInit, q) && i < g.nInit
  {
    g.qos ==> forall k :: 0 <= k < |q| ==> g.prios[q[k].initId] <= g.prios[i]
  }

  /** Round-robin and fixed priority dispatch an entry of an eligible initiator, and fixed priority
      the lowest of them. */
  lemma TurnTakesTop(g: Settings, p: A.Port, q: seq<NbEntry>)
    requires LegalSettings(g) && A.ValidPort(g.nInit, p) && QueueOk(g.nInit, q) && q != []
    requires g.arbEn && g.mode <= A.MODE_FIXED_PRIORITY
    ensures var w := TakeTurn(g, p, q).entry.initId;
      && w < g.nInit && Top(g, q, w)
      && (g.mode == A.MODE_FIXED_PRIORITY ==>
           forall k :: 0 <= k < |q| && Top(g, q, q[k].initId) ==> w <= q[k].initId)
  {
    hide TakeTurn;
    TurnFollowsArbiter(g, p, q);
    WinnerIsWaiting(g, p, q);
    var c := CallFor(g, q);
    forall i: nat | i < g.nInit
      ensures A.Eligible(c)[i] <==> Waiting(q, i) && Top(g, q, i)
    {
      EligibleIsTop(g, q, i);
    }
    var w := A.Decide(p, c).winner;
    assert A.Eligible(c)[w];
    if g.mode == A.MODE_FIXED_PRIORITY {
      assert w == Nearest(A.Eligible(c), 0);
      forall k | 0 <= k < |q| && Top(g, q, q[k].initId)
        ensures w <= q[k].initId
      {
        assert A.Eligible(c)[q[k].initId];
      }
    }
  }

  lemma EligibleIsTop(g: Settings, q: seq<NbEntry>, i: nat)
    requires LegalSettings(g) && QueueOk(g.nInit, q) && i < g.nInit
    ensures A.Eligible(CallFor(g, q))[i] <==> Waiting(q, i) && Top(g, q, i)
  {
    var c := CallFor(g, q);
    if A.Eligible(c)[i] && g.qos {
      forall k | 0 <= k < |q|
        ensures g.prios[q[k].initId] <= g.prios[i]
      {
        assert c.requests[q[k].initId];
      }
    }
  }

  lemma RestKeepsTop(g: Settings, p: A.Port, q: seq<NbEntry>, i: nat)
    requires LegalSettings(g) && A.ValidPort(g.nInit, p) && QueueOk(g.nInit, q) && q != []
    requires i < g.nInit && Top(g, q, i)
    ensures Top(g, TakeTurn(g, p, q).rest, i)
  {
    hide TakeTurn;
    TurnTakesOne(g, p, q);
    var rest := TakeTurn(g, p, q).rest;
    forall k | 0 <= k < |rest| && g.qos
      ensures g.prios[rest[k].initId] <= g.prios[i]
    {
      assert rest[k] in multiset(rest);
      assert rest[k] in multiset(q);
    }
  }

  /** In every mode but the weighted one QoS dispatches the whole queue by descending priority,
      whatever its order. */
  lemma {:induction false} QosDrainsByPriority(g: Settings, p: A.Port, q: seq<NbEntry>)
    requires LegalSettings(g) && A.ValidPort(g.nInit, p) && QueueOk(g.nInit, q)
    requires g.arbEn && g.mode <= A.MODE_FIXED_PRIORITY && g.qos
    ensures var r := DrainOrder(g, p, q);
      QueueOk(g.nInit, r) && forall j, k :: 0 <= j < k < |r| ==> g.prios[r[k].initId] <= g.prios[r[j].initId]
    decreases |q|
  {
    hide TakeTurn;
    if q != [] {
      var t := TakeTurn(g, p, q);
      TurnTakesTop(g, p, q);
      RestKeepsTop(g, p, q, t.entry.initId);
      QosDrainsByPriority(g, t.port, t.rest);
      DrainHasOnlyQueued(g, t.port, t.rest);
    }
  }

  lemma DrainHasOnlyQueued(g: Settings, p: A.Port, q: seq<NbEntry>)
    requires LegalSettings(g) && A.ValidPort(g.nInit, p) && QueueOk(g.nInit, q)
    ensures forall k :: 0 <= k < |DrainOrder(g, p, q)| ==> DrainOrder(g, p, q)[k] in q
  {
    DrainIsPermutation(g, p, q);
    forall k | 0 <= k < |DrainOrder(g, p, q)|
      ensures DrainOrder(g, p, q)[k] in q
    {
      assert DrainOrder(g, p, q)[k] in multiset(DrainOrder(g, p, q));
      assert DrainOrder(g, p, q)[k] in multiset(q);
    }
  }

  /** The order of fixed priority: by descending priority when QoS is on, then by initiator. */
  ghost predicate InOrder(g: Settings, a: nat, b: nat)
    requires LegalSettings(g) && a < g.nInit && b < g.nInit
  {
    if g.qos && g.prios[a] != g.prios[b] then g.prios[a] > g.prios[b] else a <= b
  }

  /** Fixed priority dispatches in that order, whatever the queue order. */
  lemma {:induction false} FixedPrioritySorts(g: Settings, p: A.Port, q: seq<NbEntry>)
    requires LegalSettings(g) && A.ValidPort(g.nInit, p) && QueueOk(g.nInit, q)
    requires g.arbEn && g.mode == A.MODE_FIXED_PRIORITY
    ensures var r := DrainOrder(g, p, q);
      QueueOk(g.nInit, r) && forall j, k :: 0 <= j < k < |r| ==> InOrder(g, r[j].initId, r[k].initId)
    decreases |q|
  {
    hide TakeTurn;
    if q != [] {
      var t := TakeTurn(g, p, q);
      FixedTakesFirst(g, p, q);
      FixedPrioritySorts(g, t.port, t.rest);
      DrainHasOnlyQueued(g, t.port, t.rest);
      TurnTakesOne(g, p, q);
      forall e | e in t.rest
        ensures e in q
      {
        assert e in multiset(t.rest);
        assert e in multiset(q);
      }
    }
  }

  lemma FixedTakesFirst(g: Settings, p: A.Port, q: seq<NbEntry>)
    requires LegalSettings(g) && A.ValidPort(g.nInit, p) && QueueOk(g.nInit, q) && q != []
    requires g.arbEn && g.mode == A.MODE_FIXED_PRIORITY
    ensures var w := TakeTurn(g, p, q).entry.initId;
      w < g.nInit && forall e :: e in q ==> e.initId < g.nInit && InOrder(g, w, e.initId)
  {
    hide TakeTurn;
    TurnTakesTop(g, p, q);
    var w := TakeTurn(g, p, q).entry.initId;
    forall e | e in q
      ensures e.initId < g.nInit && InOrder(g, w, e.initId)
    {
      var k :| 0 <= k < |q| && q[k] == e;
      assert g.qos ==> g.prios[q[k].initId] <= g.prios[w];
      if !g.qos || g.prios[e.initId] == g.prios[w] {
        assert Top(g, q, q[k].initId);
      }
    }
  }

  // ---------- Nobody waits forever ----------

  lemma TurnKeepsWaiting(g: Settings, p: A.Port, q: seq<NbEntry>, i: nat)
    requires LegalSettings(g) && A.ValidPort(g.nInit, p) && QueueOk(g.nInit, q)
    requires Waiting(q, i)
    ensures TakeTurn(g, p, q).entry.initId != i ==> Waiting(TakeTurn(g, p, q).rest, i)
  {
    hide TakeTurn;
    var k :| 0 <= k < |q| && q[k].initId == i;
    TurnTakesOne(g, p, q);
    var t := TakeTurn(g, p, q);
    assert q[k] in multiset(q);
    if t.entry.initId != i {
      assert q[k] in multiset(t.rest);
      assert q[k] in t.rest;
    }
  }

  lemma TurnFollowsArbiter(g: Settings, p: A.Port, q: seq<NbEntry>)
    requires LegalSettings(g) && A.ValidPort(g.nInit, p) && QueueOk(g.nInit, q) && q != []
    requires g.arbEn
    ensures TakeTurn(g, p, q).port == A.Decide(p, CallFor(g, q)).port
    ensures TakeTurn(g, p, q).entry.initId == A.Decide(p, CallFor(g, q)).winner
  {
    hide A.Decide;
    WinnerIsWaiting(g, p, q);
    RotationWaits(q, A.Decide(p, CallFor(g, q)).winner);
  }

  /** Round-robin: an initiator with an entry queued (and, with QoS, none queued that outranks it)
      is dispatched within as many dispatches as there are initiators, and more precisely within
      its distance from the scan start. */
  lemma {:induction false} RoundRobinDrainServes(g: Settings, p: A.Port, q: seq<NbEntry>, i: nat) returns (k: nat)
    requires LegalSettings(g) && A.ValidPort(g.nInit, p) && QueueOk(g.nInit, q)
    requires g.arbEn && g.mode == A.MODE_ROUND_ROBIN
    requires i < g.nInit && Waiting(q, i) && Top(g, q, i)
    ensures k <= Dist(g.nInit, Next(g.nInit, p.rr), i) < g.nInit
    ensures k < |DrainOrder(g, p, q)| && DrainOrder(g, p, q)[k].initId == i
    decreases |q|
  {
    hide TakeTurn, A.Decide;
    var t := TakeTurn(g, p, q);
    TurnFollowsArbiter(g, p, q);
    WinnerIsWaiting(g, p, q);
    EligibleIsTop(g, q, i);
    F.RoundRobinProgress(p, CallFor(g, q), i);
    if t.entry.initId == i {
      k := 0;
    } else {
      TurnKeepsWaiting(g, p, q, i);
      RestKeepsTop(g, p, q, i);
      k := RoundRobinDrainServes(g, t.port, t.rest, i);
      k := k + 1;
    }
  }

  /** Weighted: within as many dispatches as there are credits ahead of it. */
  lemma {:induction false} WeightedDrainServes(g: Settings, p: A.Port, q: seq<NbEntry>, i: nat) returns (k: nat)
    requires LegalSettings(g) && F.LegalPort(g.nInit, p) && QueueOk(g.nInit, q)
    requires g.arbEn && g.mode == A.MODE_WEIGHTED_RR
    requires i < g.nInit && Waiting(q, i)
    ensures k <= F.CreditsAhead(g.nInit, p, i)
    ensures k < |DrainOrder(g, p, q)| && DrainOrder(g, p, q)[k].initId == i
    decreases |q|
  {
    hide TakeTurn, A.Weighted, F.CreditsAhead;
    var t := TakeTurn(g, p, q);
    TurnFollowsArbiter(g, p, q);
    WinnerIsWaiting(g, p, q);
    F.WeightedProgress(p, CallFor(g, q).requests, g.weights, i);
    if t.entry.initId == i {
      k := 0;
    } else {
      TurnKeepsWaiting(g, p, q, i);
      k := WeightedDrainServes(g, t.port, t.rest, i);
      k := k + 1;
    }
  }

  /** Per-initiator order is not kept: a head that loses an arbitration is overtaken by a later
      entry of its own initiator. */
  lemma LoserIsOvertaken(op: Op)
    ensures var g := Settings(2, 0, true, A.MODE_FIXED_PRIORITY, false, [0, 0], [1, 1]);
      var p := A.Port(0, 0, [1, 1]);
      var q := [NbEntry(0, 1, false, op), NbEntry(1, 1, false, op), NbEntry(2, 0, false, op)];
      LegalSettings(g) && QueueOk(2, q) && DrainOrder(g, p, q) == [q[2], q[1], q[0]]
  {
    var g := Settings(2, 0, true, A.MODE_FIXED_PRIORITY, false, [0, 0], [1, 1]);
    var p := A.Port(0, 0, [1, 1]);
    var q := [NbEntry(0, 1, false, op), NbEntry(1, 1, false, op), NbEntry(2, 0, false, op)];
    assert A.ValidPort(2, p);
    var c := CallFor(g, q);
    assert q[2].initId == 0 && c.requests[0];
    NearestUnique(A.Eligible(c), 0, 0);
    assert q[1..] + [q[0]] == [q[1], q[2], q[0]];
    assert FirstOf([q[1], q[2], q[0]], 0) == 1;
    assert Without([q[1], q[2], q[0]], 1) == [q[1], q[0]];
    var q2 := [q[1], q[0]];
    assert TakeTurn(g, p, q) == Turn(q[2], q2, p);
    OneInitiatorIsFifo(g, p, q2, 1);
  }

  /** Entries of a single initiator leave in order. */
  lemma {:induction false} OneInitiatorIsFifo(g: Settings, p: A.Port, q: seq<NbEntry>, i: nat)
    requires LegalSettings(g) && A.ValidPort(g.nInit, p) && QueueOk(g.nInit, q)
    requires forall k :: 0 <= k < |q| ==> q[k].initId == i
    ensures DrainOrder(g, p, q) == q
    decreases |q|
  {
    hide A.Decide;
    if q != [] {
      WinnerIsWaiting(g, p, q);
      OneInitiatorIsFifo(g, TakeTurn(g, p, q).port, q[1..], i);
    }
  }

  /** The entries of initiator `i`, in queue order. */
  ghost function Own(q: seq<NbEntry>, i: nat): (r: seq<NbEntry>)
    ensures r != [] <==> Waiting(q, i)
    ensures forall e :: e in r ==> e in q
  {
    if q == [] then [] else
      assert q == [q[0]] + q[1..];
      (if q[0].initId == i then [q[0]] else []) + Own(q[1..], i)
  }

  lemma {:induction false} OwnAppend(a: seq<NbEntry>, b: seq<NbEntry>, i: nat)
    ensures Own(a + b, i) == Own(a, i) + Own(b, i)
    decreases |a|
  {
    if a == [] {
      assert a + b == b;
    } else {
      assert (a + b)[0] == a[0] && (a + b)[1..] == a[1..] + b;
      OwnAppend(a[1..], b, i);
    }
  }

  /** Taking out initiator `w`'s first entry leaves everybody's order alone. */
  lemma OwnWithoutFirst(q: seq<NbEntry>, w: nat, i: nat)
    requires Waiting(q, w)
    ensures var k := FirstOf(q, w);
      Own(q, i) == (if i == w then [q[k]] else []) + Own(Without(q, k), i)
  {
    hide Own, Waiting;
    var k := FirstOf(q, w);
    var before, after := q[..k], q[k + 1..];
    assert q == before + ([q[k]] + after);
    OwnAppend(before, [q[k]] + after, i);
    OwnAppend([q[k]], after, i);
    OwnAppend(before, after, i);
    OwnOne(q[k], i);
    NoneBefore(q, w);
  }

  lemma NoneBefore(q: seq<NbEntry>, w: nat)
    requires Waiting(q, w)
    ensures Own(q[..FirstOf(q, w)], w) == []
  {
    hide Own;
    assert !Waiting(q[..FirstOf(q, w)], w);
  }

  lemma OwnOne(e: NbEntry, i: nat)
    ensures Own([e], i) == if e.initId == i then [e] else []
  {}

  /** This turn puts the head of initiator `i` behind another of its entries: the head loses the
      arbitration and its initiator has more entries queued. */
  ghost predicate Overtakes(g: Settings, p: A.Port, q: seq<NbEntry>, i: nat)
    requires LegalSettings(g) && A.ValidPort(g.nInit, p) && QueueOk(g.nInit, q) && q != []
  {
    && g.arbEn && q[0].initId == i && Waiting(q[1..], i)
    && (WinnerIsWaiting(g, p, q); A.Decide(p, CallFor(g, q)).winner != i)
  }

  /** What turn `t` dispatches and leaves of initiator `i` is what was queued, in that order. */
  ghost predicate KeepsOrder(q: seq<NbEntry>, t: Turn, i: nat) {
    Own(q, i) == (if t.entry.initId == i then [t.entry] else []) + Own(t.rest, i)
  }

  ghost predicate Distinct(q: seq<NbEntry>) {
    forall j, k :: 0 <= j < k < |q| ==> q[j] != q[k]
  }

  lemma PickOrder(q: seq<NbEntry>, w: nat, i: nat)
    requires q != [] && Waiting(q, w)
    ensures var r := Pick(q, w);
      && r.0.initId == w
      && (w == q[0].initId || i != q[0].initId ==> Own(q, i) == (if w == i then [r.0] else []) + Own(r.1, i))
      && (w != q[0].initId && i == q[0].initId ==> Own(r.1, i) == Own(q[1..], i) + [q[0]])
  {
    hide FirstOf, Without, Own;
    var head, tail := q[0], q[1..];
    assert q == [head] + tail;
    OwnAppend([head], tail, i);
    OwnOne(head, i);
    if w != head.initId {
      RotationWaits(q, w);
      OwnWithoutFirst(tail + [head], w, i);
      OwnAppend(tail, [head], i);
    }
  }

  /** Exactly when a turn keeps an initiator's order: unless its head loses the arbitration while
      another of its entries is queued. */
  lemma TurnKeepsOrderIff(g: Settings, p: A.Port, q: seq<NbEntry>, i: nat)
    requires LegalSettings(g) && A.ValidPort(g.nInit, p) && QueueOk(g.nInit, q) && q != [] && Distinct(q)
    ensures KeepsOrder(q, TakeTurn(g, p, q), i) <==> !Overtakes(g, p, q, i)
  {
    hide Own, Pick, A.Decide, CallFor, Distinct;
    if !Overtakes(g, p, q, i) {
      TurnKeepsOrder(g, p, q, i);
    } else {
      WinnerIsWaiting(g, p, q);
      PickOrder(q, A.Decide(p, CallFor(g, q)).winner, i);
      HeadFirst(q, i);
      HeadIsNew(q, i);
    }
  }

  lemma TurnKeepsOrder(g: Settings, p: A.Port, q: seq<NbEntry>, i: nat)
    requires LegalSettings(g) && A.ValidPort(g.nInit, p) && QueueOk(g.nInit, q) && q != []
    requires !Overtakes(g, p, q, i)
    ensures KeepsOrder(q, TakeTurn(g, p, q), i)
  {
    hide Own, Pick, A.Decide, CallFor;
    HeadFirst(q, i);
    if g.arbEn {
      WinnerIsWaiting(g, p, q);
      PickOrder(q, A.Decide(p, CallFor(g, q)).winner, i);
    }
  }

  lemma HeadFirst(q: seq<NbEntry>, i: nat)
    requires q != []
    ensures Own(q, i) == (if q[0].initId == i then [q[0]] else []) + Own(q[1..], i)
  {}

  /** The head is not the first of the initiator's other entries. */
  lemma HeadIsNew(q: seq<NbEntry>, i: nat)
    requires q != [] && Distinct(q) && Waiting(q[1..], i)
    ensures [q[0]] + Own(q[1..], i) != Own(q[1..], i) + [q[0]]
  {
    var others := Own(q[1..], i);
    var e := others[0];
    assert e in q[1..];
    var k :| 0 <= k < |q| - 1 && q[1..][k] == e;
    assert q[k + 1] == e;
    assert ([q[0]] + others)[0] == q[0] && (others + [q[0]])[0] == e;
  }

  /** No turn of the drain overtakes initiator `i`. */
  ghost predicate NeverOvertakes(g: Settings, p: A.Port, q: seq<NbEntry>, i: nat)
    requires LegalSettings(g) && A.ValidPort(g.nInit, p) && QueueOk(g.nInit, q)
    decreases |q|
  {
    q == [] || (!Overtakes(g, p, q, i) && var t := TakeTurn(g, p, q); NeverOvertakes(g, t.port, t.rest, i))
  }

  /** An initiator whose head never loses while it has more queued leaves in order. */
  lemma {:induction false} UnovertakenIsFifo(g: Settings, p: A.Port, q: seq<NbEntry>, i: nat)
    requires LegalSettings(g) && A.ValidPort(g.nInit, p) && QueueOk(g.nInit, q) && NeverOvertakes(g, p, q, i)
    ensures Own(DrainOrder(g, p, q), i) == Own(q, i)
    decreases |q|
  {
    hide TakeTurn, Overtakes, Own;
    if q != [] {
      var t := TakeTurn(g, p, q);
      TurnKeepsOrder(g, p, q, i);
      UnovertakenIsFifo(g, t.port, t.rest, i);
      OwnAppend([t.entry], DrainOrder(g, t.port, t.rest), i);
      OwnOne(t.entry, i);
    }
  }

  // ---------- What a dispatch does ----------

  /** A cached read is answered on the spot, anything else is forwarded to the target. */
  datatype Dispatch = Answered(entry: NbEntry, data: seq<Byte>) | Forwarded(entry: NbEntry)

  ghost predicate HitsCache(cacheEn: bool, dc: DC.Cache, e: NbEntry) {
    cacheEn && e.cacheable && e.op.Read? && DC.ReadHits(dc, e.op.addr, e.op.len)
  }

  ghost function DispatchOne(cacheEn: bool, dc: DC.Cache, e: NbEntry): Dispatch {
    if HitsCache(cacheEn, dc, e) then Answered(e, DC.ReadData(dc, e.op.addr, e.op.len)) else Forwarded(e)
  }

  ghost function CacheAfter(cacheEn: bool, dc: DC.Cache, e: NbEntry): DC.Cache {
    if cacheEn && e.op.Write? then DC.Write(dc, e.op.addr, e.op.data) else dc
  }

  ghost function DispatchAll(cacheEn: bool, dc: DC.Cache, es: seq<NbEntry>): (r: seq<Dispatch>)
    ensures |r| == |es| && forall k :: 0 <= k < |es| ==> r[k].entry == es[k]
    decreases |es|
  {
    if es == [] then []
    else [DispatchOne(cacheEn, dc, es[0])] + DispatchAll(cacheEn, CacheAfter(cacheEn, dc, es[0]), es[1..])
  }

  ghost function CacheAfterAll(cacheEn: bool, dc: DC.Cache, es: seq<NbEntry>): DC.Cache
    decreases |es|
  {
    if es == [] then dc else CacheAfterAll(cacheEn, CacheAfter(cacheEn, dc, es[0]), es[1..])
  }
}

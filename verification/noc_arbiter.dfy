/** The NoC router's arbiter: per-target round-robin, fixed priority and credit-based weighted
round-robin (noc_arbiter.h).

`Decide` says what one arbitration does to one target port, with every scan stated as "the
nearest slot that satisfies ..."; class `Arbiter` is the program, loops and all, proved equal
to it. */
module NocArbiter {
  import opened CyclicScan

  const MODE_ROUND_ROBIN: nat := 0
  const MODE_FIXED_PRIORITY: nat := 1
  const MODE_WEIGHTED_RR: nat := 2

  /** `unsigned int` arithmetic wraps. */
  const UINT_RANGE: nat := 0x1_0000_0000

  /** What the arbiter remembers about one target: the last round-robin winner, the weighted
      scan position and one credit counter per initiator. */
  datatype Port = Port(rr: nat, wrr: nat, credits: seq<nat>)

  datatype Call = Call(tgt: nat, requests: seq<bool>, priorities: seq<nat>, weights: seq<nat>,
                       mode: nat, qos: bool)

  datatype Grant = Grant(winner: nat, port: Port)

  ghost predicate ValidPort(n: nat, p: Port) {
    p.rr < n && p.wrr < n && |p.credits| == n
  }

  /** A call from a router with `n` initiators. */
  ghost predicate ValidCall(n: nat, c: Call) {
    |c.requests| == n && |c.priorities| == n && |c.weights| == n
  }

  /** Who competes: every requester, or with QoS the requesters no other requester outranks. */
  ghost function Eligible(c: Call): (e: seq<bool>)
    requires |c.priorities| == |c.requests|
    ensures |e| == |c.requests|
  {
    seq(|c.requests|, i requires 0 <= i < |c.requests| =>
      c.requests[i] &&
      (c.qos ==> forall j :: 0 <= j < |c.requests| && c.requests[j] ==> c.priorities[j] <= c.priorities[i]))
  }

  ghost function RoundRobin(p: Port, eligible: seq<bool>): Grant
    requires p.rr < |eligible|
  {
    var w := Nearest(eligible, Next(|eligible|, p.rr));
    Grant(w, if w < |eligible| then p.(rr := w) else p)
  }

  /** Take one credit from `w`; the last credit reloads the counter and moves the scan on. */
  ghost function Spend(p: Port, w: nat, weights: seq<nat>): Grant
    requires w < |p.credits| == |weights|
  {
    var left := (p.credits[w] - 1) % UINT_RANGE;
    Grant(w, if left == 0
             then p.(credits := p.credits[w := weights[w]], wrr := Next(|weights|, w))
             else p.(credits := p.credits[w := left]))
  }

  ghost function Funded(p: Port, requests: seq<bool>): (e: seq<bool>)
    requires |p.credits| == |requests|
    ensures |e| == |requests|
  {
    seq(|requests|, i requires 0 <= i < |requests| => requests[i] && p.credits[i] > 0)
  }

  ghost function Weighted(p: Port, requests: seq<bool>, weights: seq<nat>): Grant
    requires ValidPort(|requests|, p) && |weights| == |requests|
  {
    var w := Nearest(Funded(p, requests), p.wrr);
    if w < |requests| then Spend(p, w, weights)
    else
      var q := p.(credits := weights);
      var v := Nearest(requests, p.wrr);
      if v < |requests| then Spend(q, v, weights) else Grant(v, q)
  }

  ghost function Decide(p: Port, c: Call): Grant
    requires ValidPort(|c.requests|, p) && ValidCall(|c.requests|, c)
  {
    if c.mode == MODE_ROUND_ROBIN then RoundRobin(p, Eligible(c))
    else if c.mode == MODE_FIXED_PRIORITY then Grant(Nearest(Eligible(c), 0), p)
    else if c.mode == MODE_WEIGHTED_RR then Weighted(p, c.requests, c.weights)
    else Grant(|c.requests|, p)
  }

  /** The arbiter never invents a winner: with a legal mode it grants a current requester
      whenever there is one, and the port stays well formed. */
  lemma GrantsARequester(p: Port, c: Call)
    requires ValidPort(|c.requests|, p) && ValidCall(|c.requests|, c)
    ensures ValidPort(|c.requests|, Decide(p, c).port)
    ensures Decide(p, c).winner <= |c.requests|
    ensures Decide(p, c).winner < |c.requests| ==> c.requests[Decide(p, c).winner]
    ensures c.mode <= 2 ==> (Decide(p, c).winner < |c.requests| <==> Somewhere(c.requests))
    ensures c.mode > 2 ==> Decide(p, c).winner == |c.requests|
  {
    EligibleSomewhere(c);
    if Somewhere(Funded(p, c.requests)) {
      var i :| 0 <= i < |c.requests| && Funded(p, c.requests)[i];
      assert c.requests[i];
    }
  }

  lemma EligibleSomewhere(c: Call)
    requires ValidCall(|c.requests|, c)
    ensures Somewhere(Eligible(c)) <==> Somewhere(c.requests)
  {
    if Somewhere(c.requests) {
      var i := TopRequester(c, |c.requests|);
      assert Eligible(c)[i];
    }
    if Somewhere(Eligible(c)) {
      var i :| 0 <= i < |c.requests| && Eligible(c)[i];
      assert c.requests[i];
    }
  }

  /** With the highest requested priority at hand, eligibility is the test of the scan. */
  lemma EligibleAtMax(c: Call, maxPrio: int)
    requires ValidCall(|c.requests|, c)
    requires c.qos ==> (exists i :: 0 <= i < |c.requests| && c.requests[i] && c.priorities[i] == maxPrio)
    requires c.qos ==> forall i :: 0 <= i < |c.requests| && c.requests[i] ==> c.priorities[i] <= maxPrio
    ensures forall j :: 0 <= j < |c.requests| ==>
      (Eligible(c)[j] <==> c.requests[j] && (c.qos ==> c.priorities[j] == maxPrio))
  {}

  lemma TopRequester(c: Call, k: nat) returns (i: nat)
    requires ValidCall(|c.requests|, c) && k <= |c.requests|
    requires exists j :: 0 <= j < k && c.requests[j]
    ensures i < k && c.requests[i]
    ensures forall j :: 0 <= j < k && c.requests[j] ==> c.priorities[j] <= c.priorities[i]
  {
    if exists j :: 0 <= j < k - 1 && c.requests[j] {
      i := TopRequester(c, k - 1);
      if c.requests[k - 1] && c.priorities[i] < c.priorities[k - 1] {
        i := k - 1;
      }
    } else {
      i := k - 1;
    }
  }

  /** The program. */
  class Arbiter {
    const nInit: nat
    const nTgt: nat
    var rrPtr: seq<nat>
    var credits: seq<seq<nat>>
    var wrrPtr: seq<nat>

    ghost predicate Valid()
      reads this
    {
      && 0 < nInit
      && |rrPtr| == |credits| == |wrrPtr| == nTgt
      && forall t :: 0 <= t < nTgt ==> ValidPort(nInit, Port(rrPtr[t], wrrPtr[t], credits[t]))
    }

    ghost function At(t: nat): Port
      requires Valid() && t < nTgt
      reads this
    {
      Port(rrPtr[t], wrrPtr[t], credits[t])
    }

    ghost function Ports(): (ps: seq<Port>)
      requires Valid()
      reads this
      ensures |ps| == nTgt
    {
      seq(nTgt, t requires 0 <= t < nTgt && Valid() reads this => At(t))
    }

    constructor (nInit: nat, nTgt: nat)
      requires 0 < nInit
      ensures Valid() && this.nInit == nInit && this.nTgt == nTgt
      ensures Ports() == seq(nTgt, t => Port(0, 0, seq(nInit, i => 1)))
    {
      this.nInit := nInit;
      this.nTgt := nTgt;
      rrPtr := seq(nTgt, t => 0);
      credits := seq(nTgt, t => seq(nInit, i => 1));
      wrrPtr := seq(nTgt, t => 0);
    }

    method Arbitrate(c: Call) returns (winner: nat)
      requires Valid() && c.tgt < nTgt && ValidCall(nInit, c)
      modifies this
      ensures Valid()
      ensures winner == Decide(old(At(c.tgt)), c).winner
      ensures Ports() == old(Ports())[c.tgt := Decide(old(At(c.tgt)), c).port]
    {
      if c.mode == MODE_ROUND_ROBIN {
        winner := ArbRoundRobin(c);
      } else if c.mode == MODE_FIXED_PRIORITY {
        winner := ArbFixedPriority(c);
      } else if c.mode == MODE_WEIGHTED_RR {
        winner := ArbWeightedRr(c.tgt, c.requests, c.weights);
      } else {
        winner := nInit;
      }
    }

    /** The first loop of the QoS round-robin: the highest priority requested, or -1. */
    method MaxPriority(c: Call) returns (maxPrio: int)
      requires ValidCall(nInit, c)
      ensures maxPrio < 0 ==> !Somewhere(c.requests)
      ensures maxPrio >= 0 ==> exists i :: 0 <= i < nInit && c.requests[i] && c.priorities[i] == maxPrio
      ensures forall i :: 0 <= i < nInit && c.requests[i] ==> c.priorities[i] <= maxPrio
    {
      maxPrio := -1;
      for i := 0 to nInit
        invariant maxPrio >= -1
        invariant maxPrio >= 0 ==> exists j :: 0 <= j < i && c.requests[j] && c.priorities[j] == maxPrio
        invariant forall j :: 0 <= j < i && c.requests[j] ==> c.priorities[j] <= maxPrio
      {
        if c.requests[i] && c.priorities[i] > maxPrio {
          maxPrio := c.priorities[i];
        }
      }
    }

    method ArbRoundRobin(c: Call) returns (winner: nat)
      requires Valid() && c.tgt < nTgt && ValidCall(nInit, c)
      modifies this
      ensures Valid()
      ensures winner == RoundRobin(old(At(c.tgt)), Eligible(c)).winner
      ensures Ports() == old(Ports())[c.tgt := RoundRobin(old(At(c.tgt)), Eligible(c)).port]
    {
      var maxPrio := 0;
      if c.qos {
        maxPrio := MaxPriority(c);
        if maxPrio < 0 {
          EligibleSomewhere(c);
          return nInit;
        }
      }
      EligibleAtMax(c, maxPrio);
      hide Eligible, Nearest;
      ModIsAt(nInit, rrPtr[c.tgt], 1);
      winner := ScanFrom(c, (rrPtr[c.tgt] + 1) % nInit, maxPrio);
      if winner < nInit {
        rrPtr := rrPtr[c.tgt := winner];
      }
    }

    /** The second loop: the first requester (of the highest priority, with QoS) from `start` on. */
    method ScanFrom(c: Call, start: nat, maxPrio: int) returns (winner: nat)
      requires start < nInit && ValidCall(nInit, c)
      requires forall j :: 0 <= j < nInit ==>
        (Eligible(c)[j] <==> c.requests[j] && (c.qos ==> c.priorities[j] == maxPrio))
      ensures winner == Nearest(Eligible(c), start)
    {
      ghost var e := Eligible(c);
      hide Eligible, Nearest, CyclicScan.At, Somewhere;
      for i := 0 to nInit
        invariant forall j :: 0 <= j < i ==> !e[CyclicScan.At(nInit, start, j)]
      {
        ModIsAt(nInit, start, i);
        var idx := (start + i) % nInit;
        if c.requests[idx] && (c.qos ==> c.priorities[idx] == maxPrio) {
          DistOfAt(nInit, start, i);
          NearestUnique(e, start, idx);
          return idx;
        }
      }
      NothingFound(e, start);
      return nInit;
    }

    method ArbFixedPriority(c: Call) returns (winner: nat)
      requires Valid() && ValidCall(nInit, c)
      ensures winner == Nearest(Eligible(c), 0)
    {
      var best: nat := nInit;
      var bestPrio := -1;
      for i := 0 to nInit
        invariant best <= nInit
        invariant best == nInit ==> bestPrio == -1 && forall j :: 0 <= j < i ==> !c.requests[j]
        invariant best < nInit ==> best < i && c.requests[best] && bestPrio == Rank(c, best)
        invariant forall j :: 0 <= j < i && c.requests[j] ==> Rank(c, j) <= bestPrio
        invariant forall j :: 0 <= j < best && j < i && c.requests[j] ==> Rank(c, j) < bestPrio
      {
        if c.requests[i] {
          var prio: int := if c.qos then c.priorities[i] else nInit - 1 - i;
          if prio > bestPrio || (prio == bestPrio && i < best) {
            bestPrio := prio;
            best := i;
          }
        }
      }
      if best < nInit {
        assert forall j :: 0 <= j < best ==> !Eligible(c)[CyclicScan.At(nInit, 0, j)];
        NearestUnique(Eligible(c), 0, best);
      } else {
        NothingFound(Eligible(c), 0);
      }
      return best;
    }

    ghost function Rank(c: Call, i: nat): int
      requires ValidCall(nInit, c) && i < nInit
    {
      if c.qos then c.priorities[i] else nInit - 1 - i
    }

    method ArbWeightedRr(tgt: nat, requests: seq<bool>, weights: seq<nat>) returns (winner: nat)
      requires Valid() && tgt < nTgt && |requests| == |weights| == nInit
      modifies this
      ensures Valid()
      ensures winner == Weighted(old(At(tgt)), requests, weights).winner
      ensures Ports() == old(Ports())[tgt := Weighted(old(At(tgt)), requests, weights).port]
    {
      hide Nearest, CyclicScan.At;
      ghost var p := At(tgt);
      for attempt := 0 to nInit
        invariant forall j :: 0 <= j < attempt ==> !Funded(p, requests)[CyclicScan.At(nInit, p.wrr, j)]
        invariant rrPtr == old(rrPtr) && credits == old(credits) && wrrPtr == old(wrrPtr)
      {
        ModIsAt(nInit, wrrPtr[tgt], attempt);
        var idx := (wrrPtr[tgt] + attempt) % nInit;
        if requests[idx] && credits[tgt][idx] > 0 {
          DistOfAt(nInit, p.wrr, attempt);
          NearestUnique(Funded(p, requests), p.wrr, idx);
          Take(tgt, idx, weights);
          return idx;
        }
      }
      NothingFound(Funded(p, requests), p.wrr);

      var row := credits[tgt];
      for i := 0 to nInit
        invariant |row| == nInit
        invariant forall j :: 0 <= j < i ==> row[j] == weights[j]
      {
        row := row[i := weights[i]];
      }
      assert row == weights;
      credits := credits[tgt := row];

      for i := 0 to nInit
        invariant forall j :: 0 <= j < i ==> !requests[CyclicScan.At(nInit, p.wrr, j)]
        invariant rrPtr == old(rrPtr) && credits == old(credits)[tgt := weights] && wrrPtr == old(wrrPtr)
      {
        ModIsAt(nInit, wrrPtr[tgt], i);
        var idx := (wrrPtr[tgt] + i) % nInit;
        if requests[idx] {
          DistOfAt(nInit, p.wrr, i);
          NearestUnique(requests, p.wrr, idx);
          Take(tgt, idx, weights);
          return idx;
        }
      }
      NothingFound(requests, p.wrr);
      return nInit;
    }

    /** The decrement that both scans of the weighted mode share. */
    method Take(tgt: nat, idx: nat, weights: seq<nat>)
      requires Valid() && tgt < nTgt && idx < nInit == |weights|
      modifies this
      ensures Valid()
      ensures Ports() == old(Ports())[tgt := Spend(old(At(tgt)), idx, weights).port]
    {
      credits := credits[tgt := credits[tgt][idx := (credits[tgt][idx] - 1) % UINT_RANGE]];
      if credits[tgt][idx] == 0 {
        credits := credits[tgt := credits[tgt][idx := weights[idx]]];
        ModIsAt(nInit, idx, 1);
        wrrPtr := wrrPtr[tgt := (idx + 1) % nInit];
      }
      assert At(tgt).credits == Spend(old(At(tgt)), idx, weights).port.credits;
      assert At(tgt) == Spend(old(At(tgt)), idx, weights).port;
    }
  }
}

/** Waiting-time bounds and bandwidth shares of the NoC arbiter, over arbitrary call sequences. */
module NocFairness {
  import opened CyclicScan
  import opened NocArbiter

  ghost predicate ValidPorts(n: nat, ports: seq<Port>) {
    forall t :: 0 <= t < |ports| ==> ValidPort(n, ports[t])
  }

  /** Calls an arbiter with `n` initiators and `m` targets may receive, in any mode, for any
      target, from any mix of requesters. */
  ghost predicate ValidCalls(n: nat, m: nat, cs: seq<Call>) {
    forall k :: 0 <= k < |cs| ==> cs[k].tgt < m && ValidCall(n, cs[k])
  }

  ghost function Winner(ports: seq<Port>, c: Call): nat
    requires c.tgt < |ports| && ValidPort(|c.requests|, ports[c.tgt]) && ValidCall(|c.requests|, c)
  {
    Decide(ports[c.tgt], c).winner
  }

  ghost function After(n: nat, ports: seq<Port>, c: Call): (ps: seq<Port>)
    requires ValidPorts(n, ports) && c.tgt < |ports| && ValidCall(n, c)
    ensures ValidPorts(n, ps) && |ps| == |ports|
  {
    GrantsARequester(ports[c.tgt], c);
    ports[c.tgt := Decide(ports[c.tgt], c).port]
  }

  ghost function Replay(n: nat, ports: seq<Port>, cs: seq<Call>): (ps: seq<Port>)
    requires ValidPorts(n, ports) && ValidCalls(n, |ports|, cs)
    ensures ValidPorts(n, ps) && |ps| == |ports|
    decreases |cs|
  {
    if cs == [] then ports else Replay(n, After(n, ports, cs[0]), cs[1..])
  }

  /** How many of the calls arbitrate target `t` in the given mode. */
  ghost function Rounds(cs: seq<Call>, t: nat, mode: nat): nat {
    if cs == [] then 0
    else (if cs[0].tgt == t && cs[0].mode == mode then 1 else 0) + Rounds(cs[1..], t, mode)
  }

  /** Call `k` of the sequence arbitrates target `t` in the given mode and grants `i`. */
  ghost predicate Grants(n: nat, ports: seq<Port>, cs: seq<Call>, k: nat, t: nat, mode: nat, i: nat)
    requires ValidPorts(n, ports) && ValidCalls(n, |ports|, cs) && k < |cs|
  {
    cs[k].tgt == t && cs[k].mode == mode && Winner(Replay(n, ports, cs[..k]), cs[k]) == i
  }

  lemma GrantsLater(n: nat, ports: seq<Port>, cs: seq<Call>, k: nat, t: nat, mode: nat, i: nat)
    requires ValidPorts(n, ports) && ValidCalls(n, |ports|, cs) && 0 < k < |cs|
    requires Grants(n, After(n, ports, cs[0]), cs[1..], k - 1, t, mode, i)
    ensures Grants(n, ports, cs, k, t, mode, i)
  {
    assert cs[..k][1..] == cs[1..][..k - 1];
  }

  // ---------- Round-robin: bounded waiting ----------

  /** One round-robin round at a port either grants `i` or brings the scan closer to it. */
  lemma RoundRobinProgress(p: Port, c: Call, i: nat)
    requires ValidPort(|c.requests|, p) && ValidCall(|c.requests|, c) && c.mode == MODE_ROUND_ROBIN
    requires i < |c.requests| && Eligible(c)[i]
    ensures Decide(p, c).winner < |c.requests|
    ensures Decide(p, c).winner != i ==>
      Dist(|c.requests|, Next(|c.requests|, Decide(p, c).port.rr), i) < Dist(|c.requests|, Next(|c.requests|, p.rr), i)
  {
    var n, start := |c.requests|, Next(|c.requests|, p.rr);
    var w := Nearest(Eligible(c), start);
    assert Somewhere(Eligible(c));
    if w != i {
      assert Dist(n, start, w) != Dist(n, start, i) by {
        assert At(n, start, Dist(n, start, w)) == w && At(n, start, Dist(n, start, i)) == i;
      }
      StartPastWinner(n, start, w, i);
    }
  }

  /** An initiator that is eligible in every round-robin round of target `t` (it keeps
      requesting and, with QoS, nobody requesting outranks it) is granted once the scan has
      covered its distance, whatever the others do, whatever happens at other targets and
      whatever rounds of other modes come in between. */
  lemma {:induction false} RoundRobinServes(n: nat, ports: seq<Port>, cs: seq<Call>, t: nat, i: nat) returns (k: nat)
    requires ValidPorts(n, ports) && ValidCalls(n, |ports|, cs) && t < |ports| && i < n
    requires forall j :: 0 <= j < |cs| && cs[j].tgt == t && cs[j].mode == MODE_ROUND_ROBIN ==> Eligible(cs[j])[i]
    requires Rounds(cs, t, MODE_ROUND_ROBIN) > Dist(n, Next(n, ports[t].rr), i)
    ensures k < |cs| && Grants(n, ports, cs, k, t, MODE_ROUND_ROBIN, i)
    decreases |cs|
  {
    var next := After(n, ports, cs[0]);
    if cs[0].tgt == t && cs[0].mode == MODE_ROUND_ROBIN {
      RoundRobinProgress(ports[t], cs[0], i);
      if Winner(ports, cs[0]) == i {
        return 0;
      }
    }
    k := RoundRobinServes(n, next, cs[1..], t, i);
    k := k + 1;
    GrantsLater(n, ports, cs, k, t, MODE_ROUND_ROBIN, i);
  }

  /** Hence within `n` rounds. */
  lemma RoundRobinServesWithinN(n: nat, ports: seq<Port>, cs: seq<Call>, t: nat, i: nat)
    requires ValidPorts(n, ports) && ValidCalls(n, |ports|, cs) && t < |ports| && i < n
    requires forall j :: 0 <= j < |cs| && cs[j].tgt == t && cs[j].mode == MODE_ROUND_ROBIN ==> Eligible(cs[j])[i]
    requires Rounds(cs, t, MODE_ROUND_ROBIN) >= n
    ensures exists k :: 0 <= k < |cs| && Grants(n, ports, cs, k, t, MODE_ROUND_ROBIN, i)
  {
    var k := RoundRobinServes(n, ports, cs, t, i);
  }

  // ---------- Sums over an arc of the ring ----------

  ghost function Arc(c: seq<nat>, start: nat, k: nat): nat
    requires start < |c| && k <= |c|
  {
    if k == 0 then 0 else Arc(c, start, k - 1) + c[At(|c|, start, k - 1)]
  }

  lemma {:induction false} ArcSplit(c: seq<nat>, start: nat, a: nat, b: nat)
    requires start < |c| && a + b <= |c|
    ensures Arc(c, start, a + b) == Arc(c, start, a) + Arc(c, At(|c|, start, a), b)
    decreases b
  {
    if b > 0 {
      ArcSplit(c, start, a, b - 1);
    }
  }

  lemma {:induction false} ArcUpdate(c: seq<nat>, start: nat, k: nat, w: nat, v: nat)
    requires start < |c| && k <= |c| && w < |c|
    ensures Arc(c[w := v], start, k) == Arc(c, start, k) + if Dist(|c|, start, w) < k then v - c[w] else 0
  {
    if k > 0 {
      ArcUpdate(c, start, k - 1, w, v);
      DistOfAt(|c|, start, k - 1);
    }
  }

  lemma {:induction false} ArcBound(c: seq<nat>, start: nat, k: nat, top: nat)
    requires start < |c| && k <= |c|
    requires forall i :: 0 <= i < |c| ==> c[i] <= top
    ensures Arc(c, start, k) <= top * k
  {
    if k > 0 {
      ArcBound(c, start, k - 1, top);
    }
  }

  // ---------- Weighted round-robin: no starvation ----------

  /** What the router guarantees of weights (the WEIGHT register clamps 0 to 1). */
  ghost predicate LegalWeights(w: seq<nat>) {
    forall i :: 0 <= i < |w| ==> 1 <= w[i] <= 255
  }

  ghost predicate LegalPort(n: nat, p: Port) {
    ValidPort(n, p) && LegalWeights(p.credits)
  }

  /** From credits in 1..255 the reload-and-rescan fallback is unreachable whenever somebody
      requests: the winner is simply the nearest requester, and credits stay in 1..255. */
  lemma WeightedNeverFallsBack(p: Port, requests: seq<bool>, weights: seq<nat>)
    requires LegalPort(|requests|, p) && LegalWeights(weights) && |weights| == |requests|
    ensures LegalPort(|requests|, Weighted(p, requests, weights).port)
    ensures Somewhere(requests) ==>
      Nearest(requests, p.wrr) < |requests| &&
      Weighted(p, requests, weights) == Spend(p, Nearest(requests, p.wrr), weights)
  {
    assert Funded(p, requests) == requests;
  }

  /** The credits that can still be spent before the scan reaches `i`. */
  ghost function CreditsAhead(n: nat, p: Port, i: nat): nat
    requires ValidPort(n, p) && i < n
  {
    Arc(p.credits, p.wrr, Dist(n, p.wrr, i))
  }

  /** Spending a credit on the way to `i` leaves fewer credits ahead of `i`. */
  lemma SpendProgress(p: Port, w: nat, weights: seq<nat>, i: nat)
    requires LegalPort(|weights|, p) && LegalWeights(weights)
    requires w < |weights| && i < |weights|
    requires Dist(|weights|, p.wrr, w) < Dist(|weights|, p.wrr, i)
    ensures ValidPort(|weights|, Spend(p, w, weights).port)
    ensures CreditsAhead(|weights|, Spend(p, w, weights).port, i) < CreditsAhead(|weights|, p, i)
  {
    if p.credits[w] == 1 {
      LastCreditProgress(p, w, weights, i);
    } else {
      ArcUpdate(p.credits, p.wrr, Dist(|weights|, p.wrr, i), w, p.credits[w] - 1);
    }
  }

  lemma LastCreditProgress(p: Port, w: nat, weights: seq<nat>, i: nat)
    requires LegalPort(|weights|, p) && |weights| == |p.credits|
    requires w < |weights| && i < |weights| && p.credits[w] == 1
    requires Dist(|weights|, p.wrr, w) < Dist(|weights|, p.wrr, i)
    ensures
      CreditsAhead(|weights|, p.(credits := p.credits[w := weights[w]], wrr := Next(|weights|, w)), i)
        < CreditsAhead(|weights|, p, i)
  {
    var n := |weights|;
    var dw, di := Dist(n, p.wrr, w), Dist(n, p.wrr, i);
    StartPastWinner(n, p.wrr, w, i);
    ArcUpdate(p.credits, Next(n, w), di - dw - 1, w, weights[w]);
    ArcSplit(p.credits, p.wrr, dw + 1, di - dw - 1);
  }

  /** Every weighted round that `i` requests and loses spends one of those credits, and nothing
      ever adds to them. */
  lemma WeightedProgress(p: Port, requests: seq<bool>, weights: seq<nat>, i: nat)
    requires LegalPort(|requests|, p) && LegalWeights(weights) && |weights| == |requests|
    requires i < |requests| && requests[i]
    ensures LegalPort(|requests|, Weighted(p, requests, weights).port)
    ensures Weighted(p, requests, weights).winner != i ==>
      CreditsAhead(|requests|, Weighted(p, requests, weights).port, i) < CreditsAhead(|requests|, p, i)
  {
    hide Weighted, CreditsAhead;
    WeightedNeverFallsBack(p, requests, weights);
    var n := |requests|;
    assert Somewhere(requests);
    var w := Nearest(requests, p.wrr);
    if w != i {
      assert At(n, p.wrr, Dist(n, p.wrr, w)) == w && At(n, p.wrr, Dist(n, p.wrr, i)) == i;
      SpendProgress(p, w, weights, i);
    }
  }

  ghost predicate LegalPorts(n: nat, ports: seq<Port>) {
    forall t :: 0 <= t < |ports| ==> LegalPort(n, ports[t])
  }

  lemma AfterIsLegal(n: nat, ports: seq<Port>, c: Call)
    requires LegalPorts(n, ports) && c.tgt < |ports| && ValidCall(n, c) && LegalWeights(c.weights)
    ensures LegalPorts(n, After(n, ports, c))
  {
    WeightedNeverFallsBack(ports[c.tgt], c.requests, c.weights);
  }

  /** An initiator that requests in every weighted round of target `t` is granted once more
      rounds have passed than there are credits ahead of it: whatever the others request,
      however the weights are rewritten between rounds, whatever other calls come in between. */
  lemma {:induction false} WeightedServes(n: nat, ports: seq<Port>, cs: seq<Call>, t: nat, i: nat) returns (k: nat)
    requires LegalPorts(n, ports) && ValidCalls(n, |ports|, cs) && t < |ports| && i < n
    requires forall j :: 0 <= j < |cs| ==> LegalWeights(cs[j].weights)
    requires forall j :: 0 <= j < |cs| && cs[j].tgt == t && cs[j].mode == MODE_WEIGHTED_RR ==> cs[j].requests[i]
    requires Rounds(cs, t, MODE_WEIGHTED_RR) > CreditsAhead(n, ports[t], i)
    ensures k < |cs| && Grants(n, ports, cs, k, t, MODE_WEIGHTED_RR, i)
    decreases |cs|
  {
    var next := After(n, ports, cs[0]);
    AfterIsLegal(n, ports, cs[0]);
    if cs[0].tgt == t && cs[0].mode == MODE_WEIGHTED_RR {
      WeightedProgress(ports[t], cs[0].requests, cs[0].weights, i);
      if Winner(ports, cs[0]) == i {
        return 0;
      }
    }
    k := WeightedServes(n, next, cs[1..], t, i);
    k := k + 1;
    GrantsLater(n, ports, cs, k, t, MODE_WEIGHTED_RR, i);
  }

  /** Hence after at most `255 * (n - 1)` other grants. */
  lemma WeightedServesWithinBound(n: nat, ports: seq<Port>, cs: seq<Call>, t: nat, i: nat)
    requires LegalPorts(n, ports) && ValidCalls(n, |ports|, cs) && t < |ports| && i < n
    requires forall j :: 0 <= j < |cs| ==> LegalWeights(cs[j].weights)
    requires forall j :: 0 <= j < |cs| && cs[j].tgt == t && cs[j].mode == MODE_WEIGHTED_RR ==> cs[j].requests[i]
    requires Rounds(cs, t, MODE_WEIGHTED_RR) > 255 * (n - 1)
    ensures exists k :: 0 <= k < |cs| && Grants(n, ports, cs, k, t, MODE_WEIGHTED_RR, i)
  {
    var p := ports[t];
    assert LegalPort(n, p);
    ArcBound(p.credits, p.wrr, Dist(n, p.wrr, i), 255);
    var k := WeightedServes(n, ports, cs, t, i);
  }

  // ---------- Weighted round-robin: proportional share ----------

  /** Everybody requests, all the time, with fixed weights. */
  ghost function Everyone(n: nat): (r: seq<bool>)
    ensures |r| == n && forall i :: 0 <= i < n ==> r[i]
  {
    seq(n, i => true)
  }

  /** A round of the weighted mode in which everyone requests: the scan position is granted. */
  ghost function Busy(p: Port, weights: seq<nat>): (g: Grant)
    requires LegalPort(|weights|, p) && LegalWeights(weights)
    ensures LegalPort(|weights|, g.port)
  {
    Spend(p, p.wrr, weights)
  }

  lemma BusyIsWeighted(p: Port, weights: seq<nat>)
    requires LegalPort(|weights|, p) && LegalWeights(weights)
    ensures Weighted(p, Everyone(|weights|), weights) == Busy(p, weights)
  {
    hide Weighted;
    var all := Everyone(|weights|);
    assert all[p.wrr];
    NearestUnique(all, p.wrr, p.wrr);
    WeightedNeverFallsBack(p, all, weights);
  }

  /** The winners of `k` consecutive busy rounds, and the port afterwards. */
  ghost function Winners(p: Port, weights: seq<nat>, k: nat): (ws: seq<nat>)
    requires LegalPort(|weights|, p) && LegalWeights(weights)
    ensures |ws| == k
    decreases k
  {
    if k == 0 then [] else [Busy(p, weights).winner] + Winners(Busy(p, weights).port, weights, k - 1)
  }

  ghost function End(p: Port, weights: seq<nat>, k: nat): (q: Port)
    requires LegalPort(|weights|, p) && LegalWeights(weights)
    ensures LegalPort(|weights|, q)
    decreases k
  {
    if k == 0 then p else End(Busy(p, weights).port, weights, k - 1)
  }

  lemma {:induction false} BusySplit(p: Port, weights: seq<nat>, a: nat, b: nat)
    requires LegalPort(|weights|, p) && LegalWeights(weights)
    ensures End(p, weights, a + b) == End(End(p, weights, a), weights, b)
    ensures Winners(p, weights, a + b) == Winners(p, weights, a) + Winners(End(p, weights, a), weights, b)
    decreases a
  {
    hide Busy;
    if a > 0 {
      BusySplit(Busy(p, weights).port, weights, a - 1, b);
    }
  }

  /** While everyone requests the scan stays on its slot until the credits there are gone. */
  lemma {:induction false} OneTurn(p: Port, weights: seq<nat>)
    requires LegalPort(|weights|, p) && LegalWeights(weights)
    ensures var w := p.wrr;
      && End(p, weights, p.credits[w]) == p.(credits := p.credits[w := weights[w]], wrr := Next(|weights|, w))
      && forall j :: 0 <= j < p.credits[w] ==> Winners(p, weights, p.credits[w])[j] == w
    decreases p.credits[p.wrr]
  {
    var w, q := p.wrr, Busy(p, weights).port;
    if p.credits[w] > 1 {
      OneTurn(q, weights);
      assert q.credits[w := weights[w]] == p.credits[w := weights[w]];
    }
  }

  ghost function Count(s: seq<nat>, i: nat): nat {
    multiset(s)[i]
  }

  lemma CountAppend(a: seq<nat>, b: seq<nat>, i: nat)
    ensures Count(a + b, i) == Count(a, i) + Count(b, i)
  {}

  lemma CountSame(s: seq<nat>, w: nat, i: nat)
    requires forall j :: 0 <= j < |s| ==> s[j] == w
    ensures Count(s, i) == if i == w then |s| else 0
  {
    if s != [] {
      assert s == [s[0]] + s[1..];
      CountSame(s[1..], w, i);
      CountAppend([s[0]], s[1..], i);
    }
  }

  /** `k` turns: each initiator on the arc has been granted its weight, nobody else anything. */
  lemma {:induction false} Turns(p: Port, weights: seq<nat>, k: nat, i: nat)
    requires LegalPort(|weights|, p) && LegalWeights(weights) && p.credits == weights
    requires k <= |weights| && i < |weights|
    ensures End(p, weights, Arc(weights, p.wrr, k)) == p.(wrr := At(|weights|, p.wrr, k))
    ensures Count(Winners(p, weights, Arc(weights, p.wrr, k)), i) ==
      if Dist(|weights|, p.wrr, i) < k then weights[i] else 0
  {
    hide Busy, Count;
    CountSame([], i, i);
    if k > 0 {
      var n := |weights|;
      Turns(p, weights, k - 1, i);
      var a := Arc(weights, p.wrr, k - 1);
      var q := End(p, weights, a);
      BusySplit(p, weights, a, weights[q.wrr]);
      OneTurn(q, weights);
      CountAppend(Winners(p, weights, a), Winners(q, weights, weights[q.wrr]), i);
      CountSame(Winners(q, weights, weights[q.wrr]), q.wrr, i);
      DistOfAt(n, p.wrr, k - 1);
    }
  }

  ghost function Sum(w: seq<nat>): nat
    requires 0 < |w|
  {
    Arc(w, 0, |w|)
  }

  lemma ArcAllIsSum(w: seq<nat>, start: nat)
    requires start < |w|
    ensures Arc(w, start, |w|) == Sum(w)
  {
    ArcSplit(w, start, |w| - start, start);
    ArcSplit(w, 0, start, |w| - start);
  }

  /** One full cycle takes as many rounds as the weights sum to, grants each initiator exactly
      its weight and returns the port to where it was. */
  lemma OneCycle(p: Port, weights: seq<nat>, i: nat)
    requires LegalPort(|weights|, p) && LegalWeights(weights) && p.credits == weights && i < |weights|
    ensures End(p, weights, Sum(weights)) == p
    ensures Count(Winners(p, weights, Sum(weights)), i) == weights[i]
  {
    ArcAllIsSum(weights, p.wrr);
    Turns(p, weights, |weights|, i);
  }

  /** The same from any later moment: the grant sequence is periodic, and dropping its first
      winner only moves that winner to the end of the cycle. */
  lemma {:induction false} AnyCycle(p: Port, weights: seq<nat>, m: nat, i: nat)
    requires LegalPort(|weights|, p) && LegalWeights(weights) && p.credits == weights && i < |weights|
    ensures End(End(p, weights, m), weights, Sum(weights)) == End(p, weights, m)
    ensures Count(Winners(End(p, weights, m), weights, Sum(weights)), i) == weights[i]
    decreases m
  {
    hide Busy, Sum, Count;
    var s := Sum(weights);
    if m == 0 {
      OneCycle(p, weights, i);
    } else {
      AnyCycle(p, weights, m - 1, i);
      var q := End(p, weights, m - 1);
      BusySplit(p, weights, m - 1, 1);
      var r := End(q, weights, 1);
      BusySplit(q, weights, 1, s);
      BusySplit(q, weights, s, 1);
      var head, mid := Winners(q, weights, 1), Winners(r, weights, s);
      assert Winners(q, weights, 1 + s) == head + mid;
      assert Winners(q, weights, s + 1) == Winners(q, weights, s) + head;
      CountAppend(head, mid, i);
      CountAppend(Winners(q, weights, s), head, i);
    }
  }

  /** Once the credits equal the weights, every window of whole cycles is shared exactly. */
  lemma {:induction false} SettledShare(p: Port, weights: seq<nat>, m: nat, cycles: nat, i: nat)
    requires LegalPort(|weights|, p) && LegalWeights(weights) && p.credits == weights && i < |weights|
    ensures End(End(p, weights, m), weights, cycles * Sum(weights)) == End(p, weights, m)
    ensures Count(Winners(End(p, weights, m), weights, cycles * Sum(weights)), i) == cycles * weights[i]
    decreases cycles
  {
    hide Busy, Sum, Count;
    CountSame([], i, i);
    if cycles > 0 {
      var q, s := End(p, weights, m), Sum(weights);
      SettledShare(p, weights, m, cycles - 1, i);
      AnyCycle(p, weights, m, i);
      assert cycles * s == s + (cycles - 1) * s;
      assert cycles * weights[i] == weights[i] + (cycles - 1) * weights[i];
      BusySplit(q, weights, s, (cycles - 1) * s);
      CountAppend(Winners(q, weights, s), Winners(q, weights, (cycles - 1) * s), i);
      assert End(q, weights, cycles * s) == End(q, weights, (cycles - 1) * s);
    }
  }

  // ---------- From any legal credits ----------

  lemma {:induction false} FirstTurns(p: Port, weights: seq<nat>, k: nat)
    requires LegalPort(|weights|, p) && LegalWeights(weights) && k <= |weights|
    ensures var q := End(p, weights, Arc(p.credits, p.wrr, k));
      && q.rr == p.rr && q.wrr == At(|weights|, p.wrr, k)
      && forall j :: 0 <= j < |weights| ==>
        q.credits[j] == if Dist(|weights|, p.wrr, j) < k then weights[j] else p.credits[j]
    decreases k
  {
    hide Busy;
    if k > 0 {
      var n := |weights|;
      FirstTurns(p, weights, k - 1);
      var a := Arc(p.credits, p.wrr, k - 1);
      var q := End(p, weights, a);
      DistOfAt(n, p.wrr, k - 1);
      BusySplit(p, weights, a, q.credits[q.wrr]);
      OneTurn(q, weights);
    }
  }

  /** Whatever the credits to begin with, once everyone requests they equal the weights after one
      rotation, that is after as many rounds as there were credits. */
  lemma OneRotationSettles(p: Port, weights: seq<nat>)
    requires LegalPort(|weights|, p) && LegalWeights(weights)
    ensures End(p, weights, Arc(p.credits, p.wrr, |weights|)) == p.(credits := weights)
  {
    hide Arc, End, Dist;
    FirstTurns(p, weights, |weights|);
    var q := End(p, weights, Arc(p.credits, p.wrr, |weights|));
    assert q.credits == weights;
  }

  /** Proportional share: with every initiator requesting continuously and fixed weights, from any
      legal credits, any `cycles * Sum(weights)` consecutive grants after the first rotation,
      wherever the window starts, give initiator `i` exactly `cycles * weights[i]` of them, and
      the port is back where it was. */
  lemma ProportionalShare(p: Port, weights: seq<nat>, m: nat, cycles: nat, i: nat)
    requires LegalPort(|weights|, p) && LegalWeights(weights) && i < |weights|
    requires m >= Arc(p.credits, p.wrr, |weights|)
    ensures End(End(p, weights, m), weights, cycles * Sum(weights)) == End(p, weights, m)
    ensures Count(Winners(End(p, weights, m), weights, cycles * Sum(weights)), i) == cycles * weights[i]
  {
    hide Busy, Sum, Count, End, Winners, Arc;
    var a := Arc(p.credits, p.wrr, |weights|);
    OneRotationSettles(p, weights);
    BusySplit(p, weights, a, m - a);
    SettledShare(p.(credits := weights), weights, m - a, cycles, i);
  }

  // ---------- The share over call sequences of the whole arbiter ----------

  /** Every call for target `t` is a weighted one in which everyone requests, with these weights;
      calls for other targets may be anything. */
  ghost predicate BusyAt(cs: seq<Call>, t: nat, weights: seq<nat>) {
    forall k :: 0 <= k < |cs| && cs[k].tgt == t ==>
      cs[k].mode == MODE_WEIGHTED_RR && cs[k].requests == Everyone(|weights|) && cs[k].weights == weights
  }

  /** The winners at target `t`, in order. */
  ghost function GrantsOf(n: nat, ports: seq<Port>, cs: seq<Call>, t: nat): (ws: seq<nat>)
    requires ValidPorts(n, ports) && ValidCalls(n, |ports|, cs)
    decreases |cs|
  {
    if cs == [] then []
    else (if cs[0].tgt == t then [Winner(ports, cs[0])] else []) + GrantsOf(n, After(n, ports, cs[0]), cs[1..], t)
  }

  lemma {:induction false} ReplayIsBusy(ports: seq<Port>, cs: seq<Call>, t: nat, weights: seq<nat>)
    requires ValidPorts(|weights|, ports) && ValidCalls(|weights|, |ports|, cs) && BusyAt(cs, t, weights)
    requires t < |ports| && LegalPort(|weights|, ports[t]) && LegalWeights(weights)
    ensures var n, r := |weights|, Rounds(cs, t, MODE_WEIGHTED_RR);
      && GrantsOf(n, ports, cs, t) == Winners(ports[t], weights, r)
      && Replay(n, ports, cs)[t] == End(ports[t], weights, r)
    decreases |cs|
  {
    hide Busy, Weighted;
    if cs != [] {
      var next := After(|weights|, ports, cs[0]);
      if cs[0].tgt == t {
        BusyIsWeighted(ports[t], weights);
      }
      ReplayIsBusy(next, cs[1..], t, weights);
    }
  }

  /** The share of initiator `i` at target `t` over any call sequence: after a run `warm` that
      holds at least one rotation at `t`, the next `cycles * Sum(weights)` grants at `t` contain
      exactly `cycles * weights[i]` for `i`, whatever happens at other targets in between. */
  lemma BandwidthShare(ports: seq<Port>, warm: seq<Call>, cs: seq<Call>, t: nat, weights: seq<nat>, cycles: nat, i: nat)
    requires ValidPorts(|weights|, ports) && ValidCalls(|weights|, |ports|, warm) && ValidCalls(|weights|, |ports|, cs)
    requires BusyAt(warm, t, weights) && BusyAt(cs, t, weights)
    requires t < |ports| && LegalPort(|weights|, ports[t]) && LegalWeights(weights) && i < |weights|
    requires Rounds(warm, t, MODE_WEIGHTED_RR) >= Arc(ports[t].credits, ports[t].wrr, |weights|)
    requires Rounds(cs, t, MODE_WEIGHTED_RR) == cycles * Sum(weights)
    ensures Count(GrantsOf(|weights|, Replay(|weights|, ports, warm), cs, t), i) == cycles * weights[i]
  {
    hide End, Winners, Count, Sum, Arc, Rounds, BusyAt, Replay, GrantsOf;
    ReplayIsBusy(ports, warm, t, weights);
    ReplayIsBusy(Replay(|weights|, ports, warm), cs, t, weights);
    ProportionalShare(ports[t], weights, Rounds(warm, t, MODE_WEIGHTED_RR), cycles, i);
  }

  /** From power-up, with every credit at 1, a rotation is one round per initiator. */
  lemma {:induction false} PowerUpRotation(n: nat, start: nat, k: nat)
    requires start < n && k <= n
    ensures Arc(seq(n, i => 1), start, k) == k
    decreases k
  {
    if k > 0 {
      PowerUpRotation(n, start, k - 1);
    }
  }
}

/** Fairness of the DMA arbitration, over arbitrary sequences of arbitrations: channels may start,
stop and change priority between any two of them. */
module DmaArbiter {
  import opened CyclicScan
  import opened DmaState

  /** What one arbitration sees. */
  datatype Scene = Scene(running: seq<bool>, prio: seq<nat>)

  ghost predicate Scenes(n: nat, vs: seq<Scene>) {
    forall k :: 0 <= k < |vs| ==> |vs[k].running| == |vs[k].prio| == n
  }

  ghost function Pick(a: Arb, v: Scene): (c: Choice)
    requires |v.running| == |v.prio| && a.rr < |v.prio|
    ensures c.arb.rr < |v.prio|
  {
    Choose(a, v.running, v.prio)
  }

  ghost function ArbAfter(n: nat, a: Arb, vs: seq<Scene>): (r: Arb)
    requires a.rr < n && Scenes(n, vs)
    ensures r.rr < n
    decreases |vs|
  {
    if vs == [] then a else ArbAfter(n, Pick(a, vs[0]).arb, vs[1..])
  }

  /** The arbiter's state just before arbitration `k`. */
  ghost function ArbAt(n: nat, a: Arb, vs: seq<Scene>, k: nat): (r: Arb)
    requires a.rr < n && Scenes(n, vs) && k <= |vs|
    ensures r.rr < n
  {
    ArbAfter(n, a, vs[..k])
  }

  lemma {:induction false} ArbAtNext(n: nat, a: Arb, vs: seq<Scene>, k: nat)
    requires a.rr < n && Scenes(n, vs) && k < |vs|
    ensures ArbAt(n, a, vs, k + 1) == Pick(ArbAt(n, a, vs, k), vs[k]).arb
    decreases k
  {
    hide Pick;
    var head := vs[..k + 1];
    if k == 0 {
      assert head == [vs[0]];
      assert ArbAfter(n, a, [vs[0]]) == ArbAfter(n, Pick(a, vs[0]).arb, []);
    } else {
      ArbAtNext(n, Pick(a, vs[0]).arb, vs[1..], k - 1);
      assert head[1..] == vs[1..][..k];
      assert vs[..k][1..] == vs[1..][..k - 1];
    }
  }

  ghost predicate ForcedAt(n: nat, a: Arb, vs: seq<Scene>, k: nat)
    requires a.rr < n && Scenes(n, vs) && k < |vs|
  {
    Forced(ArbAt(n, a, vs, k), vs[k].running, vs[k].prio)
  }

  ghost function GrantAt(n: nat, a: Arb, vs: seq<Scene>, k: nat): nat
    requires a.rr < n && Scenes(n, vs) && k < |vs|
  {
    Pick(ArbAt(n, a, vs, k), vs[k]).sel
  }

  /** In arbitration `k` the top priority is `p`, and something runs below it. */
  ghost predicate Contended(v: Scene, p: int)
    requires |v.running| == |v.prio|
  {
    p >= 0 && Top(v.running, v.prio) == p && NextTop(v.running, v.prio) >= 0
  }

  /** The consecutive count grows until it forces a grant. */
  lemma {:induction false} CountGrows(n: nat, a: Arb, vs: seq<Scene>, p: int, k: nat)
    requires a.rr < n && Scenes(n, vs) && k <= |vs|
    requires forall j :: 0 <= j < |vs| ==> Contended(vs[j], p)
    requires forall j :: 0 <= j < k ==> !ForcedAt(n, a, vs, j)
    ensures ArbAt(n, a, vs, k).consec >= k
    ensures k > 0 ==> ArbAt(n, a, vs, k).last == p
    decreases k
  {
    hide Top, NextTop, Level, ArbAt;
    if k > 0 {
      CountGrows(n, a, vs, p, k - 1);
      ArbAtNext(n, a, vs, k - 1);
      assert !ForcedAt(n, a, vs, k - 1);
      assert Contended(vs[k - 1], p);
    }
  }

  /** Channel `i` is running at priority `p`. */
  ghost predicate Serves(v: Scene, i: nat, p: int)
    requires |v.running| == |v.prio|
  {
    i < |v.prio| && v.running[i] && v.prio[i] == p
  }

  /** Starvation prevention: in any eight consecutive arbitrations with a constant top priority
      and something running below it, at least one grant goes to a channel of the highest level
      below the top, whatever the arbiter's state before. */
  lemma EightArbitrationsServeBelow(n: nat, a: Arb, vs: seq<Scene>, p: int)
    requires a.rr < n && Scenes(n, vs) && |vs| == 8
    requires forall j :: 0 <= j < |vs| ==> Contended(vs[j], p)
    ensures exists k :: 0 <= k < 8 && ForcedAt(n, a, vs, k)
    ensures exists k :: 0 <= k < 8 && Serves(vs[k], GrantAt(n, a, vs, k), NextTop(vs[k].running, vs[k].prio))
  {
    hide Top, NextTop, ArbAfter;
    var k: nat := 7;
    if j: nat :| j < 7 && ForcedAt(n, a, vs, j) {
      k := j;
    } else {
      CountGrows(n, a, vs, p, 7);
      assert Contended(vs[7], p);
    }
    assert ForcedAt(n, a, vs, k);
    assert Contended(vs[k], p);
    ChooseFinds(ArbAt(n, a, vs, k), vs[k].running, vs[k].prio);
    assert Serves(vs[k], GrantAt(n, a, vs, k), NextTop(vs[k].running, vs[k].prio));
  }

  lemma {:induction false} CountAfterForce(n: nat, a: Arb, vs: seq<Scene>, i: nat, m: nat)
    requires a.rr < n && Scenes(n, vs) && i + 1 + m <= |vs| && ForcedAt(n, a, vs, i)
    ensures ArbAt(n, a, vs, i + 1 + m).consec <= m
    decreases m
  {
    hide Level, ArbAt;
    ArbAtNext(n, a, vs, i + m);
    if m > 0 {
      CountAfterForce(n, a, vs, i, m - 1);
    } else {
      ChooseFinds(ArbAt(n, a, vs, i), vs[i].running, vs[i].prio);
    }
  }

  /** ... and no more often than that: between two forced grants there are at least seven
      unforced ones, whatever runs. */
  lemma ForcedGrantsAreRare(n: nat, a: Arb, vs: seq<Scene>, i: nat, j: nat)
    requires a.rr < n && Scenes(n, vs) && i < j < |vs|
    requires ForcedAt(n, a, vs, i) && ForcedAt(n, a, vs, j)
    ensures j - i >= 8
  {
    hide ArbAt, Top, NextTop;
    if j - i < 8 {
      CountAfterForce(n, a, vs, i, j - i - 1);
    }
  }

  // ---------- Round-robin within one level ----------

  /** Channel `i` runs and everything running has its priority. */
  ghost predicate OneLevel(v: Scene, i: nat)
    requires |v.running| == |v.prio|
  {
    i < |v.prio| && v.running[i] && v.prio[i] < NO_LIMIT &&
    forall j :: 0 <= j < |v.prio| && v.running[j] ==> v.prio[j] == v.prio[i]
  }

  lemma OneLevelPicksNearest(a: Arb, v: Scene, i: nat)
    requires |v.running| == |v.prio| && a.rr < |v.prio| && OneLevel(v, i)
    ensures Nearest(v.running, a.rr) < |v.prio|
    ensures Pick(a, v).sel == Nearest(v.running, a.rr)
    ensures Pick(a, v).arb.rr == Next(|v.prio|, Nearest(v.running, a.rr))
  {
    assert Somewhere(v.running);
    assert Top(v.running, v.prio) == v.prio[i];
    assert NextTop(v.running, v.prio) == -1;
    assert Level(v.running, v.prio, v.prio[i]) == v.running;
  }

  /** When all running channels share one priority (which may change from arbitration to
      arbitration), a channel that keeps running is granted within `n` arbitrations. */
  lemma {:induction false} OneLevelServes(n: nat, a: Arb, vs: seq<Scene>, i: nat) returns (k: nat)
    requires a.rr < n && Scenes(n, vs) && i < n
    requires forall j :: 0 <= j < |vs| ==> OneLevel(vs[j], i)
    requires |vs| > Dist(n, a.rr, i)
    ensures k <= Dist(n, a.rr, i) < n && GrantAt(n, a, vs, k) == i
    decreases |vs|
  {
    hide Pick, OneLevel;
    var w := Nearest(vs[0].running, a.rr);
    OneLevelPicksNearest(a, vs[0], i);
    assert vs[..0] == [];
    if w == i {
      k := 0;
    } else {
      assert vs[0].running[i] by { OneLevelRuns(vs[0], i); }
      assert At(n, a.rr, Dist(n, a.rr, w)) == w && At(n, a.rr, Dist(n, a.rr, i)) == i;
      StartPastWinner(n, a.rr, w, i);
      k := OneLevelServes(n, Pick(a, vs[0]).arb, vs[1..], i);
      k := k + 1;
      assert vs[..k][1..] == vs[1..][..k - 1];
    }
  }

  lemma OneLevelRuns(v: Scene, i: nat)
    requires |v.running| == |v.prio| && OneLevel(v, i)
    ensures v.running[i]
  {}

  // ---------- A limit of the scheme ----------

  /** Channel `top` runs, and everything else that runs has a lower priority. */
  ghost predicate OnlyTop(v: Scene, top: nat)
    requires |v.running| == |v.prio|
  {
    top < |v.prio| && v.running[top] && v.prio[top] < NO_LIMIT &&
    forall j :: 0 <= j < |v.prio| && v.running[j] && j != top ==> v.prio[j] < v.prio[top]
  }

  lemma TopIs(v: Scene, top: nat)
    requires |v.running| == |v.prio| && OnlyTop(v, top)
    ensures Top(v.running, v.prio) == v.prio[top]
  {}

  /** An unforced arbitration grants the top channel and leaves the scan pointer just past it. */
  lemma UnforcedGrantsTop(a: Arb, v: Scene, top: nat)
    requires |v.running| == |v.prio| && a.rr < |v.prio| && OnlyTop(v, top) && !Forced(a, v.running, v.prio)
    ensures Pick(a, v).sel == top && Pick(a, v).arb.rr == Next(|v.prio|, top)
  {
    hide Level, TopBelow, Forced;
    TopIs(v, top);
    ChooseFinds(a, v.running, v.prio);
  }

  /** The one channel of the next level that the scan meets first after `top`. */
  ghost function Heir(v: Scene, top: nat): nat
    requires |v.running| == |v.prio| && top < |v.prio|
  {
    Nearest(Level(v.running, v.prio, NextTop(v.running, v.prio)), Next(|v.prio|, top))
  }

  /** With one channel on top all along, every forced grant but possibly the first arbitration
      goes to the heir: the forced grants share the one scan pointer with the level above, which
      is always just past the top channel. */
  lemma ForcedGrantsTheHeir(n: nat, a: Arb, vs: seq<Scene>, k: nat, top: nat)
    requires a.rr < n && Scenes(n, vs) && 0 < k < |vs| && top < n
    requires forall j :: 0 <= j < |vs| ==> OnlyTop(vs[j], top)
    ensures GrantAt(n, a, vs, k) == if ForcedAt(n, a, vs, k) then Heir(vs[k], top) else top
  {
    hide ArbAt, Top, NextTop, Level, OnlyTop, Nearest;
    TopIsPlain(vs[k], top);
    if ForcedAt(n, a, vs, k) {
      if ForcedAt(n, a, vs, k - 1) {
        ForcedGrantsAreRare(n, a, vs, k - 1, k);
      }
      ArbAtNext(n, a, vs, k - 1);
      UnforcedGrantsTop(ArbAt(n, a, vs, k - 1), vs[k - 1], top);
      ChooseFinds(ArbAt(n, a, vs, k), vs[k].running, vs[k].prio);
    } else {
      UnforcedGrantsTop(ArbAt(n, a, vs, k), vs[k], top);
    }
  }

  lemma TopIsPlain(v: Scene, top: nat)
    requires |v.running| == |v.prio| && OnlyTop(v, top)
    ensures top < |v.prio| && Top(v.running, v.prio) >= 0
  {
    TopIs(v, top);
  }

  ghost function Constant(v: Scene, len: nat): (vs: seq<Scene>)
    ensures |vs| == len && forall k :: 0 <= k < len ==> vs[k] == v
  {
    seq(len, k => v)
  }

  /** The first arbitration, if forced, starts its scan wherever the pointer was left. */
  lemma FirstGrant(n: nat, a: Arb, vs: seq<Scene>, top: nat)
    requires a.rr < n && Scenes(n, vs) && vs != [] && top < n && OnlyTop(vs[0], top)
    ensures GrantAt(n, a, vs, 0) ==
      if ForcedAt(n, a, vs, 0)
      then Nearest(Level(vs[0].running, vs[0].prio, NextTop(vs[0].running, vs[0].prio)), a.rr)
      else top
  {
    hide Top, NextTop, Level, OnlyTop, Nearest;
    assert vs[..0] == [];
    TopIsPlain(vs[0], top);
    if !ForcedAt(n, a, vs, 0) {
      UnforcedGrantsTop(a, vs[0], top);
    } else {
      ChooseFinds(a, vs[0].running, vs[0].prio);
    }
  }

  /** Exactly who is served below a single top channel while the scene stays as it is: of all
      channels but the top one, the heir, the channel a forced first arbitration finds, and nobody
      else, however long the others wait. The level is treated fairly only if it has just one
      channel. */
  lemma ForcedLevelServesIff(n: nat, a: Arb, v: Scene, top: nat, i: nat, len: nat)
    requires |v.running| == |v.prio| == n && a.rr < n && top < n && OnlyTop(v, top) && NextTop(v.running, v.prio) >= 0
    requires i != top && len >= 9
    ensures (exists k :: 0 <= k < len && GrantAt(n, a, Constant(v, len), k) == i) <==>
      || i == Heir(v, top)
      || (Forced(a, v.running, v.prio) && i == Nearest(Level(v.running, v.prio, NextTop(v.running, v.prio)), a.rr))
  {
    hide ArbAt, Top, NextTop, Level, OnlyTop, Nearest, GrantAt, ForcedAt, Contended, Constant, Forced;
    var vs := Constant(v, len);
    FirstGrant(n, a, vs, top);
    FirstForced(n, a, vs);
    forall k | 0 < k < len && GrantAt(n, a, vs, k) == i
      ensures i == Heir(v, top)
    {
      ForcedGrantsTheHeir(n, a, vs, k, top);
    }
    if i == Heir(v, top) {
      var k := ForcedSoon(n, a, v, top, len);
      ForcedGrantsTheHeir(n, a, vs, k, top);
    }
  }

  lemma FirstForced(n: nat, a: Arb, vs: seq<Scene>)
    requires a.rr < n && Scenes(n, vs) && vs != []
    ensures ForcedAt(n, a, vs, 0) <==> Forced(a, vs[0].running, vs[0].prio)
  {
    hide Forced;
    assert vs[..0] == [];
  }

  lemma ForcedSoon(n: nat, a: Arb, v: Scene, top: nat, len: nat) returns (k: nat)
    requires |v.running| == |v.prio| == n && a.rr < n && top < n && OnlyTop(v, top) && NextTop(v.running, v.prio) >= 0
    requires len >= 9
    ensures 0 < k < len && ForcedAt(n, a, Constant(v, len), k)
  {
    hide Top, NextTop, Level, OnlyTop, ArbAt, Constant, Pick, Forced;
    TopIsPlain(v, top);
    var next := Pick(a, v).arb;
    EightArbitrationsServeBelow(n, next, Constant(v, 8), Top(v.running, v.prio));
    var m :| 0 <= m < 8 && ForcedAt(n, next, Constant(v, 8), m);
    k := m + 1;
    ConstantArb(n, a, v, len, m);
  }

  lemma ConstantArb(n: nat, a: Arb, v: Scene, len: nat, m: nat)
    requires |v.running| == |v.prio| == n && a.rr < n && m < 8 && len >= 9
    ensures ArbAt(n, a, Constant(v, len), m + 1) == ArbAt(n, Pick(a, v).arb, Constant(v, 8), m)
  {
    hide Pick;
    var vs := Constant(v, len)[..m + 1];
    assert vs[0] == v && vs[1..] == Constant(v, 8)[..m];
  }

  // ---------- The engine arbitrates this way ----------

  /** Every engine event is one such arbitration; when something runs it is followed by the burst
      of the channel granted, otherwise nothing happens. */
  lemma EngineArbitrates(d: Dma)
    requires WellFormed(d)
    ensures var c := Choose(d.arb, RunningOf(d.chs), PrioOf(d.chs));
      && EngineStep(d).arb == c.arb
      && (c.sel < |d.chs| <==> exists i :: 0 <= i < |d.chs| && d.chs[i].state == Running)
      && (c.sel < |d.chs| ==> d.chs[c.sel].state == Running && EngineStep(d) == Burst(d.(arb := c.arb), c.sel))
      && (c.sel >= |d.chs| ==> EngineStep(d) == d)
  {
    hide Choose, Burst, TopBelow;
    var running, prio := RunningOf(d.chs), PrioOf(d.chs);
    ChooseFinds(d.arb, running, prio);
    NothingRunning(d.arb, running, prio);
    if i: nat :| i < |d.chs| && d.chs[i].state == Running {
      assert running[i] && prio[i] < NO_LIMIT;
    }
  }

  lemma NothingRunning(a: Arb, running: seq<bool>, prio: seq<nat>)
    requires |running| == |prio| && a.rr < |prio|
    ensures Top(running, prio) < 0 ==> Choose(a, running, prio).arb == a
  {}
}

/** Linked channels run dry: without circular channels and with acyclic links the engine comes to
rest, and a measure says after how many bursts at most; with a cycle it never does. */
module DmaDrain {
  import opened Prelude
  import opened Words
  import opened DmaState
  import opened DmaInvariants
  import opened DmaConservation

  /** `live` contains the running channels and everything they link to, directly or not; no
      channel of `live` is circular, and its links descend in `rank`, so they form no cycle. */
  ghost predicate Drains(d: Dma, rank: seq<nat>, live: set<nat>) {
    && |rank| == |d.chs|
    && (forall i :: 0 <= i < |d.chs| && d.chs[i].state == Running ==> i in live)
    && (forall i :: 0 <= i < |d.chs| && i in live ==> !d.chs[i].ctrl.circular)
    && (forall i, t: nat :: i in live && LinksTo(d, i, t) ==> t in live && rank[t] < rank[i])
  }

  /** The bytes that the completion of channel `c` can still set in motion along its links. */
  ghost function Chain(chs: seq<Channel>, rank: seq<nat>, c: nat): nat
    requires |rank| == |chs| && c < |chs|
    decreases rank[c]
  {
    var ch := chs[c];
    if ch.link.on && ch.link.target < |chs| && rank[ch.link.target] < rank[c]
    then chs[ch.link.target].size + Chain(chs, rank, ch.link.target)
    else 0
  }

  ghost function Weight(chs: seq<Channel>, rank: seq<nat>, c: nat): nat
    requires |rank| == |chs| && c < |chs|
  {
    if chs[c].state == Running then chs[c].remaining + Chain(chs, rank, c) else 0
  }

  ghost function Weights(chs: seq<Channel>, rank: seq<nat>): (w: seq<nat>)
    requires |rank| == |chs|
    ensures |w| == |chs|
  {
    seq(|chs|, c requires 0 <= c < |chs| => Weight(chs, rank, c))
  }

  ghost function Sum(w: seq<nat>): nat {
    if w == [] then 0 else w[0] + Sum(w[1..])
  }

  /** The measure: for every running channel, what it has left plus the sizes along its chain. */
  ghost function Potential(d: Dma, rank: seq<nat>): nat
    requires |rank| == |d.chs|
  {
    Sum(Weights(d.chs, rank))
  }

  lemma {:induction false} SumUpdate(w: seq<nat>, i: nat, v: nat)
    requires i < |w|
    ensures Sum(w[i := v]) == Sum(w) - w[i] + v
    decreases |w|
  {
    if i == 0 {
      assert w[i := v][1..] == w[1..];
    } else {
      SumUpdate(w[1..], i - 1, v);
      assert w[i := v][1..] == w[1..][i - 1 := v];
    }
  }

  /** The registers that determine chains. */
  ghost predicate SameSettings(a: seq<Channel>, b: seq<Channel>) {
    |a| == |b| && forall i :: 0 <= i < |a| ==> SameRegisters(a[i], b[i])
  }

  lemma {:induction false} ChainSame(a: seq<Channel>, b: seq<Channel>, rank: seq<nat>, c: nat)
    requires SameSettings(a, b) && |rank| == |a| && c < |a|
    ensures Chain(a, rank, c) == Chain(b, rank, c)
    decreases rank[c]
  {
    var t := a[c].link.target;
    if a[c].link.on && t < |a| && rank[t] < rank[c] {
      ChainSame(a, b, rank, t);
    }
  }

  lemma EngineKeepsSettings(d: Dma)
    requires WellFormed(d)
    ensures SameSettings(d.chs, EngineStep(d).chs)
  {
    hide SameRegisters;
    forall i | 0 <= i < |d.chs|
      ensures SameRegisters(d.chs[i], EngineStep(d).chs[i])
    {
      EngineKeepsRegisters(d, i);
    }
  }

  // ---------- One burst lowers the measure ----------

  /** The served channel loses weight: at least what it moved if it runs on, and all of its
      remaining bytes if it stops, completes or is suspended. */
  lemma SelectedLosesWeight(d: Dma, rank: seq<nat>, live: set<nat>)
    requires Conserved(d) && Drains(d, rank, live) && Selected(d) < |d.chs|
    ensures var c, r := Selected(d), EngineStep(d).chs;
      && Weight(r, rank, c) < Weight(d.chs, rank, c)
      && (Finishes(Arbitrated(d), c, BeatCount(d.chs[c])) ==> Weight(r, rank, c) == 0)
  {
    hide Beats, Finishes, MovedBytes, HalfEvents, Selected, Arbitrated, EngineStep, Chain;
    var c := Selected(d);
    EngineOnSelected(d, c);
    EngineKeepsSettings(d);
    ChainSame(d.chs, EngineStep(d).chs, rank, c);
    var d1, k := Arbitrated(d), BeatCount(d.chs[c]);
    BurstAccounts(d1, c, k);
    if Finishes(d1, c, k) {
      FinishedBurst(d1, c, k);
      assert !LinksTo(d, c, c);
    }
  }

  /** Any other channel keeps its weight, except the target of a link that fires: it gains at
      most the chain of the channel that completed. */
  lemma OthersKeepWeight(d: Dma, rank: seq<nat>, live: set<nat>, j: nat)
    requires Conserved(d) && Drains(d, rank, live) && Selected(d) < |d.chs| && j < |d.chs| && j != Selected(d)
    ensures var c, r := Selected(d), EngineStep(d).chs;
      && (!(Finishes(Arbitrated(d), c, BeatCount(d.chs[c])) && LinksTo(d, c, j)) ==>
           Weight(r, rank, j) == Weight(d.chs, rank, j))
      && (LinksTo(d, c, j) ==> Weight(r, rank, j) <= Weight(d.chs, rank, j) + Chain(d.chs, rank, c))
  {
    hide Beats, Finishes, Selected, Arbitrated, StartChannel, EngineStep;
    var c := Selected(d);
    SelectedRuns(d);
    EngineOnOther(d, j);
    EngineKeepsSettings(d);
    ChainSame(d.chs, EngineStep(d).chs, rank, j);
    if !Active(d.chs[j]) {
      LinkStartIsFresh(d.chs[j], d.enable);
      StartKeepsRegisters(d.chs[j], d.enable);
    }
  }

  lemma {:induction false} SumSameBut(a: seq<nat>, b: seq<nat>, i: nat)
    requires |a| == |b| && i < |a| && forall j :: 0 <= j < |a| && j != i ==> a[j] == b[j]
    ensures Sum(b) == Sum(a) - a[i] + b[i]
  {
    SumUpdate(a, i, b[i]);
    assert b == a[i := b[i]];
  }

  lemma SumSameButTwo(a: seq<nat>, b: seq<nat>, i: nat, t: nat)
    requires |a| == |b| && i < |a| && t < |a| && i != t && forall j :: 0 <= j < |a| && j != i && j != t ==> a[j] == b[j]
    ensures Sum(b) == Sum(a) - a[i] + b[i] - a[t] + b[t]
  {
    SumSameBut(a, a[i := b[i]], i);
    SumSameBut(a[i := b[i]], b, t);
  }

  /** Every burst strictly lowers the measure, even when a completion restarts a channel. */
  lemma BurstLowersPotential(d: Dma, rank: seq<nat>, live: set<nat>)
    requires Conserved(d) && Drains(d, rank, live) && Selected(d) < |d.chs|
    ensures Potential(EngineStep(d), rank) < Potential(d, rank)
  {
    hide Conserved, Selected, EngineStep, Finishes, Weight, Arbitrated, Sum;
    ConservedIsWellFormed(d);
    SelectedRuns(d);
    var c, r := Selected(d), EngineStep(d).chs;
    var a, b := Weights(d.chs, rank), Weights(r, rank);
    SelectedLosesWeight(d, rank, live);
    forall j | 0 <= j < |d.chs| && j != c
      ensures !(Finishes(Arbitrated(d), c, BeatCount(d.chs[c])) && LinksTo(d, c, j)) ==> a[j] == b[j]
      ensures LinksTo(d, c, j) ==> b[j] <= a[j] + Chain(d.chs, rank, c)
    {
      OthersKeepWeight(d, rank, live, j);
    }
    var t := d.chs[c].link.target;
    if Finishes(Arbitrated(d), c, BeatCount(d.chs[c])) && LinksTo(d, c, t) {
      assert t != c;
      SumSameButTwo(a, b, c, t);
      RunningWeight(d, rank, c);
    } else {
      SumSameBut(a, b, c);
    }
  }

  lemma RunningWeight(d: Dma, rank: seq<nat>, c: nat)
    requires Conserved(d) && |rank| == |d.chs| && c < |d.chs| && d.chs[c].state == Running
    ensures Weight(d.chs, rank, c) > Chain(d.chs, rank, c)
  {
    hide Chain;
  }

  lemma EngineKeepsDrains(d: Dma, rank: seq<nat>, live: set<nat>)
    requires Conserved(d) && Drains(d, rank, live)
    ensures Drains(EngineStep(d), rank, live)
  {
    hide Conserved, Selected, EngineStep, Finishes, Arbitrated, Beats, StartChannel;
    ConservedIsWellFormed(d);
    SelectedRuns(d);
    EngineKeepsSettings(d);
    var r := EngineStep(d);
    forall i: nat | i < |d.chs| && r.chs[i].state == Running
      ensures i in live
    {
      if i != Selected(d) {
        EngineOnOther(d, i);
        if r.chs[i] != d.chs[i] {
          assert LinksTo(d, Selected(d), i);
        }
      }
    }
    forall i, t: nat | i in live && LinksTo(r, i, t)
      ensures t in live && rank[t] < rank[i]
    {
      assert LinksTo(d, i, t);
    }
  }

  ghost function EngineRun(d: Dma, k: nat): (r: Dma)
    requires WellFormed(d)
    ensures WellFormed(r) && |r.chs| == |d.chs|
    decreases k
  {
    if k == 0 then d
    else
      StepKeepsWellFormed(d, Engine);
      EngineIsStep(d);
      EngineRun(EngineStep(d), k - 1)
  }

  ghost predicate AtRest(d: Dma) {
    forall i :: 0 <= i < |d.chs| ==> d.chs[i].state != Running
  }

  lemma RestWhenNothingSelected(d: Dma)
    requires WellFormed(d) && Selected(d) >= |d.chs|
    ensures AtRest(d)
  {
    hide Choose, TopBelow;
    var running, prio := RunningOf(d.chs), PrioOf(d.chs);
    ChooseFinds(d.arb, running, prio);
    forall i | 0 <= i < |d.chs|
      ensures d.chs[i].state != Running
    {
      assert running[i] <==> d.chs[i].state == Running;
      assert prio[i] < NO_LIMIT;
    }
  }

  /** Without register writes, from any conserved state whose running channels and their links
      contain no circular channel and no cycle, the engine comes to rest within as many bursts
      as the measure says. */
  lemma {:induction false} LinksDrain(d: Dma, rank: seq<nat>, live: set<nat>) returns (k: nat)
    requires Conserved(d) && Drains(d, rank, live)
    ensures WellFormed(d) && k <= Potential(d, rank) && AtRest(EngineRun(d, k))
    decreases Potential(d, rank)
  {
    hide Conserved, Selected, EngineStep, Drains, AtRest, Potential, Step;
    ConservedIsWellFormed(d);
    DrainsSize(d, rank, live);
    if Selected(d) >= |d.chs| {
      RestWhenNothingSelected(d);
      k := 0;
    } else {
      ConservedIff(d, Engine);
      EngineNeverResizes(d);
      EngineIsStep(d);
      BurstLowersPotential(d, rank, live);
      EngineKeepsDrains(d, rank, live);
      k := LinksDrain(EngineStep(d), rank, live);
      k := k + 1;
    }
  }

  lemma DrainsSize(d: Dma, rank: seq<nat>, live: set<nat>)
    requires Drains(d, rank, live)
    ensures |rank| == |d.chs|
  {}

  lemma EngineNeverResizes(d: Dma)
    requires Conserved(d)
    ensures ResizesWell(d, Engine)
  {}

  // ---------- A cycle does not drain ----------

  ghost predicate FullBus(mem: map<nat, Byte>) {
    forall x :: 0 <= x < WORD_RANGE + 4 ==> x in mem
  }

  /** Nothing is about to stop the channel. */
  ghost predicate Clean(ch: Channel) {
    ch.state != Suspended && (ch.state == Running ==> Sound(ch) && !ch.abortPending && !ch.pausePending)
  }

  /** Each channel of `loop` can start, and at its end starts over or starts one of them. */
  ghost predicate Closed(d: Dma, loop: set<nat>) {
    forall i :: i in loop ==> i < |d.chs| && Startable(d.chs[i]) && (d.chs[i].ctrl.circular || StaysIn(d, loop, i))
  }

  ghost predicate StaysIn(d: Dma, loop: set<nat>, i: nat) {
    i < |d.chs| && LinksTo(d, i, d.chs[i].link.target) && d.chs[i].link.target in loop
  }

  ghost predicate RunsIn(d: Dma, loop: set<nat>) {
    exists i :: i in loop && i < |d.chs| && d.chs[i].state == Running
  }

  /** A set of circular channels and links that lead back into the set, one of them running, and
      nothing to stop them. */
  ghost predicate Loops(d: Dma, loop: set<nat>) {
    && WellFormed(d) && FullBus(d.mem) && Closed(d, loop) && RunsIn(d, loop)
    && forall i :: i in loop && i < |d.chs| ==> Clean(d.chs[i])
  }

  lemma {:induction false} LoopingBurst(d: Dma, c: nat, k: nat)
    requires WellFormed(d) && c < |d.chs| && FullBus(d.mem) && Sound(d.chs[c])
    requires d.chs[c].state == Running && !d.chs[c].abortPending && !d.chs[c].pausePending && Startable(d.chs[c])
    ensures var r := Beats(d, c, k).chs[c];
      && r.state != Suspended && !r.abortPending && !r.pausePending
      && (r.state == Running || (Finishes(d, c, k) && !d.chs[c].ctrl.circular && !LinksTo(d, c, c)))
    decreases k
  {
    hide CopyBytes, HalfFires, MovedChannel;
    assert BusOk(d, d.chs[c]);
    if k > 0 {
      MoveKeepsRange(d, c);
      MovedChannelFacts(d.chs[c]);
      var d1 := Move(d, c);
      assert FullBus(d1.mem) by { SameKeysFull(d.mem, d1.mem); }
      if d1.chs[c].remaining != 0 {
        LoopingBurst(d1, c, k - 1);
      }
    }
  }

  lemma SameKeysFull(a: map<nat, Byte>, b: map<nat, Byte>)
    requires FullBus(a) && a.Keys == b.Keys
    ensures FullBus(b)
  {
    forall x | 0 <= x < WORD_RANGE + 4
      ensures x in b
    {
      assert x in a.Keys;
    }
  }

  lemma CleanStart(ch: Channel, enable: bool)
    requires Clean(ch)
    ensures Clean(StartChannel(ch, true, enable))
    ensures Startable(ch) ==> StartChannel(ch, true, enable).state == Running
  {
    if !Active(ch) {
      LinkStartIsFresh(ch, enable);
    }
  }

  /** What a burst leaves of one channel of the loop. */
  lemma LoopChannel(d: Dma, loop: set<nat>, i: nat)
    requires Loops(d, loop) && i in loop && i < |d.chs|
    ensures Clean(EngineStep(d).chs[i])
    ensures i != Selected(d) && d.chs[i].state == Running ==> EngineStep(d).chs[i].state == Running
    ensures i == Selected(d) && EngineStep(d).chs[i].state != Running ==>
      !d.chs[i].ctrl.circular && !LinksTo(d, i, i) && forall t :: LinksTo(d, i, t) ==> LinkFires(d, t)
  {
    hide Beats, StartChannel, Startable, Selected, Arbitrated, EngineStep, Finishes, Sound;
    SelectedRuns(d);
    EngineKeepsSound(d, i) by { assert Sound(d.chs[i]) by { CleanIsSound(d.chs[i]); } }
    if Selected(d) == i {
      EngineOnSelected(d, i);
      LoopingBurst(Arbitrated(d), i, BeatCount(d.chs[i]));
    } else {
      EngineOnOther(d, i);
      CleanStart(d.chs[i], d.enable);
    }
  }

  lemma CleanIsSound(ch: Channel)
    requires Clean(ch)
    ensures Sound(ch)
  {}

  lemma LoopStep(d: Dma, loop: set<nat>)
    requires Loops(d, loop)
    ensures Loops(EngineStep(d), loop)
  {
    hide Selected, EngineStep, Startable, Clean, LinkFires;
    var r := EngineStep(d);
    StepKeepsWellFormed(d, Engine);
    EngineIsStep(d);
    SameKeysFull(d.mem, r.mem);
    ClosedStays(d, loop);
    forall i | i in loop && i < |d.chs|
      ensures Clean(r.chs[i])
    {
      LoopChannel(d, loop, i);
    }
    var i: nat :| i in loop && i < |d.chs| && d.chs[i].state == Running;
    LoopChannel(d, loop, i);
    if r.chs[i].state != Running {
      var t := d.chs[i].link.target;
      assert StaysIn(d, loop, i);
      EngineOnOther(d, t);
      CleanStart(d.chs[t], d.enable);
      assert r.chs[t].state == Running;
    }
  }

  lemma ClosedStays(d: Dma, loop: set<nat>)
    requires WellFormed(d) && Closed(d, loop)
    ensures Closed(EngineStep(d), loop)
  {
    hide EngineStep;
    forall i | i in loop
      ensures var r := EngineStep(d);
        i < |r.chs| && Startable(r.chs[i]) && (r.chs[i].ctrl.circular || StaysIn(r, loop, i))
    {
      EngineKeepsRegisters(d, i);
      assert d.chs[i].ctrl.circular || StaysIn(d, loop, i);
    }
  }

  /** A loop of links of any length, or a circular channel, runs for ever. */
  lemma {:induction false} LoopNeverDrains(d: Dma, loop: set<nat>, k: nat)
    requires Loops(d, loop)
    ensures WellFormed(d) && RunsIn(EngineRun(d, k), loop) && !AtRest(EngineRun(d, k))
    decreases k
  {
    hide EngineStep, Loops;
    LoopsRuns(d, loop);
    if k > 0 {
      LoopStep(d, loop);
      LoopNeverDrains(EngineStep(d), loop, k - 1);
    }
  }

  lemma LoopsRuns(d: Dma, loop: set<nat>)
    requires Loops(d, loop)
    ensures WellFormed(d) && RunsIn(d, loop)
  {}

  // ---------- Exactly when the engine comes to rest ----------

  /** The links from channel `i` lead through `f` further channels, none of them circular, and
      end there. */
  ghost predicate EndsIn(chs: seq<Channel>, i: nat, f: nat)
    requires i < |chs|
    decreases f
  {
    var t := chs[i].link.target;
    var linked := chs[i].link.on && t < |chs|;
    !chs[i].ctrl.circular && if f == 0 then !linked else linked && EndsIn(chs, t, f - 1)
  }

  ghost predicate Ends(chs: seq<Channel>, i: nat)
    requires i < |chs|
  {
    exists f: nat :: EndsIn(chs, i, f)
  }

  lemma {:induction false} OneEnd(chs: seq<Channel>, i: nat, f: nat, g: nat)
    requires i < |chs| && EndsIn(chs, i, f) && EndsIn(chs, i, g)
    ensures f == g
    decreases f
  {
    if f > 0 && g > 0 {
      OneEnd(chs, chs[i].link.target, f - 1, g - 1);
    }
  }

  /** The number of links a channel's chain still has to go. */
  ghost function ChainLength(chs: seq<Channel>, i: nat): (f: nat)
    requires i < |chs|
    ensures Ends(chs, i) ==> EndsIn(chs, i, f)
  {
    if Ends(chs, i) then var f: nat :| EndsIn(chs, i, f); f else 0
  }

  ghost function ChainLengths(chs: seq<Channel>): (rank: seq<nat>)
    ensures |rank| == |chs|
  {
    seq(|chs|, i requires 0 <= i < |chs| => ChainLength(chs, i))
  }

  ghost function Ending(chs: seq<Channel>): set<nat> {
    set i: nat | i < |chs| && Ends(chs, i)
  }

  ghost function Endless(chs: seq<Channel>): set<nat> {
    set i: nat | i < |chs| && !Ends(chs, i)
  }

  /** If the chain of every running channel ends, the hypotheses of `LinksDrain` can be met. */
  lemma EndingDrains(d: Dma)
    requires forall i :: 0 <= i < |d.chs| && d.chs[i].state == Running ==> Ends(d.chs, i)
    ensures Drains(d, ChainLengths(d.chs), Ending(d.chs))
  {
    var rank, live := ChainLengths(d.chs), Ending(d.chs);
    forall i: nat | i < |d.chs| && i in live
      ensures !d.chs[i].ctrl.circular
    {
      assert EndsIn(d.chs, i, rank[i]);
    }
    forall i, t: nat | i in live && LinksTo(d, i, t)
      ensures t in live && rank[t] < rank[i]
    {
      assert EndsIn(d.chs, i, rank[i]);
      assert EndsIn(d.chs, t, rank[i] - 1);
      OneEnd(d.chs, t, rank[t], rank[i] - 1);
    }
  }

  /** Otherwise the channels whose chains do not end form a loop. */
  lemma NotEndingLoops(d: Dma, i: nat)
    requires WellFormed(d) && FullBus(d.mem) && forall j :: 0 <= j < |d.chs| ==> Startable(d.chs[j]) && Clean(d.chs[j])
    requires i < |d.chs| && d.chs[i].state == Running && !Ends(d.chs, i)
    ensures Loops(d, Endless(d.chs))
  {
    hide Startable, Clean;
    var loop := Endless(d.chs);
    assert i in loop;
    forall j | j in loop && !d.chs[j].ctrl.circular
      ensures StaysIn(d, loop, j)
    {
      var t := d.chs[j].link.target;
      assert !EndsIn(d.chs, j, 0);
      if f: nat :| EndsIn(d.chs, t, f) {
        assert EndsIn(d.chs, j, f + 1);
      }
    }
  }

  /** Left to itself, with every address answering, every channel startable and nothing pending
      or suspended, the engine comes to rest if and only if the links of every running channel
      lead, through channels that are not circular, to one without a link. */
  lemma RestsIff(d: Dma)
    requires Conserved(d) && FullBus(d.mem) && forall j :: 0 <= j < |d.chs| ==> Startable(d.chs[j]) && Clean(d.chs[j])
    ensures WellFormed(d)
    ensures (exists k: nat :: AtRest(EngineRun(d, k))) <==>
      forall i :: 0 <= i < |d.chs| && d.chs[i].state == Running ==> Ends(d.chs, i)
  {
    hide Startable, Clean, Conserved, EngineRun, AtRest, Ends, Drains, Loops, Potential;
    ConservedIsWellFormed(d);
    if forall i :: 0 <= i < |d.chs| && d.chs[i].state == Running ==> Ends(d.chs, i) {
      EndingDrains(d);
      var k := LinksDrain(d, ChainLengths(d.chs), Ending(d.chs));
    } else {
      var i: nat :| i < |d.chs| && d.chs[i].state == Running && !Ends(d.chs, i);
      NotEndingLoops(d, i);
      forall k: nat
        ensures !AtRest(EngineRun(d, k))
      {
        LoopNeverDrains(d, Endless(d.chs), k);
      }
    }
  }
}

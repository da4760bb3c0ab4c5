/** The PLIC (plic.h): one gateway automaton per source, the arbitration of pending sources, and
the claim/complete protocol of the RISC-V PLIC specification. */
module Plic {
  import opened Words

  datatype Gateway = Idle | Pending | Claimed

  /** Source `i` (from 0) has the ID `i + 1`; `enable` and `intType` are sets of IDs (an ID in
      `intType` is edge triggered). `input` holds the levels on the interrupt wires. */
  datatype State = State(priority: seq<nat>, enable: set<nat>, threshold: nat, intType: set<nat>,
                         gw: seq<Gateway>, prev: seq<bool>, input: seq<bool>, irq: bool)

  /** The mask of the existing IDs, `((1 << (S+1)) - 1) & ~1`. */
  function SrcMask(n: nat): (s: set<nat>)
    ensures forall k :: k in s <==> 1 <= k <= n
  {
    set k | 0 <= k <= n && IsId(n, k)
  }

  predicate IsId(n: nat, k: nat) {
    1 <= k <= n
  }

  /** At most 30 sources: with more the mask does not fit the 32-bit word. */
  ghost predicate WellFormed(s: State) {
    && 1 <= |s.gw| <= 30
    && |s.priority| == |s.prev| == |s.input| == |s.gw|
    && (forall i :: 0 <= i < |s.gw| ==> s.priority[i] <= 7)
    && s.threshold <= 7
    && s.enable <= SrcMask(|s.gw|) && s.intType <= SrcMask(|s.gw|)
  }

  function Reset(n: nat): State {
    State(seq(n, i => 0), {}, 0, {}, seq(n, i => Idle), seq(n, i => false), seq(n, i => false), false)
  }

  // ---------- Arbitration ----------

  ghost predicate Qualifies(s: State, i: nat)
    requires WellFormed(s) && i < |s.gw|
  {
    s.gw[i] == Pending && i + 1 in s.enable && s.priority[i] > 0 && s.priority[i] > s.threshold
  }

  /** Source `i` is served before source `j`: higher priority, or equal priority and lower ID. */
  ghost predicate Before(s: State, i: nat, j: nat)
    requires WellFormed(s) && i < |s.gw| && j < |s.gw|
  {
    s.priority[i] > s.priority[j] || (s.priority[i] == s.priority[j] && i < j)
  }

  /** `id` is the answer of the arbitration over the first `k` sources. */
  ghost predicate Wins(s: State, k: nat, id: nat)
    requires WellFormed(s) && k <= |s.gw|
  {
    && id <= k
    && (id == 0 ==> forall j :: 0 <= j < k ==> !Qualifies(s, j))
    && (id > 0 ==>
         Qualifies(s, id - 1) && forall j :: 0 <= j < k && Qualifies(s, j) && j != id - 1 ==> Before(s, id - 1, j))
  }

  ghost function Best(s: State, k: nat): (id: nat)
    requires WellFormed(s) && k <= |s.gw|
    ensures Wins(s, k, id)
  {
    if k == 0 then 0
    else
      var id := Best(s, k - 1);
      if Qualifies(s, k - 1) && (id == 0 || Before(s, k - 1, id - 1)) then k else id
  }

  /** The ID delivered by a claim: the best qualifying source, or 0. */
  ghost function Winner(s: State): (id: nat)
    requires WellFormed(s)
    ensures Wins(s, |s.gw|, id)
  {
    Best(s, |s.gw|)
  }

  lemma WinnerUnique(s: State, id: nat)
    requires WellFormed(s) && Wins(s, |s.gw|, id)
    ensures Winner(s) == id
  {}

  ghost function Refresh(s: State): (r: State)
    requires WellFormed(s)
    ensures WellFormed(r)
  {
    s.(irq := Winner(s) != 0)
  }

  /** Driving the interrupt line does not change the arbitration. */
  lemma LineIsOutput(s: State, b: bool)
    requires WellFormed(s)
    ensures Winner(s.(irq := b)) == Winner(s)
  {
    assert forall i :: 0 <= i < |s.gw| ==> (Qualifies(s.(irq := b), i) <==> Qualifies(s, i));
    WinnerUnique(s, Winner(s.(irq := b)));
  }

  // ---------- Gateways ----------

  /** How a gateway samples its wire. */
  function Sample(g: Gateway, edge: bool, cur: bool, prev: bool): Gateway {
    match g
    case Idle => if cur && (edge ==> !prev) then Pending else Idle
    case Pending => if !edge && !cur then Idle else Pending
    case Claimed => Claimed
  }

  /** How a gateway reacts to a write of the type register. */
  function Retype(g: Gateway, edge: bool, cur: bool): Gateway {
    if edge || g == Claimed then g else if cur then Pending else Idle
  }

  ghost function Inputs(s: State, levels: seq<bool>): (r: State)
    requires WellFormed(s) && |levels| == |s.gw|
    ensures WellFormed(r)
  {
    Refresh(s.(gw := seq(|s.gw|, i requires 0 <= i < |s.gw| =>
                           Sample(s.gw[i], i + 1 in s.intType, levels[i], s.prev[i])),
               prev := levels, input := levels))
  }

  ghost function SetType(s: State, val: nat): (r: State)
    requires WellFormed(s)
    ensures WellFormed(r)
  {
    var t := BitsOf(val) * SrcMask(|s.gw|);
    Refresh(s.(intType := t, gw := seq(|s.gw|, i requires 0 <= i < |s.gw| => Retype(s.gw[i], i + 1 in t, s.input[i]))))
  }

  ghost function Claim(s: State): (r: State)
    requires WellFormed(s)
    ensures WellFormed(r)
  {
    var id := Winner(s);
    if id == 0 then s else Refresh(s.(gw := s.gw[id - 1 := Claimed]))
  }

  ghost function Complete(s: State, id: nat): (r: State)
    requires WellFormed(s)
    ensures WellFormed(r)
  {
    if 1 <= id <= |s.gw| && s.gw[id - 1] == Claimed
    then Refresh(s.(gw := s.gw[id - 1 := if id !in s.intType && s.input[id - 1] then Pending else Idle]))
    else s
  }

  // ---------- The register port ----------

  datatype Command = ReadCmd | WriteCmd | OtherCmd

  datatype Reply = Ok(data: nat) | AddressError | GenericError

  ghost function PendingIds(s: State): set<nat> {
    set id | id in SrcMask(|s.gw|) && s.gw[id - 1] == Pending
  }

  ghost function ReadReg(s: State, off: nat): (nat, State)
    requires WellFormed(s) && off % 4 == 0
  {
    var end := |s.gw| * 4;
    if off < end then (s.priority[off / 4], s)
    else if off == end then (WordOf(PendingIds(s)), s)
    else if off == end + 4 then (WordOf(s.enable * SrcMask(|s.gw|)), s)
    else if off == end + 8 then (s.threshold, s)
    else if off == end + 12 then (Winner(s), Claim(s))
    else if off == end + 16 then (0, s)
    else (WordOf(s.intType * SrcMask(|s.gw|)), s)
  }

  ghost function WriteReg(s: State, off: nat, val: nat): (r: State)
    requires WellFormed(s) && off % 4 == 0
    ensures WellFormed(r)
  {
    var end := |s.gw| * 4;
    if off < end then Refresh(s.(priority := s.priority[off / 4 := val % 8]))
    else if off == end + 4 then Refresh(s.(enable := BitsOf(val) * SrcMask(|s.gw|)))
    else if off == end + 8 then Refresh(s.(threshold := val % 8))
    else if off == end + 16 then Complete(s, val)
    else if off == end + 20 then SetType(s, val)
    else s
  }

  /** One bus transaction, with the error checks in the order the program makes them. */
  ghost function Transport(s: State, cmd: Command, addr: nat, len: nat, val: nat): (r: (Reply, State))
    requires WellFormed(s)
    ensures WellFormed(r.1)
  {
    if cmd.OtherCmd? then (GenericError, s)
    else if addr > |s.gw| * 4 + 23 || addr % 4 != 0 then (AddressError, s)
    else if len != 4 then (GenericError, s)
    else if cmd.ReadCmd? then var (d, s') := ReadReg(s, addr); (Ok(d), s')
    else (Ok(0), WriteReg(s, addr, val))
  }

  /** The PENDING register shows the gateways: bit `i + 1` is one exactly when source `i` is
      pending, and bit 0 never is. */
  lemma PendingRegister(s: State, k: nat)
    requires WellFormed(s)
    ensures Bit(ReadReg(s, |s.gw| * 4).0, k) <==> 1 <= k <= |s.gw| && s.gw[k - 1] == Pending
  {
    hide Bit, Pack;
    PackBits(PendingIds(s), 0, 32, k);
  }

  /** What is written to ENABLE or INT_TYPE is read back, restricted to existing sources. */
  lemma EnableAndTypeReadBack(s: State, val: nat, k: nat)
    requires WellFormed(s)
    ensures var n := |s.gw|;
      && (Bit(WordAt(WriteReg(s, n * 4 + 4, val), n + 1), k) <==> 1 <= k <= n && Bit(val, k))
      && (Bit(WordAt(WriteReg(s, n * 4 + 20, val), n + 5), k) <==> 1 <= k <= n && Bit(val, k))
  {
    hide Winner, WordOf, BitsOf;
    var ids := BitsOf(val) * SrcMask(|s.gw|);
    WordBits(ids * SrcMask(|s.gw|), k);
  }

  /** PRIORITY and THRESHOLD keep three bits, and priorities of different sources do not mix. */
  lemma PriorityAndThresholdReadBack(s: State, i: nat, j: nat, val: nat)
    requires WellFormed(s) && i < |s.gw| && j < |s.gw|
    ensures var n := |s.gw|;
      && ReadReg(WriteReg(s, i * 4, val), j * 4).0 == (if i == j then val % 8 else ReadReg(s, j * 4).0)
      && ReadReg(WriteReg(s, n * 4 + 8, val), n * 4 + 8).0 == val % 8
      && ReadReg(WriteReg(s, i * 4, val), n * 4 + 8).0 == s.threshold
  {
    hide Winner, WordOf, BitsOf;
  }

  lemma WordBits(s: set<nat>, k: nat)
    ensures Bit(WordOf(s), k) <==> k < 32 && k in s
  {
    PackBits(s, 0, 32, k);
  }

  // ---------- Claims sort ----------

  ghost function PendingCount(gw: seq<Gateway>): nat {
    if gw == [] then 0 else (if gw[0] == Pending then 1 else 0) + PendingCount(gw[1..])
  }

  lemma {:induction false} ClaimingOneLess(gw: seq<Gateway>, i: nat)
    requires i < |gw| && gw[i] == Pending
    ensures PendingCount(gw[i := Claimed]) == PendingCount(gw) - 1
    decreases |gw|
  {
    if i == 0 {
      assert gw[i := Claimed][1..] == gw[1..];
    } else {
      ClaimingOneLess(gw[1..], i - 1);
      assert gw[i := Claimed][1..] == gw[1..][i - 1 := Claimed];
    }
  }

  /** The IDs returned by reading CLAIM until it returns 0. */
  ghost function ClaimAll(s: State): seq<nat>
    requires WellFormed(s)
    decreases PendingCount(s.gw)
  {
    var id := Winner(s);
    if id == 0 then [] else
      ClaimingOneLess(s.gw, id - 1);
      [id] + ClaimAll(Claim(s))
  }

  ghost function AfterClaimAll(s: State): (r: State)
    requires WellFormed(s)
    ensures WellFormed(r)
    decreases PendingCount(s.gw)
  {
    var id := Winner(s);
    if id == 0 then s else
      ClaimingOneLess(s.gw, id - 1);
      AfterClaimAll(Claim(s))
  }

  /** A claim takes one source out of the qualifying set and changes nothing else about who
      qualifies or in which order. */
  lemma ClaimRemovesWinner(s: State)
    requires WellFormed(s) && Winner(s) != 0
    ensures |Claim(s).gw| == |s.gw| && PendingCount(Claim(s).gw) < PendingCount(s.gw)
    ensures forall i :: 0 <= i < |s.gw| ==> (Qualifies(Claim(s), i) <==> Qualifies(s, i) && i != Winner(s) - 1)
    ensures forall i, j :: 0 <= i < |s.gw| && 0 <= j < |s.gw| ==> (Before(Claim(s), i, j) <==> Before(s, i, j))
  {
    ClaimingOneLess(s.gw, Winner(s) - 1);
  }

  /** The IDs of the sources that compete. */
  ghost function Qualifying(s: State): set<nat>
    requires WellFormed(s)
  {
    set id | 0 <= id <= |s.gw| && Competes(s, id)
  }

  ghost predicate Competes(s: State, id: nat)
    requires WellFormed(s)
  {
    1 <= id <= |s.gw| && Qualifies(s, id - 1)
  }

  ghost predicate InRange(s: State, ids: seq<nat>) {
    forall k :: 0 <= k < |ids| ==> 1 <= ids[k] <= |s.gw|
  }

  /** By descending priority, then ascending ID. */
  ghost predicate Ordered(s: State, ids: seq<nat>)
    requires WellFormed(s) && InRange(s, ids)
  {
    forall j, k :: 0 <= j < k < |ids| ==> Before(s, ids[j] - 1, ids[k] - 1)
  }

  lemma WinnerLeaves(s: State)
    requires WellFormed(s) && Winner(s) != 0
    ensures Winner(s) in Qualifying(s) && Qualifying(Claim(s)) == Qualifying(s) - {Winner(s)}
    ensures forall id :: id in Qualifying(Claim(s)) ==> 1 <= id <= |s.gw| && Before(s, Winner(s) - 1, id - 1)
  {
    hide Winner, Qualifies, Before, Claim;
    WinnerWins(s);
    ClaimRemovesWinner(s);
  }

  lemma WinnerFirst(s: State, rest: seq<nat>)
    requires WellFormed(s) && Winner(s) != 0
    requires InRange(Claim(s), rest) && Ordered(Claim(s), rest) && multiset(rest) == multiset(Qualifying(Claim(s)))
    ensures Winner(s) <= |s.gw| && InRange(s, [Winner(s)] + rest) && Ordered(s, [Winner(s)] + rest)
  {
    hide Winner, Before, Claim, Qualifying;
    WinnerWins(s);
    WinnerLeaves(s);
    ClaimRemovesWinner(s);
    var ids := [Winner(s)] + rest;
    forall j, k | 0 <= j < k < |ids|
      ensures Before(s, ids[j] - 1, ids[k] - 1)
    {
      assert rest[k - 1] in multiset(rest);
      if j > 0 {
        assert Before(Claim(s), rest[j - 1] - 1, rest[k - 1] - 1);
      }
    }
  }

  /** Repeated claims are a selection sort: each qualifying source is returned exactly once, in
      order. */
  lemma {:induction false} ClaimsSort(s: State)
    requires WellFormed(s)
    ensures multiset(ClaimAll(s)) == multiset(Qualifying(s))
    ensures InRange(s, ClaimAll(s)) && Ordered(s, ClaimAll(s))
    decreases PendingCount(s.gw)
  {
    WinnerWins(s);
    if Winner(s) == 0 {
      assert Qualifying(s) == {};
    } else {
      ClaimRemovesWinner(s);
      ClaimsSort(Claim(s));
      WinnerLeaves(s);
      hide Winner, Claim, Ordered, InRange, Qualifying;
      WinnerFirst(s, ClaimAll(Claim(s)));
    }
  }

  lemma WinnerWins(s: State)
    requires WellFormed(s)
    ensures Winner(s) <= |s.gw|
    ensures Winner(s) == 0 <==> forall j :: 0 <= j < |s.gw| ==> !Qualifies(s, j)
    ensures Winner(s) > 0 ==> Qualifies(s, Winner(s) - 1)
    ensures Winner(s) > 0 ==> forall j :: 0 <= j < |s.gw| && Qualifies(s, j) && j != Winner(s) - 1 ==>
      Before(s, Winner(s) - 1, j)
  {}

  /** Afterwards exactly the returned sources are claimed, nothing else has changed, and the
      interrupt line is low. */
  lemma {:induction false} ClaimsLeaveQuiet(s: State)
    requires WellFormed(s) && s.irq == (Winner(s) != 0)
    ensures var s' := AfterClaimAll(s);
      && !s'.irq
      && s' == s.(gw := s'.gw, irq := false)
      && forall i :: 0 <= i < |s.gw| ==> s'.gw[i] == if i + 1 in ClaimAll(s) then Claimed else s.gw[i]
    decreases PendingCount(s.gw)
  {
    hide Winner, Best, Wins;
    var id := Winner(s);
    if id != 0 {
      WinnerWins(s);
      ClaimingOneLess(s.gw, id - 1);
      var c := s.(gw := s.gw[id - 1 := Claimed]);
      LineIsOutput(c, Winner(c) != 0);
      ClaimsLeaveQuiet(Claim(s));
      assert ClaimAll(s) == [id] + ClaimAll(Claim(s));
    }
  }

  // ---------- Whole runs ----------

  datatype Event = Wires(levels: seq<bool>) | Bus(cmd: Command, addr: nat, len: nat, val: nat)

  ghost predicate LegalEvent(n: nat, e: Event) {
    e.Wires? ==> |e.levels| == n
  }

  ghost function Step(s: State, e: Event): (r: State)
    requires WellFormed(s) && LegalEvent(|s.gw|, e)
    ensures WellFormed(r) && |r.gw| == |s.gw|
  {
    match e
    case Wires(levels) => Inputs(s, levels)
    case Bus(cmd, addr, len, val) => Transport(s, cmd, addr, len, val).1
  }

  /** Source `i` is claimed by event `e`. */
  ghost predicate Claims(s: State, e: Event, i: nat)
    requires WellFormed(s)
  {
    e.Bus? && e.cmd.ReadCmd? && e.len == 4 && e.addr == |s.gw| * 4 + 12 && Winner(s) == i + 1
  }

  /** Event `e` completes a claim of source `i`. */
  ghost predicate Completes(s: State, e: Event, i: nat)
    requires WellFormed(s) && i < |s.gw|
  {
    e.Bus? && e.cmd.WriteCmd? && e.len == 4 && e.addr == |s.gw| * 4 + 16 && e.val == i + 1 && s.gw[i] == Claimed
  }

  ghost predicate Rises(s: State, e: Event, i: nat)
    requires WellFormed(s) && i < |s.gw| && LegalEvent(|s.gw|, e)
  {
    e.Wires? && e.levels[i] && !s.input[i]
  }

  /** What one source has seen so far; `caught` counts the rising edges that met an idle gateway. */
  datatype Tally = Tally(claims: nat, completes: nat, rises: nat, caught: nat)

  ghost function Count(s: State, e: Event, i: nat, t: Tally): Tally
    requires WellFormed(s) && i < |s.gw| && LegalEvent(|s.gw|, e)
  {
    Tally(t.claims + (if Claims(s, e, i) then 1 else 0),
          t.completes + (if Completes(s, e, i) then 1 else 0),
          t.rises + (if Rises(s, e, i) then 1 else 0),
          t.caught + if Rises(s, e, i) && s.gw[i] == Idle then 1 else 0)
  }

  ghost function Run(s: State, es: seq<Event>): (r: State)
    requires WellFormed(s) && forall k :: 0 <= k < |es| ==> LegalEvent(|s.gw|, es[k])
    ensures WellFormed(r) && |r.gw| == |s.gw|
    decreases |es|
  {
    if es == [] then s else Run(Step(s, es[0]), es[1..])
  }

  ghost function CountAll(s: State, es: seq<Event>, i: nat, t: Tally): Tally
    requires WellFormed(s) && i < |s.gw| && forall k :: 0 <= k < |es| ==> LegalEvent(|s.gw|, es[k])
    decreases |es|
  {
    if es == [] then t else CountAll(Step(s, es[0]), es[1..], i, Count(s, es[0], i, t))
  }

  /** The invariant of every run: the sampled value is the wire, the interrupt line is exactly
      "somebody qualifies", and a level gateway that is not claimed is pending exactly while its
      wire is high. */
  ghost predicate Settled(s: State) {
    && WellFormed(s)
    && s.prev == s.input
    && (s.irq <==> exists i :: 0 <= i < |s.gw| && Qualifies(s, i))
    && forall i :: 0 <= i < |s.gw| && i + 1 !in s.intType && s.gw[i] != Claimed ==> (s.gw[i] == Pending <==> s.input[i])
  }

  lemma ResetIsSettled(n: nat)
    requires 1 <= n <= 30
    ensures Settled(Reset(n))
  {}

  lemma RefreshIsExact(s: State)
    requires WellFormed(s)
    ensures Refresh(s).irq <==> exists i :: 0 <= i < |s.gw| && Qualifies(Refresh(s), i)
  {
    hide Winner;
    WinnerWins(s);
    assert forall i :: 0 <= i < |s.gw| ==> (Qualifies(Refresh(s), i) <==> Qualifies(s, i));
  }

  lemma StepKeepsSettled(s: State, e: Event)
    requires Settled(s) && LegalEvent(|s.gw|, e)
    ensures Settled(Step(s, e))
  {
    hide Winner;
    match e
    case Wires(levels) =>
      RefreshIsExact(s.(gw := Inputs(s, levels).gw, prev := levels, input := levels));
    case Bus(cmd, addr, len, val) =>
      if cmd.ReadCmd? {
        ClaimKeepsSettled(s);
      } else if addr <= |s.gw| * 4 + 23 && addr % 4 == 0 {
        WriteKeepsSettled(s, addr, val);
      }
  }

  lemma ClaimKeepsSettled(s: State)
    requires Settled(s)
    ensures Settled(Claim(s))
  {
    hide Winner;
    WinnerWins(s);
    if Winner(s) != 0 {
      RefreshIsExact(s.(gw := s.gw[Winner(s) - 1 := Claimed]));
    }
  }

  lemma WriteKeepsSettled(s: State, off: nat, val: nat)
    requires Settled(s) && off % 4 == 0
    ensures Settled(WriteReg(s, off, val))
  {
    hide Winner, Qualifies;
    var end := |s.gw| * 4;
    if off < end {
      RefreshIsExact(s.(priority := s.priority[off / 4 := val % 8]));
    } else if off == end + 4 {
      RefreshIsExact(s.(enable := BitsOf(val) * SrcMask(|s.gw|)));
    } else if off == end + 8 {
      RefreshIsExact(s.(threshold := val % 8));
    } else if off == end + 16 {
      if 1 <= val <= |s.gw| && s.gw[val - 1] == Claimed {
        RefreshIsExact(s.(gw := s.gw[val - 1 := if val !in s.intType && s.input[val - 1] then Pending else Idle]));
      }
    } else if off == end + 20 {
      var t := BitsOf(val) * SrcMask(|s.gw|);
      RefreshIsExact(s.(intType := t, gw := SetType(s, val).gw));
    }
  }

  /** Over every run of wire changes and bus traffic, legal or not. */
  lemma {:induction false} RunKeepsSettled(s: State, es: seq<Event>)
    requires Settled(s) && forall k :: 0 <= k < |es| ==> LegalEvent(|s.gw|, es[k])
    ensures Settled(Run(s, es))
    decreases |es|
  {
    hide Step, Settled;
    SettledIsWellFormed(s);
    if es != [] {
      StepKeepsSettled(s, es[0]);
      SettledIsWellFormed(Step(s, es[0]));
      RunKeepsSettled(Step(s, es[0]), es[1..]);
    }
  }

  lemma SettledIsWellFormed(s: State)
    requires Settled(s)
    ensures WellFormed(s)
  {}

  /** One outstanding claim: what a source's gateway may become in one event. */
  lemma StepMovesGateway(s: State, e: Event, i: nat)
    requires Settled(s) && LegalEvent(|s.gw|, e) && i < |s.gw|
    ensures Claims(s, e, i) ==> s.gw[i] == Pending && Step(s, e).gw[i] == Claimed
    ensures Completes(s, e, i) ==> s.gw[i] == Claimed && Step(s, e).gw[i] != Claimed
    ensures !Claims(s, e, i) && !Completes(s, e, i) ==> (Step(s, e).gw[i] == Claimed <==> s.gw[i] == Claimed)
    ensures i + 1 in s.intType && i + 1 in Step(s, e).intType && s.gw[i] == Idle ==>
      (Step(s, e).gw[i] == Pending <==> Rises(s, e, i))
    ensures i + 1 in s.intType && i + 1 in Step(s, e).intType && Completes(s, e, i) ==> Step(s, e).gw[i] == Idle
    ensures i + 1 in s.intType && i + 1 in Step(s, e).intType && s.gw[i] == Pending && !Claims(s, e, i) ==>
      Step(s, e).gw[i] == Pending
  {
    hide Winner, BitsOf;
    WinnerWins(s);
  }

  /** Claims and completions of a source alternate: there is an outstanding claim exactly while
      its gateway is in the claimed state. */
  lemma {:induction false} ClaimsMinusCompletes(s: State, es: seq<Event>, i: nat, t: Tally)
    requires Settled(s) && i < |s.gw| && forall k :: 0 <= k < |es| ==> LegalEvent(|s.gw|, es[k])
    requires t.claims == t.completes + if s.gw[i] == Claimed then 1 else 0
    ensures var t' := CountAll(s, es, i, t);
      t'.claims == t'.completes + if Run(s, es).gw[i] == Claimed then 1 else 0
    decreases |es|
  {
    hide Step, Settled, Claims, Completes;
    SettledIsWellFormed(s);
    if es != [] {
      StepKeepsSettled(s, es[0]);
      SettledIsWellFormed(Step(s, es[0]));
      StepMovesGateway(s, es[0], i);
      NotBoth(s, es[0], i);
      ClaimsMinusCompletes(Step(s, es[0]), es[1..], i, Count(s, es[0], i, t));
    }
  }

  lemma NotBoth(s: State, e: Event, i: nat)
    requires WellFormed(s) && i < |s.gw|
    ensures !(Claims(s, e, i) && Completes(s, e, i))
  {}

  /** Source `i` is edge triggered throughout a run. */
  ghost predicate KeptEdge(s: State, es: seq<Event>, i: nat)
    requires WellFormed(s) && i < |s.gw| && forall k :: 0 <= k < |es| ==> LegalEvent(|s.gw|, es[k])
    decreases |es|
  {
    i + 1 in s.intType && (es != [] ==> KeptEdge(Step(s, es[0]), es[1..], i))
  }

  /** No invented and no lost interrupts: while a source stays edge triggered, its claims and the
      request that may be pending at the end are exactly the rising edges that met an idle gateway
      and the request that may have been pending at the start. Edges that come while a request is
      pending or claimed are dropped. */
  lemma {:induction false} EdgesPayForClaims(s: State, es: seq<Event>, i: nat, t: Tally)
    requires Settled(s) && i < |s.gw| && forall k :: 0 <= k < |es| ==> LegalEvent(|s.gw|, es[k])
    requires KeptEdge(s, es, i)
    ensures var t' := CountAll(s, es, i, t);
      && (t'.claims - t.claims) + (if Run(s, es).gw[i] == Pending then 1 else 0)
           == (t'.caught - t.caught) + (if s.gw[i] == Pending then 1 else 0)
      && t'.caught - t.caught <= t'.rises - t.rises
    decreases |es|
  {
    hide Step, Settled, Claims, Completes, Rises;
    SettledIsWellFormed(s);
    if es != [] {
      StepKeepsSettled(s, es[0]);
      SettledIsWellFormed(Step(s, es[0]));
      StepMovesGateway(s, es[0], i);
      NotBoth(s, es[0], i);
      EdgesPayForClaims(Step(s, es[0]), es[1..], i, Count(s, es[0], i, t));
    }
  }

  // ---------- What the bus answers ----------

  /** A read of CLAIM answers with the source it claims: nothing qualifies exactly if it answers 0;
      otherwise the answer qualified, came before every other that did, and is claimed, and no
      other gateway has moved. */
  lemma ClaimAnswers(s: State)
    requires WellFormed(s)
    ensures var (reply, r) := Transport(s, ReadCmd, |s.gw| * 4 + 12, 4, 0);
      && reply.Ok? && reply.data <= |s.gw|
      && (reply.data == 0 <==> forall i :: 0 <= i < |s.gw| ==> !Qualifies(s, i))
      && (reply.data == 0 ==> r == s)
      && (reply.data > 0 ==>
           && Qualifies(s, reply.data - 1)
           && (forall j :: 0 <= j < |s.gw| && Qualifies(s, j) && j != reply.data - 1 ==> Before(s, reply.data - 1, j))
           && r.gw == s.gw[reply.data - 1 := Claimed])
  {
    hide Winner;
    WinnerWins(s);
  }

  /** Which accesses are refused, and how: a command other than read or write, or a wrong length, by
      a generic error; an address outside the map or between registers by an address error, which
      takes precedence over the length. */
  lemma RefusedIff(s: State, cmd: Command, addr: nat, len: nat, val: nat)
    requires WellFormed(s)
    ensures var (reply, r) := Transport(s, cmd, addr, len, val);
      && (reply == GenericError <==>
           cmd.OtherCmd? || (len != 4 && addr % 4 == 0 && addr < |s.gw| * 4 + 24))
      && (reply == AddressError <==> !cmd.OtherCmd? && !(addr % 4 == 0 && addr < |s.gw| * 4 + 24))
      && (!reply.Ok? ==> r == s)
      && (reply.Ok? && cmd.ReadCmd? && addr != |s.gw| * 4 + 12 ==> r == s)
      && (reply.Ok? && (cmd.WriteCmd? || addr == |s.gw| * 4 + 16) ==> reply.data == 0)
  {
    hide Winner, WordOf, BitsOf;
  }

  /** The `k`-th word of the register map, as it reads: the priorities, then PENDING, ENABLE, THRESHOLD,
      CLAIM, COMPLETE and INT_TYPE. */
  ghost function WordAt(s: State, k: nat): nat
    requires WellFormed(s)
  {
    assert k * 4 % 4 == 0;
    ReadReg(s, k * 4).0
  }

  /** Source `id` asks for service, as the registers read: its PENDING and ENABLE bits are ones and
      its PRIORITY is above THRESHOLD. */
  ghost predicate Asks(s: State, id: nat)
    requires WellFormed(s)
  {
    var n := |s.gw|;
    1 <= id <= n && Bit(WordAt(s, n), id) && Bit(WordAt(s, n + 1), id) && WordAt(s, id - 1) > WordAt(s, n + 2)
  }

  lemma AsksIffQualifies(s: State, id: nat)
    requires WellFormed(s) && 1 <= id <= |s.gw|
    ensures Asks(s, id) <==> Qualifies(s, id - 1)
    ensures WordAt(s, id - 1) == s.priority[id - 1]
  {
    hide Winner, WordOf, Bit;
    PendingRegister(s, id);
    WordBits(s.enable * SrcMask(|s.gw|), id);
  }

  /** The claim in terms of what the other registers read just before: it answers 0 exactly if no
      source asks; otherwise with one that asks, of highest PRIORITY and, among those, of lowest
      ID. */
  lemma ClaimServesHighest(s: State)
    requires WellFormed(s)
    ensures var id := WordAt(s, |s.gw| + 3);
      && (id == 0 <==> forall j :: 1 <= j <= |s.gw| ==> !Asks(s, j))
      && (id != 0 ==>
           && id <= |s.gw| && Asks(s, id)
           && forall j :: 1 <= j <= |s.gw| && Asks(s, j) && j != id ==>
                || WordAt(s, id - 1) > WordAt(s, j - 1)
                || (WordAt(s, id - 1) == WordAt(s, j - 1) && id < j))
  {
    hide Winner, Qualifies, Asks, WordAt;
    WinnerWins(s);
    ClaimWord(s);
    forall j | 1 <= j <= |s.gw|
      ensures Asks(s, j) <==> Qualifies(s, j - 1)
      ensures WordAt(s, j - 1) == s.priority[j - 1]
    {
      AsksIffQualifies(s, j);
    }
    if Winner(s) == 0 {
      forall j | 1 <= j <= |s.gw|
        ensures !Asks(s, j)
      {
        assert !Qualifies(s, j - 1);
      }
    } else {
      assert Asks(s, Winner(s));
    }
  }

  lemma ClaimWord(s: State)
    requires WellFormed(s)
    ensures WordAt(s, |s.gw| + 3) == Winner(s)
  {
    hide Winner, WordOf;
  }

  /** After reset every register reads 0 and the line is low. */
  lemma ResetReadsZero(n: nat, off: nat)
    requires 1 <= n <= 30 && off % 4 == 0 && off < n * 4 + 24
    ensures WellFormed(Reset(n)) && ReadReg(Reset(n), off).0 == 0 && !Reset(n).irq
  {
    hide Winner;
    var s := Reset(n);
    WinnerWins(s);
    assert PendingIds(s) == {} && s.enable * SrcMask(n) == {} && s.intType * SrcMask(n) == {};
    EmptyWord();
  }

  lemma EmptyWord()
    ensures WordOf({}) == 0
  {
    EmptyPack(0, 32);
  }

  lemma {:induction false} EmptyPack(from: nat, width: nat)
    ensures Pack({}, from, width) == 0
    decreases width
  {
    if width > 0 {
      EmptyPack(from + 1, width - 1);
    }
  }
}

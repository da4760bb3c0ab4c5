/** The PLIC as the program writes it (plic.h): loops over the sources that update the gateway
states in place, and the register decoder. */
module PlicDevice {
  import opened Words
  import opened Plic

  class Device {
    const numSources: nat
    var priority: seq<nat>
    var enable: set<nat>
    var threshold: nat
    var intType: set<nat>
    var gwState: seq<Gateway>
    var prevIrq: seq<bool>
    /** The wires as last driven, and the interrupt output. */
    var srcIrq: seq<bool>
    var irqOut: bool

    ghost function View(): State
      reads this
    {
      State(priority, enable, threshold, intType, gwState, prevIrq, srcIrq, irqOut)
    }

    ghost predicate Valid()
      reads this
    {
      WellFormed(View()) && |gwState| == numSources
    }

    constructor (numSources: nat)
      requires 1 <= numSources <= 30
      ensures Valid() && Settled(View()) && View() == Reset(numSources)
    {
      this.numSources := numSources;
      priority := seq(numSources, i => 0);
      enable := {};
      threshold := 0;
      intType := {};
      gwState := seq(numSources, i => Idle);
      prevIrq := seq(numSources, i => false);
      srcIrq := seq(numSources, i => false);
      irqOut := false;
      new;
      ResetIsSettled(numSources);
    }

    /** The argmax loop. */
    method Resolve() returns (bestId: nat)
      requires Valid()
      ensures bestId == Winner(View())
    {
      hide Winner, Best;
      bestId := 0;
      var bestPri := 0;
      for i := 0 to numSources
        invariant Wins(View(), i, bestId)
        invariant bestPri == if bestId == 0 then 0 else priority[bestId - 1]
      {
        var bit := i + 1;
        if gwState[i] != Pending || bit !in enable {
          continue;
        }
        var pri := priority[i];
        if pri == 0 || pri <= threshold {
          continue;
        }
        if pri > bestPri || (pri == bestPri && (bestId == 0 || bit < bestId)) {
          bestPri := pri;
          bestId := bit;
        }
      }
      WinnerUnique(View(), bestId);
    }

    method UpdateIrqOut()
      requires Valid()
      modifies this`irqOut
      ensures Valid()
      ensures View() == Refresh(old(View()))
    {
      var id := Resolve();
      irqOut := id != 0;
    }

    /** The gateway switch. */
    method NextGateway(state: Gateway, isEdge: bool, cur: bool, prev: bool) returns (gw: Gateway)
      ensures gw == Sample(state, isEdge, cur, prev)
    {
      gw := state;
      match state {
      case Idle =>
        if isEdge {
          if cur && !prev {
            gw := Pending;
          }
        } else if cur {
          gw := Pending;
        }
      case Pending =>
        if !isEdge && !cur {
          gw := Idle;
        }
      case Claimed =>
      }
    }

    /** Sensitive to the wires: samples every source. */
    method IrqMethod(levels: seq<bool>)
      requires Valid() && |levels| == numSources
      modifies this
      ensures Valid()
      ensures View() == Inputs(old(View()), levels)
    {
      hide Sample, Winner;
      srcIrq := levels;
      for i := 0 to numSources
        invariant |gwState| == |prevIrq| == numSources && srcIrq == levels
        invariant priority == old(priority) && enable == old(enable) && threshold == old(threshold)
        invariant intType == old(intType) && irqOut == old(irqOut)
        invariant forall j :: 0 <= j < i ==>
          gwState[j] == Sample(old(gwState)[j], j + 1 in intType, levels[j], old(prevIrq)[j]) && prevIrq[j] == levels[j]
        invariant forall j :: i <= j < numSources ==> gwState[j] == old(gwState)[j] && prevIrq[j] == old(prevIrq)[j]
      {
        var cur, isEdge := srcIrq[i], i + 1 in intType;
        var gw := NextGateway(gwState[i], isEdge, cur, prevIrq[i]);
        gwState := gwState[i := gw];
        prevIrq := prevIrq[i := cur];
      }
      assert prevIrq == levels;
      assert gwState == Inputs(old(View()), levels).gw;
      UpdateIrqOut();
    }

    method PendingBits() returns (ids: set<nat>)
      requires Valid()
      ensures ids == PendingIds(View())
    {
      ids := {};
      for i := 0 to numSources
        invariant forall id :: id in ids <==> 1 <= id <= i && gwState[id - 1] == Pending
      {
        if gwState[i] == Pending {
          ids := ids + {i + 1};
        }
      }
    }

    /** The re-evaluation after a write of the type register. */
    method EvaluatePendingForSource(i: nat)
      requires i < |gwState| == |srcIrq|
      modifies this`gwState
      ensures gwState == old(gwState)[i := Retype(old(gwState)[i], i + 1 in intType, srcIrq[i])]
    {
      var isEdge := i + 1 in intType;
      if gwState[i] == Pending && !isEdge {
        if !srcIrq[i] {
          gwState := gwState[i := Idle];
        }
      }
      if gwState[i] == Idle && !isEdge {
        if srcIrq[i] {
          gwState := gwState[i := Pending];
        }
      }
    }

    method WriteIntType(val: nat)
      requires Valid()
      modifies this
      ensures Valid()
      ensures View() == SetType(old(View()), val)
    {
      intType := BitsOf(val) * SrcMask(numSources);
      for i := 0 to numSources
        invariant |gwState| == numSources && intType == BitsOf(val) * SrcMask(numSources)
        invariant priority == old(priority) && enable == old(enable) && threshold == old(threshold)
        invariant srcIrq == old(srcIrq) && prevIrq == old(prevIrq) && irqOut == old(irqOut)
        invariant forall j :: 0 <= j < i ==> gwState[j] == Retype(old(gwState)[j], j + 1 in intType, srcIrq[j])
        invariant forall j :: i <= j < numSources ==> gwState[j] == old(gwState)[j]
      {
        EvaluatePendingForSource(i);
      }
      assert gwState == SetType(old(View()), val).gw;
      UpdateIrqOut();
    }

    method ReadRegister(off: nat) returns (data: nat)
      requires Valid() && off % 4 == 0 && off <= numSources * 4 + 20
      modifies this
      ensures Valid()
      ensures (data, View()) == ReadReg(old(View()), off)
    {
      hide Winner, WordOf;
      var end := numSources * 4;
      if off < end {
        data := priority[off / 4];
      } else if off == end {
        var ids := PendingBits();
        data := WordOf(ids);
      } else if off == end + 4 {
        data := WordOf(enable * SrcMask(numSources));
      } else if off == end + 8 {
        data := threshold;
      } else if off == end + 12 {
        data := Resolve();
        WinnerWins(View());
        if data != 0 {
          gwState := gwState[data - 1 := Claimed];
          UpdateIrqOut();
        }
      } else if off == end + 16 {
        data := 0;
      } else {
        data := WordOf(intType * SrcMask(numSources));
      }
    }

    method WriteRegister(off: nat, val: nat)
      requires Valid() && off % 4 == 0 && off <= numSources * 4 + 20
      modifies this
      ensures Valid()
      ensures View() == WriteReg(old(View()), off, val)
    {
      hide Winner, BitsOf;
      var end := numSources * 4;
      if off < end {
        priority := priority[off / 4 := val % 8];
        UpdateIrqOut();
      } else if off == end + 4 {
        enable := BitsOf(val) * SrcMask(numSources);
        UpdateIrqOut();
      } else if off == end + 8 {
        threshold := val % 8;
        UpdateIrqOut();
      } else if off == end + 16 {
        if val >= 1 && val <= numSources && gwState[val - 1] == Claimed {
          var idx := val - 1;
          gwState := gwState[idx := Idle];
          var isEdge := idx + 1 in intType;
          if !isEdge && srcIrq[idx] {
            gwState := gwState[idx := Pending];
          }
          UpdateIrqOut();
        }
      } else if off == end + 20 {
        WriteIntType(val);
      }
    }

    method BTransport(cmd: Command, addr: nat, len: nat, val: nat) returns (reply: Reply)
      requires Valid()
      modifies this
      ensures Valid()
      ensures (reply, View()) == Transport(old(View()), cmd, addr, len, val)
    {
      hide ReadReg, WriteReg;
      if cmd.OtherCmd? {
        return GenericError;
      }
      if addr > numSources * 4 + 23 || addr % 4 != 0 {
        return AddressError;
      }
      if len != 4 {
        return GenericError;
      }
      if cmd.ReadCmd? {
        var data := ReadRegister(addr);
        return Ok(data);
      }
      WriteRegister(addr, val);
      return Ok(0);
    }
  }
}

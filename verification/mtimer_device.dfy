/** The timer as the program writes it (aclint_mtimer.h): registers updated in place, an output loop
after every change, and byte copies for the debug port. */
module MtimerDevice {
  import opened Prelude
  import opened Mtimer

  class Device {
    var mtime: nat
    var prescaler: nat
    var timerEnable: nat
    var overflowFlag: nat
    var mtimecmp: seq<nat>
    var timerIrq: seq<bool>

    ghost function View(): State
      reads this
    {
      State(mtime, prescaler, timerEnable, overflowFlag, mtimecmp, timerIrq)
    }

    ghost predicate Valid()
      reads this
    {
      Exact(View())
    }

    constructor (numHarts: nat)
      requires 1 <= numHarts
      ensures Valid() && View() == Reset(numHarts)
    {
      mtime := 0;
      prescaler := 1;
      timerEnable := 1;
      overflowFlag := 0;
      mtimecmp := seq(numHarts, h => RANGE - 1);
      timerIrq := seq(numHarts, h => false);
      new;
      ResetIsExact(numHarts);
    }

    method UpdateIrqs()
      requires |timerIrq| == |mtimecmp|
      modifies this`timerIrq
      ensures View() == Compare(old(View()))
    {
      for i := 0 to |mtimecmp|
        invariant |timerIrq| == |mtimecmp|
        invariant forall h :: 0 <= h < i ==> timerIrq[h] == (mtime >= mtimecmp[h])
      {
        timerIrq := timerIrq[i := mtime >= mtimecmp[i]];
      }
    }

    /** One round of the timer thread after its wait. */
    method TimerTick()
      requires Valid()
      modifies this
      ensures Valid()
      ensures View() == Tick(old(View()))
    {
      if timerEnable % 2 == 1 {
        if mtime == RANGE - 1 {
          mtime := 0;
          overflowFlag := 1;
        } else {
          mtime := mtime + 1;
        }
        UpdateIrqs();
      }
    }

    method HandleMtimecmp(cmd: Command, addr: nat, data: seq<Byte>) returns (reply: Reply)
      requires Valid() && (|data| == 4 || |data| == 8) && addr % |data| == 0 && addr + |data| <= 8 * |mtimecmp|
      modifies this
      ensures (reply, View()) == AccessCmp(old(View()), cmd, addr / 8, addr % 8 == 4, data)
    {
      hide Value, Bytes, ReadSplit, WriteSplit;
      var hart, isHigh := (addr - addr % 8) / 8, |data| == 4 && addr % 8 == 4;
      match cmd
      case ReadCmd =>
        reply := Ok(ReadSplit(mtimecmp[hart], |data|, isHigh));
      case WriteCmd =>
        mtimecmp := mtimecmp[hart := WriteSplit(mtimecmp[hart], data, isHigh)];
        UpdateIrqs();
        reply := Ok([]);
      case OtherCmd =>
        reply := GenericError;
    }

    method HandleMtime(cmd: Command, addr: nat, data: seq<Byte>) returns (reply: Reply)
      requires Valid() && (|data| == 4 || |data| == 8) && addr % |data| == 0 && MTIME <= addr &&
        addr + |data| <= MTIME + 8
      modifies this
      ensures (reply, View()) == AccessTime(old(View()), cmd, addr % 8 == 4, data)
    {
      var isHigh := |data| == 4 && addr % 8 == 4;
      match cmd
      case ReadCmd =>
        reply := Ok(ReadSplit(mtime, |data|, isHigh));
      case WriteCmd =>
        mtime := WriteSplit(mtime, data, isHigh);
        UpdateIrqs();
        reply := Ok([]);
      case OtherCmd =>
        reply := GenericError;
    }

    /** The overflow flag (read to clear), the enable bit and the prescaler. */
    method HandleControl(cmd: Command, addr: nat, data: seq<Byte>) returns (reply: Reply)
      requires |data| == 4
      modifies this
      ensures (reply, View()) == AccessControl(old(View()), cmd, addr, data)
    {
      match cmd
      case ReadCmd =>
        if addr == OVERFLOW_FLAG {
          reply := Ok(Bytes(overflowFlag, 4));
          overflowFlag := 0;
        } else if addr == TIMER_ENABLE {
          reply := Ok(Bytes(timerEnable, 4));
        } else {
          reply := Ok(Bytes(prescaler, 4));
        }
      case WriteCmd =>
        if addr == OVERFLOW_FLAG {
        } else if addr == TIMER_ENABLE {
          timerEnable := Value(data) % 2;
        } else {
          var val := Value(data);
          if val == 0 {
            val := 1;
          }
          if val > 65535 {
            val := 65535;
          }
          prescaler := val;
        }
        reply := Ok([]);
      case OtherCmd =>
        reply := GenericError;
    }

    /** Byte enables, if given, must cover every lane; the streaming width must be trivial. */
    static predicate Plain(len: nat, enables: seq<Byte>, streaming: nat) {
      && (enables != [] ==> forall i :: 0 <= i < len ==> enables[i % |enables|] == 0xFF)
      && (streaming == 0 || streaming == len)
    }

    /** The checks that do not look at the address. */
    method ValidateTransaction(len: nat, enables: seq<Byte>, streaming: nat) returns (ok: bool)
      ensures ok <==> (len == 4 || len == 8) && Plain(len, enables, streaming)
    {
      if len != 4 && len != 8 {
        return false;
      }
      if enables != [] {
        for i := 0 to len
          invariant forall j :: 0 <= j < i ==> enables[j % |enables|] == 0xFF
        {
          if enables[i % |enables|] != 0xFF {
            return false;
          }
        }
      }
      return streaming == 0 || streaming == len;
    }

    method BTransport(cmd: Command, addr: nat, data: seq<Byte>, enables: seq<Byte>, streaming: nat)
      returns (reply: Reply)
      requires Valid()
      modifies this
      ensures Valid()
      ensures (reply, View()) ==
        if Plain(|data|, enables, streaming) then Bus(old(View()), cmd, addr, data) else (GenericError, old(View()))
    {
      hide AccessCmp, AccessTime, AccessControl, Bytes, Value, Plain;
      BusKeepsExact(View(), cmd, addr, data);
      var ok := ValidateTransaction(|data|, enables, streaming);
      if !ok {
        return GenericError;
      }
      if addr % |data| != 0 {
        return AddressError;
      }
      var last := |mtimecmp| * 8 - 1;
      if addr <= last && addr + |data| - 1 <= last {
        reply := HandleMtimecmp(cmd, addr, data);
      } else if (addr == OVERFLOW_FLAG || addr == TIMER_ENABLE || addr == PRESCALER) && |data| == 4 {
        reply := HandleControl(cmd, addr, data);
      } else if addr >= MTIME && addr + |data| - 1 <= MTIME + 7 {
        reply := HandleMtime(cmd, addr, data);
      } else {
        reply := AddressError;
      }
    }

    method TransportDbg(cmd: Command, addr: nat, data: seq<Byte>) returns (moved: seq<Byte>)
      requires Valid()
      modifies this
      ensures Valid()
      ensures (moved, View()) == Debug(old(View()), cmd, addr, data)
    {
      hide Bytes, Value, FromBytes, AllBytes;
      DebugKeepsExact(View(), cmd, addr, data);
      moved := [];
      if MTIME <= addr < MTIME + 8 {
        var n := Min(|data|, MTIME + 8 - addr);
        if cmd.ReadCmd? {
          moved := Bytes(mtime, 8)[addr - MTIME..addr - MTIME + n];
        } else if cmd.WriteCmd? {
          moved := data[..n];
          mtime := Value(Patch(Bytes(mtime, 8), addr - MTIME, moved));
          UpdateIrqs();
        }
      } else if addr < |mtimecmp| * 8 {
        var n := Min(|data|, |mtimecmp| * 8 - addr);
        if cmd.ReadCmd? {
          moved := AllBytes(mtimecmp)[addr..addr + n];
        } else if cmd.WriteCmd? {
          moved := data[..n];
          mtimecmp := FromBytes(Patch(AllBytes(mtimecmp), addr, moved));
          UpdateIrqs();
        }
      }
    }
  }
}

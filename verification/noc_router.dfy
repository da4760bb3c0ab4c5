/** The router as the program writes it (noc_router.h): objects updated in place, the descending
rule loop, and the queue loop with its pop, push and erase. Each method is proved equal to the
specification functions that the theorems of NocRoutes, NocTransport and NocDrain are about. */
module NocProgram {
  import opened Prelude
  import A = NocArbiter
  import F = NocFairness
  import RC = NocRouteCache
  import DC = NocDataCache
  import M = NocMonitor
  import opened NocRoutes
  import opened NocTransport
  import NocRuns
  import S = NocSystem
  import opened NocDrain

  class NocRouter {
    const nInit: nat
    const nTgt: nat
    const arbiter: A.Arbiter
    const routeCache: RC.RouteCache
    const dataCache: DC.DataCache
    var globalCtrl: nat
    var arbMode: nat
    var rules: seq<Rule>
    var qosPriority: seq<nat>
    var arbWeight: seq<nat>
    var nbQueues: seq<seq<NbEntry>>
    /** The non-blocking requests in flight, by payload. */
    var inflight: map<nat, S.Flight>
    /** TIMEOUT_CFG, STATUS, IRQ_EN and the interrupt output. */
    var monitor: M.Monitor
    /** The memories behind the target sockets. */
    var mems: seq<Memory>

    ghost function View(): Router
      reads this, routeCache, dataCache
    {
      Router(nInit, nTgt, rules, globalCtrl, arbMode, qosPriority, arbWeight, routeCache.View(), dataCache.lines, mems)
    }

    ghost function Whole(): S.Noc
      requires arbiter.Valid()
      reads this, arbiter, routeCache, dataCache
    {
      S.Noc(View(), monitor, arbiter.Ports(), nbQueues, inflight)
    }

    ghost predicate Valid()
      reads this, arbiter, routeCache, dataCache
    {
      && Legal(View())
      && routeCache.Valid() && arbiter.Valid() && arbiter.nInit == nInit && arbiter.nTgt == nTgt
      && F.LegalPorts(nInit, arbiter.Ports())
      && M.IrqExact(monitor)
      && |nbQueues| == nTgt
      && (forall t :: 0 <= t < nTgt ==> QueueOk(nInit, nbQueues[t]))
      && (forall k :: k in inflight ==> inflight[k].entry.serial == k)
    }

    /** The invariant of the specification holds of the program's state. */
    lemma WholeIsOk()
      requires Valid()
      ensures S.Ok(Whole())
    {}

    constructor (nInit: nat, nTgt: nat, mems: seq<Memory>)
      requires 0 < nInit && 0 < nTgt == |mems|
      ensures Valid() && fresh(arbiter) && fresh(routeCache) && fresh(dataCache)
      ensures this.nInit == nInit && this.nTgt == nTgt && this.mems == mems
      ensures NocRuns.AtPowerUp(View()) && Faithful(View())
      ensures monitor == M.PowerUp() && inflight == map[] && forall t :: 0 <= t < nTgt ==> nbQueues[t] == []
    {
      this.nInit := nInit;
      this.nTgt := nTgt;
      arbiter := new A.Arbiter(nInit, nTgt);
      routeCache := new RC.RouteCache(ROUTE_CACHE_CAPACITY);
      dataCache := new DC.DataCache();
      globalCtrl := 0x01;
      arbMode := 0;
      rules := seq(MAX_ROUTES, i => Rule(0, 0, 0, false, false));
      qosPriority := seq(nInit, i => 0);
      arbWeight := seq(nInit, i => 1);
      nbQueues := seq(nTgt, t => []);
      inflight := map[];
      monitor := M.PowerUp();
      this.mems := mems;
      new;
      NocRuns.AtPowerUpIsFaithful(View());
      hide Legal, Faithful;
    }

    /** The or of the enabled status bits, written to the output. */
    method UpdateIrq()
      requires monitor.irqEn <= {M.TIMEOUT, M.DECODE_ERR, M.CACHE_EVICT}
      modifies this`monitor
      ensures monitor == M.UpdateIrq(old(monitor))
    {
      M.AnyEnabledIsOverlap(monitor);
      monitor := monitor.(irq := M.AnyEnabled(monitor));
    }

    /** TIMEOUT_CFG, STATUS (write one to clear) and IRQ_EN. */
    method WriteStatusReg(addr: nat, val: nat)
      requires addr in {0x008, 0x00C, 0x010} && monitor.irqEn <= {M.TIMEOUT, M.DECODE_ERR, M.CACHE_EVICT}
      modifies this`monitor
      ensures monitor == M.WriteMonitor(old(monitor), addr, val)
    {
      hide M.ThreeBits, M.UpdateIrq;
      if addr == 0x008 {
        monitor := monitor.(timeoutCfg := val % 0x10000);
      } else if addr == 0x00C {
        monitor := monitor.(status := monitor.status - M.ThreeBits(val));
        UpdateIrq();
      } else {
        monitor := monitor.(irqEn := M.ThreeBits(val));
        UpdateIrq();
      }
    }

    /** START, END, TARGET and CTRL of one rule. */
    method WriteRuleReg(idx: nat, off: nat, val: nat)
      requires idx < |rules| && 0 < nTgt
      modifies this`rules
      ensures rules == old(rules)[idx := WriteRule(old(rules)[idx], nTgt, off, val)]
    {
      if off == 0x00 {
        rules := rules[idx := rules[idx].(start := val)];
      } else if off == 0x04 {
        rules := rules[idx := rules[idx].(end := val)];
      } else if off == 0x08 {
        rules := rules[idx := rules[idx].(tgt := if val >= nTgt then nTgt - 1 else val)];
      } else if off == 0x0C {
        rules := rules[idx := rules[idx].(enabled := Flag(val, 1), cacheable := Flag(val, 2))];
      }
    }

    /** Configuration register write. */
    method CfgWriteReg(addr: nat, val: nat)
      requires Valid()
      modifies this`globalCtrl, this`arbMode, this`rules, this`qosPriority, this`arbWeight, this`monitor
      modifies routeCache, dataCache
      ensures Valid()
      ensures View() == CfgWrite(old(View()), addr, val)
      ensures monitor == M.WriteMonitor(old(monitor), addr, val)
    {
      M.NextKeepsIrqExact(monitor, M.Wrote(addr, val));
      assert |rules| == MAX_ROUTES && |qosPriority| == |arbWeight| == nInit;
      assert monitor.irqEn <= {M.TIMEOUT, M.DECODE_ERR, M.CACHE_EVICT};
      hide Legal, QueueOk, Flag, F.LegalPorts, M.IrqExact, M.ThreeBits, WriteRule;
      CfgWriteKeepsLegal(View(), addr, val);
      if addr == 0x000 {
        var prev := globalCtrl;
        globalCtrl := val % 256;
        if Flag(prev, CTRL_ROUTE_CACHE_EN) && !Flag(globalCtrl, CTRL_ROUTE_CACHE_EN) {
          routeCache.FlushAll();
        }
        if Flag(prev, CTRL_DATA_CACHE_EN) && !Flag(globalCtrl, CTRL_DATA_CACHE_EN) {
          dataCache.FlushLines();
        }
        UpdateIrq();
      } else if addr == 0x004 {
        arbMode := if val % 4 == 3 then 0 else val % 4;
      } else if addr == 0x008 || addr == 0x00C || addr == 0x010 {
        WriteStatusReg(addr, val);
      } else if 0x100 <= addr < 0x200 {
        WriteRuleReg((addr - 0x100) / 0x10, (addr - 0x100) % 0x10, val);
        routeCache.FlushAll();
      } else if 0x200 <= addr < 0x240 {
        var i := (addr - 0x200) / 4;
        if i < nInit {
          qosPriority := qosPriority[i := val % 8];
        }
      } else if 0x240 <= addr < 0x280 {
        var i := (addr - 0x240) / 4;
        if i < nInit {
          var w := val % 256;
          arbWeight := arbWeight[i := if w == 0 then 1 else w];
        }
      } else if addr == 0x500 {
        if Flag(val, 1) {
          routeCache.FlushAll();
        }
        if Flag(val, 2) {
          dataCache.FlushLines();
        }
      }
    }

    /** Configuration register read. */
    method CfgReadReg(addr: nat) returns (val: nat)
      requires Valid() && !(0x300 <= addr < 0x320)
      ensures val == CfgRead(View(), monitor, addr)
    {
      if addr == 0x000 {
        return globalCtrl;
      }
      if addr == 0x004 {
        return arbMode;
      }
      if addr == 0x008 || addr == 0x00C || addr == 0x010 || addr == 0x014 {
        return M.ReadMonitor(monitor, addr);
      }
      if addr == 0x018 {
        return nInit;
      }
      if addr == 0x01C {
        return nTgt;
      }
      if 0x100 <= addr < 0x200 {
        return ReadRule(rules[(addr - 0x100) / 0x10], (addr - 0x100) % 0x10);
      }
      if 0x200 <= addr < 0x240 {
        var i := (addr - 0x200) / 4;
        if i < nInit {
          return qosPriority[i];
        }
      }
      if 0x240 <= addr < 0x280 {
        var i := (addr - 0x240) / 4;
        if i < nInit {
          return arbWeight[i];
        }
      }
      if addr == 0x504 {
        return ROUTE_CACHE_CAPACITY;
      }
      if addr == 0x508 {
        return DC.LINES;
      }
      if addr == 0x50C {
        return DC.LINE_SIZE;
      }
      if addr == 0x510 {
        val := dataCache.CountValid();
        return;
      }
      return 0;
    }

    /** Route lookup: the cache if enabled, else the rules from the highest index down. */
    method DecodeAddress(addr: nat, id: nat) returns (found: bool, tgt: nat, cacheable: bool)
      requires Valid()
      modifies routeCache, this`monitor
      ensures Valid()
      ensures monitor == if found then old(monitor) else M.DecodeFailed(old(monitor), id)
      ensures var f := Decode(rules, old(routeCache.View()), Flag(globalCtrl, CTRL_ROUTE_CACHE_EN), addr);
        && routeCache.View() == f.cache
        && found == f.line.Some?
        && (found ==> tgt == f.line.value.tgt < nTgt && cacheable == f.line.value.cacheable)
    {
      ghost var rc := routeCache.View();
      DecodeKeepsSound(rules, rc, Flag(globalCtrl, CTRL_ROUTE_CACHE_EN), addr);
      DecodedTargetExists(View(), addr);
      if Flag(globalCtrl, CTRL_ROUTE_CACHE_EN) {
        found, tgt, cacheable := routeCache.LookupAddr(addr);
        if found {
          return;
        }
      }
      var rule := FindRule(addr);
      if rule.Some? {
        var r := rules[rule.value];
        if Flag(globalCtrl, CTRL_ROUTE_CACHE_EN) {
          routeCache.UpdateLine(r.Image());
        }
        return true, r.tgt, r.cacheable;
      }
      ReportDecodeError(id);
      return false, 0, false;
    }

    /** The rules from the highest index down. */
    method FindRule(addr: nat) returns (rule: Option<nat>)
      requires |rules| == MAX_ROUTES
      ensures rule == Route(rules, addr)
    {
      for i := MAX_ROUTES downto 0
        invariant Walk(rules, i, addr) == Route(rules, addr)
      {
        if rules[i].enabled && addr >= rules[i].start && addr < rules[i].end {
          return Some(i);
        }
      }
      return None;
    }

    method ReportDecodeError(id: nat)
      requires M.IrqExact(monitor)
      modifies this`monitor
      ensures monitor == M.DecodeFailed(old(monitor), id) && M.IrqExact(monitor)
    {
      M.NextKeepsIrqExact(monitor, M.Failed(id));
      monitor := monitor.(initId := id % 16);
      monitor := monitor.(status := monitor.status + {M.DECODE_ERR});
      UpdateIrq();
    }

    method ReportEviction()
      requires M.IrqExact(monitor)
      modifies this`monitor
      ensures monitor == M.Evicted(old(monitor)) && M.IrqExact(monitor)
    {
      M.NextKeepsIrqExact(monitor, M.Replaced);
      monitor := monitor.(status := monitor.status + {M.CACHE_EVICT});
      UpdateIrq();
    }

    /** The forwarded access: what the target memory does. */
    method Forward(tgt: nat, op: Op) returns (resp: Response)
      requires Valid() && tgt < nTgt && !op.Cfg?
      modifies this`mems
      ensures (resp, mems) == Target(old(mems), tgt, op)
      ensures Valid()
    {
      match op
      case Read(addr, len) =>
        if Accepts(mems[tgt], addr, len) {
          resp := Data(Fetch(mems[tgt], addr, len));
        } else {
          resp := TargetError;
        }
      case Write(addr, data) =>
        if Accepts(mems[tgt], addr, |data|) {
          mems := mems[tgt := Store(mems[tgt], addr, data)];
          resp := Done;
        } else {
          resp := TargetError;
        }
      case Cfg(_, _) =>
        assert false;
    }

    /** Asking the arbiter: its credits stay in the range that rules the fallback out. */
    method Consult(c: A.Call) returns (winner: nat)
      requires Valid() && c.tgt < nTgt && A.ValidCall(nInit, c) && c.weights == arbWeight
      modifies arbiter
      ensures Valid()
      ensures winner == A.Decide(old(arbiter.Ports())[c.tgt], c).winner
      ensures arbiter.Ports() == old(arbiter.Ports())[c.tgt := A.Decide(old(arbiter.Ports())[c.tgt], c).port]
    {
      hide A.Decide, CacheSound;
      F.AfterIsLegal(nInit, arbiter.Ports(), c);
      winner := arbiter.Arbitrate(c);
    }

    /** The decoded access: data cache first, then the target, then the fill. */
    method AccessTarget(tgt: nat, cacheable: bool, op: Op) returns (resp: Response)
      requires Valid() && tgt < nTgt && !op.Cfg?
      modifies this`mems, this`monitor, dataCache
      ensures Valid()
      ensures (resp, View()) == Access(old(View()), tgt, cacheable, op)
      ensures monitor == if Evicts(old(View()), tgt, cacheable, op) then M.Evicted(old(monitor)) else old(monitor)
    {
      hide CacheSound, DC.Write, DC.Allocate, DC.ReadHits, DC.ReadData, Flag, Target, M.IrqExact, QueueOk;
      var cacheEn := Flag(globalCtrl, CTRL_DATA_CACHE_EN);
      if cacheEn && cacheable && op.Read? {
        var hit, data := dataCache.ReadBytes(op.addr, op.len);
        if hit {
          return Data(data);
        }
      }
      if cacheEn && op.Write? {
        var _ := dataCache.WriteBytes(op.addr, op.data);
      }
      resp := Forward(tgt, op);
      if resp.Data? && cacheEn && cacheable && op.Read? {
        var evicted := dataCache.AllocateLine(op.addr, resp.data);
        if evicted {
          ReportEviction();
        }
      }
    }

    /** Blocking transport. The arbiter is consulted for its pointers only. */
    method DataBTransport(id: nat, op: Op) returns (resp: Response)
      requires Valid() && id < nInit && !op.Cfg?
      modifies this`mems, this`monitor, arbiter, routeCache, dataCache
      ensures Valid()
      ensures (resp, Whole()) == S.BlockStep(old(Whole()), id, op)
    {
      hide CacheSound, Flag, Access, Decode, A.Decide;
      if !Flag(globalCtrl, CTRL_ROUTER_EN) {
        return Disabled;
      }
      StepKeepsLegal(View(), op);
      var found, tgt, cacheable := DecodeAddress(op.addr, id);
      if !found {
        return DecodeError;
      }
      if Flag(globalCtrl, CTRL_ARB_EN) {
        var reqs := seq(nInit, i => i == id);
        var _ := Consult(A.Call(tgt, reqs, qosPriority, arbWeight, arbMode, Flag(globalCtrl, CTRL_QOS_EN)));
      }
      resp := AccessTarget(tgt, cacheable, op);
    }

    /** Non-blocking response: pass it to the initiator in flight, fill the data cache with a read
        that the target accepted (`data` is absent when it refused), and forget the request. */
    method DataNbTransportBw(serial: nat, phase: S.Phase, data: Option<seq<Byte>>)
      returns (sync: S.Sync, passedTo: Option<nat>)
      requires Valid()
      modifies this`monitor, this`inflight, dataCache
      ensures Valid()
      ensures (passedTo, Whole()) == S.BackwardStep(old(Whole()), serial, phase, data)
      ensures sync == if phase.BeginResp? then S.Completed(None) else S.Accepted
    {
      hide Legal, CacheSound, DC.Allocate, Flag, M.IrqExact, QueueOk;
      passedTo := None;
      if !phase.BeginResp? {
        return S.Accepted, None;
      }
      if serial in inflight {
        var e := inflight[serial].entry;
        if data.Some? && Flag(globalCtrl, CTRL_DATA_CACHE_EN) && e.cacheable && e.op.Read? {
          FillKeepsLegal(View(), DC.Allocate(dataCache.lines, e.op.addr, data.value));
          var evicted := dataCache.AllocateLine(e.op.addr, data.value);
          if evicted {
            ReportEviction();
          }
        }
        passedTo := Some(e.initId);
        inflight := inflight - {serial};
      }
      sync := S.Completed(None);
    }

    static lemma FillKeepsLegal(s: Router, dc: DC.Cache)
      requires Legal(s)
      ensures Legal(s.(dc := dc))
    {}

    /** One round of the timeout thread after its wait. */
    method TimeoutTick(tick: nat, now: nat)
      requires Valid()
      modifies this`monitor
      ensures Valid()
      ensures Whole() == S.CheckStep(old(Whole()), tick, now)
    {
      hide Legal, CacheSound, Flag, M.IrqExact, QueueOk;
      if !Flag(globalCtrl, CTRL_TIMEOUT_EN) {
        return;
      }
      var threshold := tick * monitor.timeoutCfg;
      var todo := inflight.Keys;
      while todo != {}
        invariant todo <= inflight.Keys
        invariant forall k :: k in inflight && k !in todo ==> S.Elapsed(now, inflight[k].start) <= threshold
      {
        var k :| k in todo;
        if S.Elapsed(now, inflight[k].start) > threshold {
          ReportTimeout();
          return;
        }
        todo := todo - {k};
      }
    }

    method ReportTimeout()
      requires M.IrqExact(monitor)
      modifies this`monitor
      ensures monitor == M.TimedOut(old(monitor)) && M.IrqExact(monitor)
    {
      M.NextKeepsIrqExact(monitor, M.Overdue);
      monitor := monitor.(status := monitor.status + {M.TIMEOUT});
      UpdateIrq();
    }

    ghost function Config(tgt: nat): Settings
      reads this, routeCache, dataCache
    {
      S.SettingsOf(View(), tgt)
    }

    /** Non-blocking request: decode, then join the queue of the decoded target. */
    method DataNbTransportFw(id: nat, serial: nat, op: Op, phase: S.Phase, at: nat) returns (sync: S.Sync)
      requires Valid() && id < nInit && !op.Cfg?
      modifies this`nbQueues, this`inflight, this`monitor, routeCache
      ensures Valid()
      ensures (sync, Whole()) == S.ForwardStep(old(Whole()), id, serial, op, phase, at)
    {
      hide Legal, CacheSound, Decode, Flag, M.IrqExact, QueueOk, M.DecodeFailed;
      if phase.EndResp? {
        inflight := inflight - {serial};
        return S.Completed(None);
      }
      if !phase.BeginReq? || !Flag(globalCtrl, CTRL_NB_MODE_EN) {
        return S.Accepted;
      }
      if !Flag(globalCtrl, CTRL_ROUTER_EN) {
        return S.Completed(Some(Disabled));
      }
      var found, tgt, cacheable := DecodeAddress(op.addr, id);
      if !found {
        return S.Completed(Some(DecodeError));
      }
      var e := NbEntry(serial, id, cacheable, op);
      QueueGrows(nInit, nbQueues[tgt], e);
      nbQueues := nbQueues[tgt := nbQueues[tgt] + [e]];
      inflight := inflight[serial := S.Flight(e, at)];
      return S.Accepted;
    }

    static lemma QueueGrows(n: nat, q: seq<NbEntry>, e: NbEntry)
      requires QueueOk(n, q) && e.initId < n
      ensures QueueOk(n, q + [e])
    {}

    /** The first part of a turn: take the head; if arbitration is on and the head loses, push it
        to the back and take the winner's first entry instead. */
    method NextEntry(tgt: nat) returns (entry: NbEntry)
      requires Valid() && tgt < nTgt && nbQueues[tgt] != []
      modifies this`nbQueues, arbiter
      ensures Valid() && LegalSettings(Config(tgt))
      ensures var t := TakeTurn(Config(tgt), old(arbiter.Ports())[tgt], old(nbQueues)[tgt]);
        && entry == t.entry
        && nbQueues == old(nbQueues)[tgt := t.rest]
        && arbiter.Ports() == old(arbiter.Ports())[tgt := t.port]
    {
      hide Legal, Flag, A.Decide;
      ConfigIsLegal(tgt);
      WinnerIsWaiting(Config(tgt), arbiter.At(tgt), nbQueues[tgt]);
      if Flag(globalCtrl, CTRL_ARB_EN) {
        entry := Contend(tgt);
      } else {
        entry := nbQueues[tgt][0];
        nbQueues := nbQueues[tgt := nbQueues[tgt][1..]];
      }
    }

    lemma ConfigIsLegal(tgt: nat)
      requires Valid() && tgt < nTgt
      ensures LegalSettings(Config(tgt))
      ensures A.ValidPort(nInit, arbiter.At(tgt)) && arbiter.Ports()[tgt] == arbiter.At(tgt)
    {}

    method Contend(tgt: nat) returns (entry: NbEntry)
      requires Valid() && tgt < nTgt && nbQueues[tgt] != [] && Flag(globalCtrl, CTRL_ARB_EN)
      modifies this`nbQueues, arbiter
      ensures Valid() && LegalSettings(Config(tgt))
      ensures var t := TakeTurn(Config(tgt), old(arbiter.Ports())[tgt], old(nbQueues)[tgt]);
        && entry == t.entry
        && nbQueues == old(nbQueues)[tgt := t.rest]
        && arbiter.Ports() == old(arbiter.Ports())[tgt := t.port]
    {
      hide Legal, Flag, A.Decide, Pick, Waiting;
      ghost var g, q := Config(tgt), nbQueues[tgt];
      ConfigIsLegal(tgt);
      WinnerIsWaiting(g, arbiter.At(tgt), q);
      var queue := nbQueues[tgt];
      var reqs := RequestVector(queue[0], queue[1..]);
      assert q == [queue[0]] + queue[1..];
      var winner := Consult(A.Call(tgt, reqs, qosPriority, arbWeight, arbMode, Flag(globalCtrl, CTRL_QOS_EN)));
      entry, queue := PopFor(queue, winner);
      nbQueues := nbQueues[tgt := queue];
    }

    /** Pop the head; when it is not the winner's, push it to the back and erase the winner's
        first entry instead. */
    method PopFor(q: seq<NbEntry>, winner: nat) returns (entry: NbEntry, queue: seq<NbEntry>)
      requires q != [] && Waiting(q, winner)
      ensures (entry, queue) == Pick(q, winner)
    {
      hide FirstOf;
      entry, queue := q[0], q[1..];
      if winner != entry.initId {
        queue := queue + [entry];
        RotationWaits(q, winner);
        var k := IndexOf(queue, winner);
        entry, queue := queue[k], queue[..k] + queue[k + 1..];
      }
    }

    /** The request vector: the head's initiator and every queued one's. */
    method RequestVector(head: NbEntry, others: seq<NbEntry>) returns (reqs: seq<bool>)
      requires head.initId < nInit && QueueOk(nInit, others)
      ensures reqs == Requests(nInit, [head] + others)
    {
      ghost var q := [head] + others;
      reqs := seq(nInit, i => false);
      reqs := reqs[head.initId := true];
      assert q[0] == head;
      for j := 0 to |others|
        invariant |reqs| == nInit
        invariant forall i :: 0 <= i < nInit && reqs[i] ==> Waiting(q, i)
        invariant reqs[head.initId] && forall k :: 0 <= k < j ==> reqs[others[k].initId]
      {
        assert q[j + 1] == others[j];
        reqs := reqs[others[j].initId := true];
      }
      forall i | 0 <= i < nInit && Waiting(q, i)
        ensures reqs[i]
      {
        var k :| 0 <= k < |q| && q[k].initId == i;
        assert k > 0 ==> q[k] == others[k - 1];
      }
    }

    /** The search for the winner's entry; it is always found. */
    method IndexOf(q: seq<NbEntry>, winner: nat) returns (k: nat)
      requires Waiting(q, winner)
      ensures k == FirstOf(q, winner)
    {
      k := 0;
      while k < |q| && q[k].initId != winner
        invariant k <= |q|
        invariant forall j :: 0 <= j < k ==> q[j].initId != winner
      {
        k := k + 1;
      }
    }

    /** The second part of a turn: answer from the cache, or update it and forward. */
    method DispatchEntry(entry: NbEntry) returns (d: Dispatch)
      requires Valid()
      modifies dataCache, this`inflight
      ensures Valid()
      ensures d == DispatchOne(Flag(globalCtrl, CTRL_DATA_CACHE_EN), old(dataCache.lines), entry)
      ensures dataCache.lines == CacheAfter(Flag(globalCtrl, CTRL_DATA_CACHE_EN), old(dataCache.lines), entry)
      ensures inflight == old(inflight) - S.AnsweredIn([d])
    {
      hide CacheSound, Flag, DC.Write, DC.ReadHits, DC.ReadData;
      var cacheEn := Flag(globalCtrl, CTRL_DATA_CACHE_EN);
      if cacheEn && entry.cacheable && entry.op.Read? {
        var hit, data := dataCache.ReadBytes(entry.op.addr, entry.op.len);
        if hit {
          inflight := inflight - {entry.serial};
          d := Answered(entry, data);
          assert [d][0] == d && S.AnsweredIn([d]) == {entry.serial};
          return;
        }
      }
      if cacheEn && entry.op.Write? {
        var _ := dataCache.WriteBytes(entry.op.addr, entry.op.data);
      }
      d := Forwarded(entry);
      assert S.AnsweredIn([d]) == {};
    }

    /** One turn of the drain loop. */
    method TurnOnce(tgt: nat) returns (d: Dispatch)
      requires Valid() && tgt < nTgt && nbQueues[tgt] != []
      modifies this`nbQueues, this`inflight, arbiter, dataCache
      ensures Valid() && LegalSettings(Config(tgt)) && Config(tgt) == old(Config(tgt))
      ensures var cacheEn, t := Flag(globalCtrl, CTRL_DATA_CACHE_EN),
                                TakeTurn(Config(tgt), old(arbiter.Ports())[tgt], old(nbQueues)[tgt]);
        && nbQueues == old(nbQueues)[tgt := t.rest]
        && arbiter.Ports() == old(arbiter.Ports())[tgt := t.port]
        && d == DispatchOne(cacheEn, old(dataCache.lines), t.entry)
        && dataCache.lines == CacheAfter(cacheEn, old(dataCache.lines), t.entry)
        && inflight == old(inflight) - S.AnsweredIn([d])
    {
      hide Legal, LegalSettings, Flag, TakeTurn, DispatchOne, CacheAfter, S.AnsweredIn, M.IrqExact, QueueOk;
      var entry := NextEntry(tgt);
      d := DispatchEntry(entry);
    }

    /** The drain loop of one target's queue. */
    method Drain(tgt: nat) returns (log: seq<Dispatch>)
      requires Valid() && tgt < nTgt
      modifies this`nbQueues, this`inflight, arbiter, dataCache
      ensures Valid()
      ensures (log, Whole()) == S.DrainStep(old(Whole()), tgt)
    {
      hide Legal, LegalSettings, Flag, TakeTurn, DispatchOne, CacheAfter, DrainOrder, DrainPort, DispatchAll,
        CacheAfterAll, S.DrainStep, S.Ok, S.AnsweredIn, M.IrqExact, QueueOk, F.LegalPorts;
      ghost var n := Whole();
      WholeIsOk();
      ConfigIsLegal(tgt);
      ghost var cacheEn, g := Flag(globalCtrl, CTRL_DATA_CACHE_EN), Config(tgt);
      ghost var p, q := arbiter.Ports()[tgt], nbQueues[tgt];
      ghost var order, port := DrainOrder(g, p, q), DrainPort(g, p, q);
      log := [];
      NothingAnswered();
      while |nbQueues[tgt]| > 0
        invariant Valid() && Config(tgt) == g
        invariant A.ValidPort(nInit, p) && QueueOk(nInit, q)
        invariant nbQueues == old(nbQueues)[tgt := q]
        invariant arbiter.Ports() == old(arbiter.Ports())[tgt := p]
        invariant DrainPort(g, p, q) == port
        invariant log + DispatchAll(cacheEn, dataCache.lines, DrainOrder(g, p, q)) ==
          DispatchAll(cacheEn, old(dataCache.lines), order)
        invariant CacheAfterAll(cacheEn, dataCache.lines, DrainOrder(g, p, q)) ==
          CacheAfterAll(cacheEn, old(dataCache.lines), order)
        invariant inflight == old(inflight) - S.AnsweredIn(log)
        decreases |nbQueues[tgt]|
      {
        ghost var t := TakeTurn(g, p, q);
        ghost var lines := dataCache.lines;
        OneTurnUnfolds(g, p, q, cacheEn, lines);
        var d := TurnOnce(tgt);
        AnsweredGrows(log, d);
        log := log + [d];
        p, q := t.port, t.rest;
      }
      NothingLeftUnfolds(g, p, cacheEn, dataCache.lines);
      DrainAssembles(n, Whole(), tgt, log);
    }

    static lemma DrainAssembles(n: S.Noc, n': S.Noc, tgt: nat, log: seq<Dispatch>)
      requires S.Ok(n) && tgt < n.router.nTgt
      requires var en, g := Flag(n.router.ctrl, CTRL_DATA_CACHE_EN), S.SettingsOf(n.router, tgt);
        LegalSettings(g) && A.ValidPort(g.nInit, n.ports[tgt]) &&
        var order := DrainOrder(g, n.ports[tgt], n.queues[tgt]);
        && log == DispatchAll(en, n.router.dc, order)
        && n'.router == n.router.(dc := CacheAfterAll(en, n.router.dc, order))
        && n'.ports == n.ports[tgt := DrainPort(g, n.ports[tgt], n.queues[tgt])]
      requires n'.queues == n.queues[tgt := []] && n'.monitor == n.monitor
      requires n'.inflight == n.inflight - S.AnsweredIn(log)
      ensures (log, n') == S.DrainStep(n, tgt)
    {
      hide Legal, CacheAfterAll, DrainPort, DrainOrder, DispatchAll;
    }

    static lemma NothingAnswered()
      ensures S.AnsweredIn([]) == {}
    {}

    static lemma AnsweredGrows(log: seq<Dispatch>, d: Dispatch)
      ensures S.AnsweredIn(log + [d]) == S.AnsweredIn(log) + S.AnsweredIn([d])
    {
      forall s
        ensures s in S.AnsweredIn(log + [d]) <==> s in S.AnsweredIn(log) + S.AnsweredIn([d])
      {
        if k :| 0 <= k < |log| && log[k].Answered? && log[k].entry.serial == s {
          assert (log + [d])[k] == log[k];
        }
        if d.Answered? && d.entry.serial == s {
          assert [d][0] == d && (log + [d])[|log|] == d;
        }
      }
    }

    static lemma NothingLeftUnfolds(g: Settings, p: A.Port, cacheEn: bool, dc: DC.Cache)
      requires LegalSettings(g) && A.ValidPort(g.nInit, p)
      ensures DrainOrder(g, p, []) == [] && DrainPort(g, p, []) == p
      ensures DispatchAll(cacheEn, dc, []) == [] && CacheAfterAll(cacheEn, dc, []) == dc
    {}

    static lemma OneTurnUnfolds(g: Settings, p: A.Port, q: seq<NbEntry>, cacheEn: bool, dc: DC.Cache)
      requires LegalSettings(g) && A.ValidPort(g.nInit, p) && QueueOk(g.nInit, q) && q != []
      ensures var t := TakeTurn(g, p, q);
        var rest := DrainOrder(g, t.port, t.rest);
        var dc' := CacheAfter(cacheEn, dc, t.entry);
        && DrainPort(g, p, q) == DrainPort(g, t.port, t.rest)
        && DispatchAll(cacheEn, dc, DrainOrder(g, p, q)) ==
           [DispatchOne(cacheEn, dc, t.entry)] + DispatchAll(cacheEn, dc', rest)
        && CacheAfterAll(cacheEn, dc, DrainOrder(g, p, q)) == CacheAfterAll(cacheEn, dc', rest)
    {
      hide TakeTurn, DispatchOne, CacheAfter;
      var t := TakeTurn(g, p, q);
      assert DrainOrder(g, p, q)[1..] == DrainOrder(g, t.port, t.rest);
    }
  }
}

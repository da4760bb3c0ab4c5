/** What the NoC router's partners get: non-blocking requests reach the target their address is routed
to, drained reads answer what the target would, replies and fills say what happened, and caches
are emptied and filled when they should be. */
module NocService {
  import opened Prelude
  import opened CyclicScan
  import opened NocRoutes
  import opened NocTransport
  import opened NocDrain
  import opened NocSystem
  import opened NocStatus
  import A = NocArbiter
  import F = NocFairness
  import RC = NocRouteCache
  import DC = NocDataCache
  import M = NocMonitor

  // ---------- Requests are queued where they are routed ----------

  /** Entry `e` is in the queue of the target its address is routed to, with the flag of the rule
      that routes it. */
  ghost predicate RoutedTo(rules: seq<Rule>, t: nat, e: NbEntry) {
    && !e.op.Cfg? && Route(rules, e.op.addr).Some?
    && rules[Route(rules, e.op.addr).value].tgt == t
    && rules[Route(rules, e.op.addr).value].cacheable == e.cacheable
  }

  ghost predicate QueuesRouted(n: Noc) {
    && |n.queues| == n.router.nTgt
    && forall t, k :: 0 <= t < |n.queues| && 0 <= k < |n.queues[t]| ==>
         RoutedTo(n.router.rules, t, n.queues[t][k])
  }

  predicate WritesRoutes(a: Act) {
    a.Block? && a.op.Cfg? && IsRouteReg(a.op.reg)
  }

  lemma RulesStay(s: Router, op: Op)
    requires Legal(s) && !(op.Cfg? && IsRouteReg(op.reg))
    ensures Step(s, op).1.rules == s.rules
  {
    hide Legal, Decode, Flag, DC.Write, DC.Allocate, DC.ReadHits, RC.Flush, DC.Flush;
  }

  /** While the table shadows nothing and is left alone, every request waits in the queue of the
      target its address is routed to: whatever is accessed, drained, answered or programmed
      besides. */
  lemma StepKeepsRouted(n: Noc, a: Act)
    requires Ok(n) && LegalAct(n.router, a) && NoShadow(n.router.rules) && QueuesRouted(n) && !WritesRoutes(a)
    ensures QueuesRouted(NocStep(n, a)) && NocStep(n, a).router.rules == n.router.rules
  {
    hide Legal, Decode, Flag, Step, NoShadow, RoutedTo, A.Decide, Consulted, Reported;
    match a
    case Block(id, op) =>
      RulesStay(n.router, op);
      StepSize(n.router, op);
    case Forward(id, serial, op, phase, at) =>
      ForwardRouted(n, a);
    case Drain(tgt) =>
    case Backward(serial, phase, data) =>
    case Check(tick, now) =>
  }

  lemma ForwardRouted(n: Noc, a: Act)
    requires Ok(n) && LegalAct(n.router, a) && NoShadow(n.router.rules) && QueuesRouted(n) && a.Forward?
    ensures QueuesRouted(NocStep(n, a)) && NocStep(n, a).router.rules == n.router.rules
  {
    hide Decode, Flag, NoShadow, Route;
    var s := n.router;
    var en := Flag(s.ctrl, CTRL_ROUTE_CACHE_EN);
    DecodeIsRoute(s.rules, s.rc, en, a.op.addr);
    DecodedTargetExists(s, a.op.addr);
  }

  // ---------- What a drain answers ----------

  /** The router once entry `e` has been dispatched and its target has done what it was asked. */
  ghost function Served(s: Router, tgt: nat, e: NbEntry): Router
    requires tgt < |s.mems|
  {
    s.(dc := CacheAfter(Flag(s.ctrl, CTRL_DATA_CACHE_EN), s.dc, e), mems := Target(s.mems, tgt, e.op).1)
  }

  ghost function ServedAll(s: Router, tgt: nat, es: seq<NbEntry>): (r: Router)
    requires tgt < |s.mems|
    ensures |r.mems| == |s.mems| && r.rules == s.rules && r.ctrl == s.ctrl
    decreases |es|
  {
    if es == [] then s else ServedAll(Served(s, tgt, es[0]), tgt, es[1..])
  }

  /** What the entry's client has to respect, as on the blocking path. */
  ghost predicate Orderly(s: Router, tgt: nat, e: NbEntry)
    requires Faithful(s)
  {
    FaithfulIsLegal(s);
    RoutedTo(s.rules, tgt, e) && Disciplined(s.rules, s.mems, e.op)
  }

  lemma ServedStaysFaithful(s: Router, tgt: nat, e: NbEntry)
    requires Faithful(s) && tgt < s.nTgt && Orderly(s, tgt, e)
    ensures Faithful(Served(s, tgt, e))
    ensures forall e' :: Orderly(s, tgt, e') ==> Orderly(Served(s, tgt, e), tgt, e')
  {
    hide Faithful, Disciplined, Legal, DC.Write, Route, DC.Coherent, Flag;
    FaithfulIsLegal(s);
    match e.op
    case Read(addr, len) => assert Served(s, tgt, e) == s;
    case Write(addr, data) =>
      WriteIsServed(s, tgt, e);
      WriteStaysFaithful(s, addr, data);
      FaithfulIsLegal(Served(s, tgt, e));
      forall e' | Orderly(s, tgt, e')
        ensures Orderly(Served(s, tgt, e), tgt, e')
      {
        OrderlyIsStable(s, tgt, e, e');
      }
  }

  lemma WriteIsServed(s: Router, tgt: nat, e: NbEntry)
    requires Faithful(s) && tgt < s.nTgt && Orderly(s, tgt, e) && e.op.Write?
    ensures Route(s.rules, e.op.addr).Some? && Disciplined(s.rules, s.mems, e.op)
    ensures Served(s, tgt, e) == Access(s, tgt, e.cacheable, e.op).1
  {
    hide DC.Write, Route, DC.Coherent, Flag, OneTarget;
  }

  lemma OrderlyIsStable(s: Router, tgt: nat, e: NbEntry, e': NbEntry)
    requires Faithful(s) && tgt < s.nTgt && Orderly(s, tgt, e) && Orderly(s, tgt, e')
    requires Faithful(Served(s, tgt, e))
    ensures Orderly(Served(s, tgt, e), tgt, e')
  {
    hide DC.Write, Route, DC.Coherent, Flag, OneTarget, DC.Fits, NoLines;
    var r := Served(s, tgt, e);
    assert forall t :: 0 <= t < |s.mems| ==> r.mems[t].Keys == s.mems[t].Keys;
    if e'.op.Write? {
      SameKeys(s.mems[tgt], r.mems[tgt], e'.op.addr, |e'.op.data|);
    }
  }

  lemma SameKeys(m: Memory, m': Memory, addr: nat, len: nat)
    requires m.Keys == m'.Keys && Accepts(m, addr, len)
    ensures Accepts(m', addr, len)
  {
    forall a | addr <= a < addr + len
      ensures a in m'
    {
      assert a in m.Keys;
    }
  }

  /** Dispatch `d` tells the truth in state `s`: a forwarded entry is passed on; a read answered from
      the cache gets exactly what its target holds at that moment. */
  ghost predicate Truthful(s: Router, tgt: nat, d: Dispatch)
    requires tgt < |s.mems|
  {
    d.Answered? ==>
      d.entry.op.Read? && Accepts(s.mems[tgt], d.entry.op.addr, d.entry.op.len) &&
      d.data == Fetch(s.mems[tgt], d.entry.op.addr, d.entry.op.len)
  }

  /** Draining entries in order, with their target serving what it is passed: every answer from the
      cache is what the target would have answered at that moment, after all the writes dispatched
      before, and the cache stays coherent with the target's memory. */
  lemma {:induction false} DrainIsTransparent(s: Router, tgt: nat, es: seq<NbEntry>)
    requires Faithful(s) && tgt < s.nTgt && s.nTgt == |s.mems| && forall k :: 0 <= k < |es| ==> Orderly(s, tgt, es[k])
    ensures Faithful(ServedAll(s, tgt, es))
    ensures var log := DispatchAll(Flag(s.ctrl, CTRL_DATA_CACHE_EN), s.dc, es);
      forall k :: 0 <= k < |es| ==> Truthful(ServedAll(s, tgt, es[..k]), tgt, log[k])
    ensures ServedAll(s, tgt, es).dc == CacheAfterAll(Flag(s.ctrl, CTRL_DATA_CACHE_EN), s.dc, es)
    decreases |es|
  {
    hide Faithful, Orderly, Served, DispatchOne, CacheAfter, Truthful, Flag;
    if es != [] {
      var en := Flag(s.ctrl, CTRL_DATA_CACHE_EN);
      var r := Served(s, tgt, es[0]);
      ServedShape(s, tgt, es[0]);
      ServedStaysFaithful(s, tgt, es[0]);
      AnswerIsTruthful(s, tgt, es[0]);
      DrainIsTransparent(r, tgt, es[1..]);
      var log := DispatchAll(en, s.dc, es);
      forall k | 0 <= k < |es|
        ensures Truthful(ServedAll(s, tgt, es[..k]), tgt, log[k])
      {
        if k > 0 {
          assert es[..k][0] == es[0] && es[..k][1..] == es[1..][..k - 1];
          assert log[k] == DispatchAll(en, r.dc, es[1..])[k - 1];
        }
      }
    }
  }

  lemma ServedShape(s: Router, tgt: nat, e: NbEntry)
    requires tgt < |s.mems|
    ensures var r := Served(s, tgt, e);
      && r.nTgt == s.nTgt && |r.mems| == |s.mems| && r.ctrl == s.ctrl
      && r.dc == CacheAfter(Flag(s.ctrl, CTRL_DATA_CACHE_EN), s.dc, e)
  {
    hide Flag, DC.Write;
  }

  lemma AnswerIsTruthful(s: Router, tgt: nat, e: NbEntry)
    requires Faithful(s) && tgt < |s.mems| && Orderly(s, tgt, e)
    ensures Truthful(s, tgt, DispatchOne(Flag(s.ctrl, CTRL_DATA_CACHE_EN), s.dc, e))
  {
    hide DC.ReadHits, DC.ReadData, Route, Flag, Faithful, OneTarget, Legal;
    FaithfulIsLegal(s);
    if HitsCache(Flag(s.ctrl, CTRL_DATA_CACHE_EN), s.dc, e) {
      HitIsFetch(s, e.op.addr, e.op.len);
    }
  }

  /** Which entries the cache answers: exactly the cacheable reads, with the cache enabled, that stay in
      a resident line and find every byte held. */
  lemma AnsweredIff(en: bool, dc: DC.Cache, e: NbEntry)
    ensures DispatchOne(en, dc, e).entry == e
    ensures DispatchOne(en, dc, e).Answered? <==>
      en && e.cacheable && e.op.Read? && DC.Resident(dc, e.op.addr) && DC.Fits(e.op.addr, e.op.len) &&
      forall a :: e.op.addr <= a < e.op.addr + e.op.len ==> DC.Cached(dc, a)
  {
    hide DC.ReadHits, DC.ReadData, DC.Cached, DC.Resident, DC.Fits;
    if e.op.Read? {
      DC.ReadHitMeansCached(dc, e.op.addr, e.op.len);
    }
  }

  /** A whole drain of the router, in any arbitration mode. */
  lemma DrainAnswersAsTarget(n: Noc, tgt: nat)
    requires Ok(n) && tgt < n.router.nTgt && Faithful(n.router)
    requires forall e :: e in n.queues[tgt] ==> Orderly(n.router, tgt, e)
    ensures Sized(n, tgt)
    ensures var (log, n') := DrainStep(n, tgt);
      && (forall k :: 0 <= k < |log| ==> Truthful(ServedAll(n.router, tgt, Entries(log)[..k]), tgt, log[k]))
      && Faithful(ServedAll(n.router, tgt, Entries(log)))
      && n'.router.dc == ServedAll(n.router, tgt, Entries(log)).dc
  {
    hide Faithful, Orderly, DispatchOne, CacheAfterAll, DrainOrder, DrainPort, Truthful, LegalSettings, Flag,
      DispatchAll;
    SettingsAreLegal(n, tgt);
    var order := DrainOrder(SettingsOf(n.router, tgt), n.ports[tgt], n.queues[tgt]);
    DrainHasOnlyQueued(SettingsOf(n.router, tgt), n.ports[tgt], n.queues[tgt]);
    DrainIsTransparent(n.router, tgt, order);
    assert Entries(DrainStep(n, tgt).0) == order;
  }

  ghost predicate Sized(n: Noc, tgt: nat) {
    tgt < |n.router.mems|
  }

  function Entries(log: seq<Dispatch>): (es: seq<NbEntry>)
    ensures |es| == |log|
  {
    seq(|log|, k requires 0 <= k < |log| => log[k].entry)
  }

  lemma SettingsAreLegal(n: Noc, tgt: nat)
    requires Ok(n) && tgt < n.router.nTgt
    ensures LegalSettings(SettingsOf(n.router, tgt)) && A.ValidPort(n.router.nInit, n.ports[tgt])
    ensures n.router.nTgt == |n.router.mems|
  {}

  // ---------- Replies ----------

  /** What a non-blocking call is told: END_RESP is completed; a request is turned away while the
      router is disabled, or because no enabled rule covers its address, and is otherwise accepted
      and in flight; everything else is accepted and ignored. */
  lemma ForwardReplies(n: Noc, id: nat, serial: nat, op: Op, phase: Phase, at: nat)
    requires Ok(n) && id < n.router.nInit && !op.Cfg?
    ensures var (reply, n') := ForwardStep(n, id, serial, op, phase, at);
      var request := phase.BeginReq? && Flag(n.router.ctrl, CTRL_NB_MODE_EN);
      var covered := exists i :: 0 <= i < MAX_ROUTES && n.router.rules[i].Matches(op.addr);
      && (reply == Completed(None) <==> phase.EndResp?)
      && (reply == Completed(Some(Disabled)) <==> request && !Flag(n.router.ctrl, CTRL_ROUTER_EN))
      && (reply == Completed(Some(DecodeError)) <==> request && Flag(n.router.ctrl, CTRL_ROUTER_EN) && !covered)
      && (reply == Accepted <==>
           !phase.EndResp? && (request ==> Flag(n.router.ctrl, CTRL_ROUTER_EN) && covered))
      && (request && reply == Accepted ==>
           serial in n'.inflight && n'.inflight[serial].entry.initId == id && n'.inflight[serial].start == at &&
           n'.inflight[serial].entry.op == op)
  {
    hide Decode, Flag, CacheSound;
    DecodeFailsIff(n.router, op.addr);
  }

  // ---------- The caches do their work ----------

  /** A cacheable read that the target answers and that stays in one line leaves its bytes held: the
      same read is then answered from the cache. */
  lemma ReadFills(s: Router, tgt: nat, addr: nat, len: nat)
    requires tgt < |s.mems| && Flag(s.ctrl, CTRL_DATA_CACHE_EN) && DC.Fits(addr, len)
    requires 0 < len && Access(s, tgt, true, Read(addr, len)).0.Data?
    ensures var (r, s') := Access(s, tgt, true, Read(addr, len));
      DC.ReadHits(s'.dc, addr, len) && DC.ReadData(s'.dc, addr, len) == r.data
  {
    hide DC.Allocate, DC.ReadHits, DC.ReadData, DC.Resident, DC.Cached, DC.CachedByte, Flag;
    var (r, s') := Access(s, tgt, true, Read(addr, len));
    if !DC.ReadHits(s.dc, addr, len) {
      DC.AllocateFillsLine(s.dc, addr, r.data);
    }
  }

  /** What a blocking access does to the lines: a read that goes to the target fills one exactly if the
      cache is enabled and the rule cacheable, and then reports an eviction exactly if its slot was
      valid; a write only updates; everything else leaves the lines alone. */
  lemma AccessFillsIff(n: Noc, id: nat, op: Op)
    requires Ok(n) && id < n.router.nInit && !op.Cfg? && Flag(n.router.ctrl, CTRL_ROUTER_EN)
    ensures var (r, n') := BlockStep(n, id, op);
      var s, l, en := n.router, Found(n.router, op.addr).line, Flag(n.router.ctrl, CTRL_DATA_CACHE_EN);
      var fills := l.Some? && en && l.value.cacheable && op.Read? && r.Data? && !DC.ReadHits(s.dc, op.addr, op.len);
      && n'.router.dc == (if fills then DC.Allocate(s.dc, op.addr, r.data)
                          else if l.Some? && en && op.Write? then DC.Write(s.dc, op.addr, op.data)
                          else s.dc)
      && (M.CACHE_EVICT in n'.monitor.status <==>
           M.CACHE_EVICT in n.monitor.status || (fills && s.dc[DC.Index(op.addr)].valid))
  {
    hide CacheSound, Decode, DC.Allocate, DC.Write, DC.ReadHits, DC.ReadData, Flag, Target, M.IrqExact, Consulted;
    var l := Found(n.router, op.addr).line;
    if l.Some? {
      DecodedTargetExists(n.router, op.addr);
      TargetData(n.router.mems, l.value.tgt, op);
    }
  }

  lemma TargetData(mems: seq<Memory>, tgt: nat, op: Op)
    requires tgt < |mems|
    ensures Target(mems, tgt, op).0.Data? ==> op.Read?
  {}

  /** A response fills the data cache exactly if it is for a request in flight, carries data, the cache
      is enabled and the request is a cacheable read; what it fills is then read from the cache. */
  lemma ResponseFills(n: Noc, serial: nat, data: Option<seq<Byte>>)
    requires Ok(n)
    ensures var n' := BackwardStep(n, serial, BeginResp, data).1;
      if serial in n.inflight && data.Some? && Flag(n.router.ctrl, CTRL_DATA_CACHE_EN)
         && n.inflight[serial].entry.cacheable && n.inflight[serial].entry.op.Read?
      then
        var addr := n.inflight[serial].entry.op.addr;
        data.value != [] && DC.Fits(addr, |data.value|) ==>
          DC.ReadHits(n'.router.dc, addr, |data.value|) &&
          DC.ReadData(n'.router.dc, addr, |data.value|) == data.value
      else n'.router == n.router
  {
    hide DC.Allocate, DC.ReadHits, DC.ReadData, Flag, Legal;
    if Fills(n, serial, data) {
      var addr := n.inflight[serial].entry.op.addr;
      if data.value != [] && DC.Fits(addr, |data.value|) {
        DC.AllocateFillsLine(n.router.dc, addr, data.value);
      }
    }
  }

  /** Exactly which register writes empty the caches; every other leaves their lines alone. */
  lemma FlushesIff(s: Router, reg: nat, val: nat)
    requires Legal(s)
    ensures var r := CfgWrite(s, reg, val);
      && (if IsRouteReg(reg)
             || (reg == 0x000 && Flag(s.ctrl, CTRL_ROUTE_CACHE_EN) && !Flag(val % 256, CTRL_ROUTE_CACHE_EN))
             || (reg == 0x500 && Flag(val, 1))
          then EmptyRouteCache(r.rc) else r.rc == s.rc)
      && (if (reg == 0x000 && Flag(s.ctrl, CTRL_DATA_CACHE_EN) && !Flag(val % 256, CTRL_DATA_CACHE_EN))
             || (reg == 0x500 && Flag(val, 2))
          then NoLines(r.dc) else r.dc == s.dc)
  {
    hide Flag, CacheSound, WriteRule;
  }

  /** The arbiter call of a blocking access grants its only requester, moves the round-robin pointer
      to it or spends one of its credits, and touches no other target's port. */
  lemma SoloIsGranted(n: Noc, id: nat, op: Op)
    requires Ok(n) && id < n.router.nInit && !op.Cfg?
    ensures var ports, l := BlockStep(n, id, op).1.ports, Found(n.router, op.addr).line;
      && |ports| == |n.ports|
      && (if Flag(n.router.ctrl, CTRL_ROUTER_EN) && Flag(n.router.ctrl, CTRL_ARB_EN) && l.Some? then
            && l.value.tgt < |ports|
            && (forall t :: 0 <= t < |ports| && t != l.value.tgt ==> ports[t] == n.ports[t])
            && (n.router.arbMode == A.MODE_ROUND_ROBIN ==> ports[l.value.tgt].rr == id)
            && (n.router.arbMode == A.MODE_WEIGHTED_RR ==>
                 ports[l.value.tgt] == A.Spend(n.ports[l.value.tgt], id, n.router.weights).port)
          else ports == n.ports)
  {
    hide CacheSound, Decode, Flag, Step, Reported, A.Spend;
    var l := Found(n.router, op.addr).line;
    if l.Some? {
      DecodedTargetExists(n.router, op.addr);
      SoloDecides(n.ports[l.value.tgt], SoloCall(n.router, id, l.value.tgt), id);
    }
  }

  lemma SoloDecides(p: A.Port, c: A.Call, id: nat)
    requires A.ValidCall(|c.requests|, c) && F.LegalPort(|c.requests|, p) && F.LegalWeights(c.weights) && c.mode <= 2
    requires id < |c.requests| && forall i :: 0 <= i < |c.requests| ==> (c.requests[i] <==> i == id)
    ensures A.Decide(p, c).winner == id
    ensures c.mode == A.MODE_ROUND_ROBIN ==> A.Decide(p, c).port.rr == id
    ensures c.mode == A.MODE_WEIGHTED_RR ==> A.Decide(p, c).port == A.Spend(p, id, c.weights).port
  {
    assert c.requests[id];
    A.GrantsARequester(p, c);
    F.WeightedNeverFallsBack(p, c.requests, c.weights);
  }

  /** The arbitrations of a drain are not forgotten: in round-robin mode the pointer of its target is
      left at the initiator dispatched last; without arbitration, and at every other target, the
      port stays. */
  lemma DrainMovesPointer(n: Noc, tgt: nat)
    requires Ok(n) && tgt < n.router.nTgt && n.queues[tgt] != []
    ensures var (log, n') := DrainStep(n, tgt);
      && |n'.ports| == |n.ports| && |log| == |n.queues[tgt]|
      && (forall t :: 0 <= t < |n.ports| && t != tgt ==> n'.ports[t] == n.ports[t])
      && (!Flag(n.router.ctrl, CTRL_ARB_EN) ==> n'.ports == n.ports)
      && (Flag(n.router.ctrl, CTRL_ARB_EN) && n.router.arbMode == A.MODE_ROUND_ROBIN ==>
           n'.ports[tgt].rr == log[|log| - 1].entry.initId)
  {
    hide Legal, CacheAfterAll, DispatchOne, DrainPort, DrainOrder, Flag, LegalSettings, F.LegalPorts;
    SettingsAreLegal(n, tgt);
    var g := SettingsOf(n.router, tgt);
    DrainIsPermutation(g, n.ports[tgt], n.queues[tgt]);
    if g.arbEn {
      if g.mode == A.MODE_ROUND_ROBIN {
        PointerAtLast(g, n.ports[tgt], n.queues[tgt]);
      }
    } else {
      PortStays(g, n.ports[tgt], n.queues[tgt]);
    }
  }

  lemma {:induction false} PortStays(g: Settings, p: A.Port, q: seq<NbEntry>)
    requires LegalSettings(g) && A.ValidPort(g.nInit, p) && QueueOk(g.nInit, q) && !g.arbEn
    ensures DrainPort(g, p, q) == p
    decreases |q|
  {
    if q != [] {
      PortStays(g, p, q[1..]);
    }
  }

  lemma {:induction false} PointerAtLast(g: Settings, p: A.Port, q: seq<NbEntry>)
    requires LegalSettings(g) && A.ValidPort(g.nInit, p) && QueueOk(g.nInit, q) && q != []
    requires g.arbEn && g.mode == A.MODE_ROUND_ROBIN
    ensures |DrainOrder(g, p, q)| == |q| && DrainPort(g, p, q).rr == DrainOrder(g, p, q)[|q| - 1].initId
    decreases |q|
  {
    hide TakeTurn, LegalSettings;
    DrainIsPermutation(g, p, q);
    var t := TakeTurn(g, p, q);
    TurnTakesOne(g, p, q);
    assert |multiset(q)| == 1 + |multiset(t.rest)|;
    TurnMovesPointer(g, p, q);
    if t.rest == [] {
      assert DrainOrder(g, t.port, t.rest) == [] && DrainPort(g, t.port, t.rest) == t.port;
    } else {
      PointerAtLast(g, t.port, t.rest);
    }
  }

  lemma TurnMovesPointer(g: Settings, p: A.Port, q: seq<NbEntry>)
    requires LegalSettings(g) && A.ValidPort(g.nInit, p) && QueueOk(g.nInit, q) && q != []
    requires g.arbEn && g.mode == A.MODE_ROUND_ROBIN
    ensures TakeTurn(g, p, q).port.rr == TakeTurn(g, p, q).entry.initId
  {
    hide TakeTurn;
    TurnFollowsArbiter(g, p, q);
    WinnerIsWaiting(g, p, q);
  }

  /** The order of a drain is that of the mode, priorities and enables the registers hold: arrival
      order without arbitration; with QoS and no weights, descending priority; in fixed-priority
      mode ascending initiators within a priority. */
  lemma DrainFollowsRegisters(n: Noc, tgt: nat)
    requires Ok(n) && tgt < n.router.nTgt
    ensures var s, es := n.router, Entries(DrainStep(n, tgt).0);
      var arb, qos := Flag(s.ctrl, CTRL_ARB_EN), Flag(s.ctrl, CTRL_QOS_EN);
      && QueueOk(s.nInit, es) && multiset(es) == multiset(n.queues[tgt])
      && (!arb ==> es == n.queues[tgt])
      && (arb && qos && s.arbMode != A.MODE_WEIGHTED_RR ==>
           forall j, k :: 0 <= j < k < |es| ==> s.prios[es[k].initId] <= s.prios[es[j].initId])
      && (arb && s.arbMode == A.MODE_FIXED_PRIORITY ==>
           forall j, k :: 0 <= j < k < |es| && (qos ==> s.prios[es[j].initId] == s.prios[es[k].initId]) ==>
             es[j].initId <= es[k].initId)
  {
    hide CacheAfterAll, DispatchAll, DrainPort, DrainOrder, Flag, Legal, LegalSettings, F.LegalPorts;
    SettingsAreLegal(n, tgt);
    var g, p, q := SettingsOf(n.router, tgt), n.ports[tgt], n.queues[tgt];
    DrainIsPermutation(g, p, q);
    DrainStaysOk(g, p, q);
    assert Entries(DrainStep(n, tgt).0) == DrainOrder(g, p, q);
    if !g.arbEn {
      UnarbitratedIsFifo(g, p, q);
    } else {
      if g.mode == A.MODE_FIXED_PRIORITY {
        FixedPrioritySorts(g, p, q);
      }
      if g.qos && g.mode <= A.MODE_FIXED_PRIORITY {
        QosDrainsByPriority(g, p, q);
      }
    }
  }

  lemma DrainStaysOk(g: Settings, p: A.Port, q: seq<NbEntry>)
    requires LegalSettings(g) && A.ValidPort(g.nInit, p) && QueueOk(g.nInit, q)
    ensures QueueOk(g.nInit, DrainOrder(g, p, q))
  {
    hide DrainOrder;
    DrainHasOnlyQueued(g, p, q);
  }

  /** A request or a blocking access that decodes leaves its route in the route cache, when that is
      enabled: the next decode of the address hits. */
  lemma DecodeCaches(rules: seq<Rule>, rc: RC.Cache, addr: nat)
    requires 0 < |rc.entries| && Decode(rules, rc, true, addr).line.Some?
    ensures RC.Lookup(Decode(rules, rc, true, addr).cache, addr).line.Some?
  {
    hide RC.Victim, RC.Slot;
    var k := RC.Slot(RC.Hits(rc, addr));
    if k < |rc.entries| {
      assert RC.Hits(rc, addr)[k];
      StampHits(rc, k, rc.entries[k].line, addr);
    } else {
      var x := rules[Route(rules, addr).value].Image();
      StampHits(rc, RC.Victim(rc, x), x, addr);
    }
  }

  lemma StampHits(rc: RC.Cache, k: nat, x: RC.Line, addr: nat)
    requires k < |rc.entries| && x.Covers(addr)
    ensures RC.Lookup(RC.Stamp(rc, k, x), addr).line.Some?
  {
    var c := RC.Stamp(rc, k, x);
    assert RC.Hits(c, addr)[k];
  }

  lemma RequestCachesRoute(n: Noc, id: nat, serial: nat, op: Op, at: nat)
    requires Ok(n) && id < n.router.nInit && !op.Cfg? && Flag(n.router.ctrl, CTRL_ROUTE_CACHE_EN)
    requires Flag(n.router.ctrl, CTRL_NB_MODE_EN) && Flag(n.router.ctrl, CTRL_ROUTER_EN)
    requires Found(n.router, op.addr).line.Some?
    ensures var r := ForwardStep(n, id, serial, op, BeginReq, at).1.router.rc;
      0 < |r.entries| && RC.Lookup(r, op.addr).line.Some?
    ensures var r := BlockStep(n, id, op).1.router.rc;
      0 < |r.entries| && RC.Lookup(r, op.addr).line.Some?
  {
    hide Decode, Flag, RC.Lookup, DC.Write, DC.Allocate, DC.ReadHits, CacheSound, Reported, Consulted;
    var s := n.router;
    DecodeSize(s.rules, s.rc, true, op.addr);
    DecodeCaches(s.rules, s.rc, op.addr);
    DecodedTargetExists(s, op.addr);
  }

  // ---------- Timeouts ----------

  /** With one request in flight, the check raises TIMEOUT exactly if it is enabled and more than the
      configured number of ticks has passed since the request started. */
  lemma TimesOutIff(n: Noc, serial: nat, tick: nat, now: nat)
    requires Ok(n) && n.inflight.Keys == {serial} && n.inflight[serial].start <= now < TIME_RANGE
    ensures M.TIMEOUT in NocStep(n, Check(tick, now)).monitor.status <==>
      || M.TIMEOUT in n.monitor.status
      || (Flag(n.router.ctrl, CTRL_TIMEOUT_EN) && now > n.inflight[serial].start + tick * n.monitor.timeoutCfg)
  {
    hide Legal, Flag, M.IrqExact;
    var start := n.inflight[serial].start;
    assert Elapsed(now, start) == now - start;
    assert serial in n.inflight.Keys;
    assert forall k :: k in n.inflight <==> k == serial;
  }

  // ---------- Routing as the registers say ----------

  /** Rule `i` covers address `a`, as its registers read: enabled, and `start <= a < end`. */
  ghost predicate Covers(s: Router, m: M.Monitor, i: nat, a: nat)
    requires Legal(s) && i < MAX_ROUTES
  {
    CfgRead(s, m, RuleReg(i, 0xC)) % 2 == 1 && CfgRead(s, m, RuleReg(i, 0x0)) <= a < CfgRead(s, m, RuleReg(i, 0x4))
  }

  function RuleReg(i: nat, off: nat): (reg: nat)
    requires i < MAX_ROUTES && off < 0x10
    ensures 0x100 <= reg < 0x200 && (reg - 0x100) / 0x10 == i && (reg - 0x100) % 0x10 == off
  {
    0x100 + 0x10 * i + off
  }

  lemma CoversIsMatches(s: Router, m: M.Monitor, i: nat, a: nat)
    requires Legal(s) && i < MAX_ROUTES
    ensures Covers(s, m, i, a) <==> s.rules[i].Matches(a)
  {}

  /** The rule walk in terms of what the rule registers read: an address is routed by rule `i` exactly if
      rule `i` covers it and no higher-numbered rule does, and by none exactly if none covers it. */
  lemma RouteByRegisters(s: Router, m: M.Monitor, i: nat, a: nat)
    requires Legal(s) && i < MAX_ROUTES
    ensures Route(s.rules, a) == Some(i) <==>
      Covers(s, m, i, a) && forall j :: i < j < MAX_ROUTES ==> !Covers(s, m, j, a)
    ensures Route(s.rules, a) == None <==> forall j :: 0 <= j < MAX_ROUTES ==> !Covers(s, m, j, a)
  {
    hide Covers, CacheSound;
    forall j: nat | j < MAX_ROUTES
      ensures Covers(s, m, j, a) <==> s.rules[j].Matches(a)
    {
      CoversIsMatches(s, m, j, a);
    }
    assert forall j :: 0 <= j < MAX_ROUTES ==> (Covers(s, m, j, a) <==> s.rules[j].Matches(a));
  }

  // ---------- Read-only registers ----------

  /** The identification registers, the count of valid lines, and the status registers at power-up. */
  lemma ConstantsRead(s: Router, m: M.Monitor)
    requires Legal(s)
    ensures CfgRead(s, m, 0x018) == s.nInit && CfgRead(s, m, 0x01C) == s.nTgt && CfgRead(s, m, 0x014) == 0x0001_0000
    ensures CfgRead(s, m, 0x504) == 8 && CfgRead(s, m, 0x508) == 16 && CfgRead(s, m, 0x50C) == 32
    ensures CfgRead(s, m, 0x510) == |set k | 0 <= k < DC.LINES && s.dc[k].valid|
    ensures CfgRead(s, m, 0x500) == 0
    ensures CfgRead(s, M.PowerUp(), 0x008) == 0xFFFF
    ensures CfgRead(s, M.PowerUp(), 0x00C) == 0 && CfgRead(s, M.PowerUp(), 0x010) == 0
  {
    hide CacheSound, DC.ValidCount;
    DC.CountsValid(s.dc, DC.LINES);
  }

  // ---------- The status register ----------

  /** STATUS, as read: the three bits, and above them the initiator of the last decode error. */
  lemma StatusShows(m: M.Monitor)
    requires m.initId < 16
    ensures var v := M.ReadMonitor(m, 0x00C);
      && (v % 2 == 1 <==> M.TIMEOUT in m.status)
      && (v / 2 % 2 == 1 <==> M.DECODE_ERR in m.status)
      && (v / 4 % 2 == 1 <==> M.CACHE_EVICT in m.status)
      && v / 16 == m.initId
  {
    var low := M.PackThree(m.status);
    assert low < 8 && M.ReadMonitor(m, 0x00C) == low + 16 * m.initId;
  }

  /** That field changes exactly with a decode error, and then names its initiator. */
  lemma StepKeepsInitiator(n: Noc, a: Act)
    requires Ok(n) && LegalAct(n.router, a)
    ensures NocStep(n, a).monitor.initId ==
      if Raises(n, a, M.DECODE_ERR) then a.id % 16 else n.monitor.initId
  {
    hide Legal, Decode, Step, Evicts, Flag, M.ThreeBits, Overdue, M.IrqExact, DrainStep, Consulted;
    if Decodes(n.router, a) {
      DecodeFailsIff(n.router, a.op.addr);
    }
    if a.Drain? {
      DrainKeepsMonitor(n, a.tgt);
    }
  }

  /** Over any run: once act `k` has failed to decode and none after it has, the field names the
      initiator of act `k`. */
  lemma {:induction false} InitiatorOfLast(n: Noc, acts: seq<Act>, k: nat)
    requires Ok(n) && LegalActs(n.router, acts) && k < |acts| && RaisedAt(n, acts, k, M.DECODE_ERR)
    requires forall j :: k < j < |acts| ==> !RaisedAt(n, acts, j, M.DECODE_ERR)
    ensures RunOf(n, acts).monitor.initId == acts[k].id % 16
    decreases |acts|
  {
    hide Ok, LegalAct, NocStep, RunOf, Decodes, Replaces, Overdue;
    var front, last := |acts| - 1, acts[|acts| - 1];
    RunLastAct(n, acts);
    StepKeepsInitiator(RunOf(n, acts[..front]), last);
    assert RaisedAt(n, acts, front, M.DECODE_ERR) <==> Raises(RunOf(n, acts[..front]), last, M.DECODE_ERR);
    if k < front {
      forall j | k <= j < front
        ensures RaisedAt(n, acts[..front], j, M.DECODE_ERR) <==> RaisedAt(n, acts, j, M.DECODE_ERR)
      {
        assert acts[..front][..j] == acts[..j];
      }
      InitiatorOfLast(n, acts[..front], k);
    }
  }

  lemma {:induction false} RunLastAct(n: Noc, acts: seq<Act>)
    requires Ok(n) && LegalActs(n.router, acts) && acts != []
    ensures LegalAct(RunOf(n, acts[..|acts| - 1]).router, acts[|acts| - 1])
    ensures RunOf(n, acts) == NocStep(RunOf(n, acts[..|acts| - 1]), acts[|acts| - 1])
    decreases |acts|
  {
    hide Ok, NocStep;
    StepKeepsOk(n, acts[0]);
    SameActs(n, NocStep(n, acts[0]), acts);
    if |acts| == 1 {
      assert acts[..0] == [] && acts[1..] == [];
    } else {
      RunLastAct(NocStep(n, acts[0]), acts[1..]);
      assert acts[..|acts| - 1][1..] == acts[1..][..|acts| - 2];
    }
  }
}

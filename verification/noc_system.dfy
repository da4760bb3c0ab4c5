/** The whole NoC router as one state (noc_router.h): registers and caches, arbiter ports, the
per-target queues and the table of non-blocking requests in flight. */
module NocSystem {
  import opened Prelude
  import opened NocRoutes
  import opened NocTransport
  import opened NocDrain
  import A = NocArbiter
  import F = NocFairness
  import RC = NocRouteCache
  import DC = NocDataCache
  import M = NocMonitor

  /** A request in flight and the time it started. */
  datatype Flight = Flight(entry: NbEntry, start: nat)

  datatype Noc = Noc(router: Router, monitor: M.Monitor, ports: seq<A.Port>, queues: seq<seq<NbEntry>>,
                     inflight: map<nat, Flight>)

  ghost predicate Ok(n: Noc) {
    && Legal(n.router) && M.IrqExact(n.monitor)
    && |n.ports| == |n.queues| == n.router.nTgt
    && F.LegalPorts(n.router.nInit, n.ports)
    && (forall t :: 0 <= t < n.router.nTgt ==> QueueOk(n.router.nInit, n.queues[t]))
    && (forall k :: k in n.inflight ==> n.inflight[k].entry.serial == k)
  }

  datatype Phase = BeginReq | EndReq | BeginResp | EndResp

  /** `serial` identifies the payload. */
  datatype Act =
    /** A blocking access of initiator `id`, or a register write. */
    | Block(id: nat, op: Op)
    /** A non-blocking call of initiator `id` about payload `serial`. */
    | Forward(id: nat, serial: nat, op: Op, phase: Phase, at: nat)
    /** The thread of one target empties its queue. */
    | Drain(tgt: nat)
    /** A non-blocking call of a target: what it answered, or nothing when it refused. */
    | Backward(serial: nat, phase: Phase, data: Option<seq<Byte>>)
    /** A round of the timeout thread. */
    | Check(tick: nat, now: nat)

  ghost predicate LegalAct(s: Router, a: Act) {
    match a
    case Block(id, _) => id < s.nInit
    case Forward(id, _, op, _, _) => id < s.nInit && !op.Cfg?
    case Drain(tgt) => tgt < s.nTgt
    case _ => true
  }

  ghost function Found(s: Router, addr: nat): RC.Found
    requires Legal(s)
  {
    Decode(s.rules, s.rc, Flag(s.ctrl, CTRL_ROUTE_CACHE_EN), addr)
  }

  // ---------- Blocking accesses ----------

  /** The arbiter call of a blocking access. */
  ghost function SoloCall(s: Router, id: nat, tgt: nat): A.Call {
    A.Call(tgt, seq(s.nInit, i => i == id), s.prios, s.weights, s.arbMode, Flag(s.ctrl, CTRL_QOS_EN))
  }

  ghost function Consulted(n: Noc, id: nat, op: Op): seq<A.Port>
    requires Ok(n) && id < n.router.nInit && !op.Cfg?
  {
    var s := n.router;
    var l := Found(s, op.addr).line;
    if Flag(s.ctrl, CTRL_ROUTER_EN) && Flag(s.ctrl, CTRL_ARB_EN) && l.Some? then
      DecodedTargetExists(s, op.addr);
      var t := l.value.tgt;
      n.ports[t := A.Decide(n.ports[t], SoloCall(s, id, t)).port]
    else n.ports
  }

  ghost function BlockStep(n: Noc, id: nat, op: Op): (Response, Noc)
    requires Ok(n) && id < n.router.nInit
  {
    var (r, s) := Step(n.router, op);
    (r,
     if op.Cfg? then n.(router := s, monitor := M.WriteMonitor(n.monitor, op.reg, op.val))
     else n.(router := s, monitor := Reported(n.router, n.monitor, id, op), ports := Consulted(n, id, op)))
  }

  // ---------- Non-blocking requests ----------

  datatype Sync = Accepted | Completed(status: Option<Response>)

  ghost function ForwardStep(n: Noc, id: nat, serial: nat, op: Op, phase: Phase, at: nat): (Sync, Noc)
    requires Ok(n) && id < n.router.nInit && !op.Cfg?
  {
    var s := n.router;
    if phase.EndResp? then (Completed(None), n.(inflight := n.inflight - {serial}))
    else if !phase.BeginReq? || !Flag(s.ctrl, CTRL_NB_MODE_EN) then (Accepted, n)
    else if !Flag(s.ctrl, CTRL_ROUTER_EN) then (Completed(Some(Disabled)), n)
    else
      var f := Found(s, op.addr);
      var n' := n.(router := s.(rc := f.cache));
      if f.line.None? then (Completed(Some(DecodeError)), n'.(monitor := M.DecodeFailed(n.monitor, id)))
      else
        DecodedTargetExists(s, op.addr);
        var e := NbEntry(serial, id, f.line.value.cacheable, op);
        (Accepted, n'.(queues := Enqueued(n.queues, f.line.value.tgt, e),
                       inflight := n.inflight[serial := Flight(e, at)]))
  }

  ghost function Enqueued(queues: seq<seq<NbEntry>>, tgt: nat, e: NbEntry): seq<seq<NbEntry>>
    requires tgt < |queues|
  {
    queues[tgt := queues[tgt] + [e]]
  }

  // ---------- The queues ----------

  ghost function SettingsOf(s: Router, tgt: nat): Settings {
    Settings(s.nInit, tgt, Flag(s.ctrl, CTRL_ARB_EN), s.arbMode, Flag(s.ctrl, CTRL_QOS_EN), s.prios, s.weights)
  }

  /** The payloads the cache answered. */
  function AnsweredIn(log: seq<Dispatch>): set<nat> {
    set k | 0 <= k < |log| && log[k].Answered? :: log[k].entry.serial
  }

  ghost function DrainStep(n: Noc, tgt: nat): (seq<Dispatch>, Noc)
    requires Ok(n) && tgt < n.router.nTgt
  {
    var g := SettingsOf(n.router, tgt);
    var en := Flag(n.router.ctrl, CTRL_DATA_CACHE_EN);
    var order := DrainOrder(g, n.ports[tgt], n.queues[tgt]);
    var log := DispatchAll(en, n.router.dc, order);
    (log,
     n.(router := n.router.(dc := CacheAfterAll(en, n.router.dc, order)),
        ports := n.ports[tgt := DrainPort(g, n.ports[tgt], n.queues[tgt])],
        queues := n.queues[tgt := []],
        inflight := n.inflight - AnsweredIn(log)))
  }

  // ---------- Responses of the targets ----------

  /** The response is for a request in flight, and fills the data cache. */
  ghost predicate Fills(n: Noc, serial: nat, data: Option<seq<Byte>>) {
    && serial in n.inflight && data.Some? && Flag(n.router.ctrl, CTRL_DATA_CACHE_EN)
    && n.inflight[serial].entry.cacheable && n.inflight[serial].entry.op.Read?
  }

  /** Whom the response is passed on to, if anyone, and the state after it. */
  ghost function BackwardStep(n: Noc, serial: nat, phase: Phase, data: Option<seq<Byte>>): (Option<nat>, Noc) {
    if !phase.BeginResp? || serial !in n.inflight then (None, n)
    else
      var e := n.inflight[serial].entry;
      var n' := n.(inflight := n.inflight - {serial});
      (Some(e.initId),
       if !Fills(n, serial, data) then n'
       else n'.(router := n.router.(dc := DC.Allocate(n.router.dc, e.op.addr, data.value)),
                monitor := if n.router.dc[DC.Index(e.op.addr)].valid then M.Evicted(n.monitor) else n.monitor))
  }

  // ---------- Timeouts ----------

  const TIME_RANGE: nat := 0x1_0000_0000_0000_0000

  /** Simulation times are unsigned 64-bit: a request that starts after `now` has wrapped. */
  function Elapsed(now: nat, start: nat): nat {
    (now - start) % TIME_RANGE
  }

  ghost predicate Overdue(n: Noc, tick: nat, now: nat) {
    exists k :: k in n.inflight && Elapsed(now, n.inflight[k].start) > tick * n.monitor.timeoutCfg
  }

  ghost function CheckStep(n: Noc, tick: nat, now: nat): Noc {
    if Flag(n.router.ctrl, CTRL_TIMEOUT_EN) && Overdue(n, tick, now) then n.(monitor := M.TimedOut(n.monitor)) else n
  }

  // ---------- One step ----------

  ghost function NocStep(n: Noc, a: Act): Noc
    requires Ok(n) && LegalAct(n.router, a)
  {
    match a
    case Block(id, op) => BlockStep(n, id, op).1
    case Forward(id, serial, op, phase, at) => ForwardStep(n, id, serial, op, phase, at).1
    case Drain(tgt) => DrainStep(n, tgt).1
    case Backward(serial, phase, data) => BackwardStep(n, serial, phase, data).1
    case Check(tick, now) => CheckStep(n, tick, now)
  }

  lemma BlockKeepsOk(n: Noc, id: nat, op: Op)
    requires Ok(n) && id < n.router.nInit
    ensures Ok(BlockStep(n, id, op).1) && SameSize(n, BlockStep(n, id, op).1)
  {
    hide Step, Decode, CacheSound, Flag, M.IrqExact, M.Evicted, M.DecodeFailed, M.WriteMonitor, A.Decide, QueueOk;
    StepKeepsLegal(n.router, op);
    StepSize(n.router, op);
    if op.Cfg? {
      M.NextKeepsIrqExact(n.monitor, M.Wrote(op.reg, op.val));
    } else {
      M.NextKeepsIrqExact(n.monitor, M.Failed(id));
      M.NextKeepsIrqExact(n.monitor, M.Replaced);
      var l := Found(n.router, op.addr).line;
      if l.Some? {
        DecodedTargetExists(n.router, op.addr);
        F.AfterIsLegal(n.router.nInit, n.ports, SoloCall(n.router, id, l.value.tgt));
      }
    }
  }

  ghost predicate SameSize(n: Noc, n': Noc) {
    n'.router.nInit == n.router.nInit && n'.router.nTgt == n.router.nTgt
  }

  lemma StepSize(s: Router, op: Op)
    requires Legal(s)
    ensures Step(s, op).1.nInit == s.nInit && Step(s, op).1.nTgt == s.nTgt
  {
    hide Legal, Decode, DC.Write, DC.Allocate, DC.ReadHits, Flag;
  }

  lemma ForwardKeepsOk(n: Noc, id: nat, serial: nat, op: Op, phase: Phase, at: nat)
    requires Ok(n) && id < n.router.nInit && !op.Cfg?
    ensures Ok(ForwardStep(n, id, serial, op, phase, at).1)
    ensures SameSize(n, ForwardStep(n, id, serial, op, phase, at).1)
  {
    hide Decode, CacheSound, Flag, M.IrqExact, M.DecodeFailed;
    var s := n.router;
    DecodeKeepsSound(s.rules, s.rc, Flag(s.ctrl, CTRL_ROUTE_CACHE_EN), op.addr);
    DecodeSize(s.rules, s.rc, Flag(s.ctrl, CTRL_ROUTE_CACHE_EN), op.addr);
    DecodedTargetExists(s, op.addr);
    M.NextKeepsIrqExact(n.monitor, M.Failed(id));
  }

  lemma DrainKeepsOk(n: Noc, tgt: nat)
    requires Ok(n) && tgt < n.router.nTgt
    ensures Ok(DrainStep(n, tgt).1) && SameSize(n, DrainStep(n, tgt).1)
  {
    hide CacheSound, Flag, M.IrqExact, DrainPort, DrainOrder, CacheAfterAll;
    DrainPortIsLegal(SettingsOf(n.router, tgt), n.ports[tgt], n.queues[tgt]);
  }

  lemma {:induction false} DrainPortIsLegal(g: Settings, p: A.Port, q: seq<NbEntry>)
    requires LegalSettings(g) && F.LegalPort(g.nInit, p) && QueueOk(g.nInit, q)
    ensures F.LegalPort(g.nInit, DrainPort(g, p, q))
    decreases |q|
  {
    if q != [] {
      hide A.Decide, Pick;
      var t := TakeTurn(g, p, q);
      WinnerIsWaiting(g, p, q);
      var ports := seq(g.tgt + 1, i => p);
      F.AfterIsLegal(g.nInit, ports, CallFor(g, q));
      DrainPortIsLegal(g, t.port, t.rest);
    }
  }

  lemma BackwardKeepsOk(n: Noc, serial: nat, phase: Phase, data: Option<seq<Byte>>)
    requires Ok(n)
    ensures Ok(BackwardStep(n, serial, phase, data).1) && SameSize(n, BackwardStep(n, serial, phase, data).1)
  {
    hide CacheSound, Flag, M.IrqExact, M.Evicted, DC.Allocate;
    M.NextKeepsIrqExact(n.monitor, M.Replaced);
  }

  lemma CheckKeepsOk(n: Noc, tick: nat, now: nat)
    requires Ok(n)
    ensures Ok(CheckStep(n, tick, now)) && SameSize(n, CheckStep(n, tick, now))
  {
    hide CacheSound, Flag, M.IrqExact, M.TimedOut;
    M.NextKeepsIrqExact(n.monitor, M.Overdue);
  }

  /** Every step of the router keeps its invariant. */
  lemma StepKeepsOk(n: Noc, a: Act)
    requires Ok(n) && LegalAct(n.router, a)
    ensures Ok(NocStep(n, a)) && SameSize(n, NocStep(n, a))
  {
    hide Ok, BlockStep, ForwardStep, DrainStep, BackwardStep, CheckStep;
    match a
    case Block(id, op) => BlockKeepsOk(n, id, op);
    case Forward(id, serial, op, phase, at) => ForwardKeepsOk(n, id, serial, op, phase, at);
    case Drain(tgt) => DrainKeepsOk(n, tgt);
    case Backward(serial, phase, data) => BackwardKeepsOk(n, serial, phase, data);
    case Check(tick, now) => CheckKeepsOk(n, tick, now);
  }

  ghost predicate LegalActs(s: Router, acts: seq<Act>) {
    forall k :: 0 <= k < |acts| ==> LegalAct(s, acts[k])
  }

  ghost function RunOf(n: Noc, acts: seq<Act>): (r: Noc)
    requires Ok(n) && LegalActs(n.router, acts)
    ensures Ok(r)
    decreases |acts|
  {
    if acts == [] then n
    else
      StepKeepsOk(n, acts[0]);
      SameActs(n, NocStep(n, acts[0]), acts);
      RunOf(NocStep(n, acts[0]), acts[1..])
  }

  lemma SameActs(n: Noc, n': Noc, acts: seq<Act>)
    requires SameSize(n, n') && LegalActs(n.router, acts) && acts != []
    ensures LegalActs(n'.router, acts[1..])
  {}
}

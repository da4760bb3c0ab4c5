/** Register writes and the blocking data path of the NoC router, and one step of the theorem that
both caches are invisible: a cached router answers as a router without caches would. */
module NocTransport {
  import opened Prelude
  import opened NocRoutes
  import RC = NocRouteCache
  import DC = NocDataCache
  import M = NocMonitor

  /** What every configuration register write keeps. The arbitration mode never becomes the
      reserved value, weights never become zero, route targets always exist, and every valid
      route-cache entry is the image of a rule that routes some address now. */
  ghost predicate Legal(s: Router) {
    && 0 < s.nInit && 0 < s.nTgt == |s.mems|
    && |s.rules| == MAX_ROUTES
    && (forall i :: 0 <= i < MAX_ROUTES ==> s.rules[i].tgt < s.nTgt)
    && s.ctrl < 256 && s.arbMode <= 2
    && |s.prios| == |s.weights| == s.nInit
    && (forall i :: 0 <= i < s.nInit ==> s.prios[i] <= 7 && 1 <= s.weights[i] <= 255)
    && |s.rc.entries| == ROUTE_CACHE_CAPACITY
    && CacheSound(s.rules, s.rc)
  }

  // ---------- Configuration writes ----------

  function WriteRule(r: Rule, nTgt: nat, off: nat, val: nat): Rule
    requires 0 < nTgt
  {
    if off == 0x00 then r.(start := val)
    else if off == 0x04 then r.(end := val)
    else if off == 0x08 then r.(tgt := if val >= nTgt then nTgt - 1 else val)
    else if off == 0x0C then r.(enabled := Flag(val, 1), cacheable := Flag(val, 2))
    else r
  }

  /** GLOBAL_CTRL: a cache that is switched off is flushed. */
  ghost function WriteCtrl(s: Router, val: nat): Router {
    var ctrl := val % 256;
    s.(ctrl := ctrl,
       rc := if Flag(s.ctrl, CTRL_ROUTE_CACHE_EN) && !Flag(ctrl, CTRL_ROUTE_CACHE_EN) then RC.Flush(s.rc) else s.rc,
       dc := if Flag(s.ctrl, CTRL_DATA_CACHE_EN) && !Flag(ctrl, CTRL_DATA_CACHE_EN) then DC.Flush(s.dc) else s.dc)
  }

  /** What a register write does to the routing and caching state; the status and interrupt
      registers are those of NocMonitor, the statistics counters are not modelled. */
  ghost function CfgWrite(s: Router, addr: nat, val: nat): Router
    requires Legal(s)
  {
    if addr == 0x000 then WriteCtrl(s, val)
    else if addr == 0x004 then s.(arbMode := if val % 4 == 3 then 0 else val % 4)
    else if 0x100 <= addr < 0x200 then
      var i := (addr - 0x100) / 0x10;
      s.(rules := s.rules[i := WriteRule(s.rules[i], s.nTgt, (addr - 0x100) % 0x10, val)], rc := RC.Flush(s.rc))
    else if 0x200 <= addr < 0x240 then
      var i := (addr - 0x200) / 4;
      if i < s.nInit then s.(prios := s.prios[i := val % 8]) else s
    else if 0x240 <= addr < 0x280 then
      var i := (addr - 0x240) / 4;
      if i < s.nInit then s.(weights := s.weights[i := if val % 256 == 0 then 1 else val % 256]) else s
    else if addr == 0x500 then
      s.(rc := if Flag(val, 1) then RC.Flush(s.rc) else s.rc, dc := if Flag(val, 2) then DC.Flush(s.dc) else s.dc)
    else s
  }

  lemma FlushIsSound(rules: seq<Rule>, rc: RC.Cache)
    requires 0 < |rc.entries|
    ensures CacheSound(rules, RC.Flush(rc)) && EmptyRouteCache(RC.Flush(rc))
  {}

  lemma CfgWriteKeepsLegal(s: Router, addr: nat, val: nat)
    requires Legal(s)
    ensures Legal(CfgWrite(s, addr, val))
  {
    hide CacheSound, Flag, RC.Flush, DC.Flush;
    assert 0 < |s.rc.entries|;
    FlushIsSound(s.rules, s.rc);
    if 0x100 <= addr < 0x200 {
      FlushIsSound(CfgWrite(s, addr, val).rules, s.rc);
      FlushSize(s.rc);
    }
    FlushSize(s.rc);
  }

  lemma FlushSize(rc: RC.Cache)
    ensures |RC.Flush(rc).entries| == |rc.entries|
  {}

  function ReadRule(r: Rule, off: nat): nat {
    if off == 0x00 then r.start
    else if off == 0x04 then r.end
    else if off == 0x08 then r.tgt
    else if off == 0x0C then One(r.enabled) + 2 * One(r.cacheable)
    else 0
  }

  /** Reads of every register but the statistics counters. */
  function CfgRead(s: Router, m: M.Monitor, addr: nat): nat
    requires |s.rules| == MAX_ROUTES && |s.prios| == |s.weights| == s.nInit
    requires !(0x300 <= addr < 0x320)
  {
    if addr == 0x000 then s.ctrl
    else if addr == 0x004 then s.arbMode
    else if addr in {0x008, 0x00C, 0x010, 0x014} then M.ReadMonitor(m, addr)
    else if addr == 0x018 then s.nInit
    else if addr == 0x01C then s.nTgt
    else if 0x100 <= addr < 0x200 then ReadRule(s.rules[(addr - 0x100) / 0x10], (addr - 0x100) % 0x10)
    else if 0x200 <= addr < 0x240 && (addr - 0x200) / 4 < s.nInit then s.prios[(addr - 0x200) / 4]
    else if 0x240 <= addr < 0x280 && (addr - 0x240) / 4 < s.nInit then s.weights[(addr - 0x240) / 4]
    else if addr == 0x504 then ROUTE_CACHE_CAPACITY
    else if addr == 0x508 then DC.LINES
    else if addr == 0x50C then DC.LINE_SIZE
    else if addr == 0x510 then DC.ValidCount(s.dc, DC.LINES)
    else 0
  }

  /** The registers that hold what is written, at their word addresses. */
  predicate Programmable(s: Router, addr: nat) {
    addr % 4 == 0 && (
      || addr in {0x000, 0x004, 0x008, 0x010} || 0x100 <= addr < 0x200
      || (0x200 <= addr < 0x240 && (addr - 0x200) / 4 < s.nInit)
      || (0x240 <= addr < 0x280 && (addr - 0x240) / 4 < s.nInit))
  }

  /** The legal value nearest to what software wrote. */
  function Legalised(s: Router, addr: nat, val: nat): int {
    if addr == 0x000 then val % 256
    else if addr == 0x004 then if val % 4 == 3 then 0 else val % 4
    else if addr == 0x008 then val % 0x10000
    else if addr == 0x010 then val % 8
    else if addr < 0x200 then
      if addr % 0x10 == 0x08 then if val < s.nTgt then val else s.nTgt - 1
      else if addr % 0x10 == 0x0C then val % 4
      else val
    else if addr < 0x240 then val % 8
    else if val % 256 == 0 then 1 else val % 256
  }

  /** A programmable register reads back the legal value of what was written to it, and a write
      changes what no other register reads, except the count of valid lines. */
  lemma CfgReadsBack(s: Router, m: M.Monitor, addr: nat, addr': nat, val: nat)
    requires Legal(s) && Programmable(s, addr) && addr' % 4 == 0 && addr' != 0x510 && !(0x300 <= addr' < 0x320)
    ensures var r, n := CfgWrite(s, addr, val), M.WriteMonitor(m, addr, val);
      && |r.rules| == MAX_ROUTES && |r.prios| == |r.weights| == r.nInit
      && CfgRead(r, n, addr') == if addr' == addr then Legalised(s, addr, val) else CfgRead(s, m, addr')
  {
    hide RC.Flush, DC.Flush, CacheSound, M.ThreeBits, M.PackThree;
    M.ThreeBitsPack(val);
    if 0x100 <= addr < 0x200 {
      RuleReadsBack(s.rules[(addr - 0x100) / 0x10], s.nTgt, (addr - 0x100) % 0x10, (addr' - 0x100) % 0x10, val);
    }
  }

  lemma RuleReadsBack(r: Rule, nTgt: nat, off: nat, off': nat, val: nat)
    requires 0 < nTgt && off in {0, 4, 8, 12} && off' in {0, 4, 8, 12}
    ensures ReadRule(WriteRule(r, nTgt, off, val), off') ==
      if off != off' then ReadRule(r, off')
      else if off == 8 then (if val >= nTgt then nTgt - 1 else val)
      else if off == 12 then val % 4
      else val
  {}

  // ---------- The blocking data path ----------

  datatype Op =
    | Read(addr: nat, len: nat)
    | Write(addr: nat, data: seq<Byte>)
    | Cfg(reg: nat, val: nat)

  datatype Response =
    | Data(data: seq<Byte>)
    | Done
    | DecodeError
    | Disabled
    | TargetError

  predicate Accepts(m: Memory, addr: nat, len: nat) {
    forall a :: addr <= a < addr + len ==> a in m
  }

  function Fetch(m: Memory, addr: nat, len: nat): (data: seq<Byte>)
    requires Accepts(m, addr, len)
    ensures |data| == len
  {
    seq(len, j requires 0 <= j < len => m[addr + j])
  }

  function Store(m: Memory, addr: nat, data: seq<Byte>): (r: Memory)
    ensures r.Keys == m.Keys
  {
    map a | a in m :: if addr <= a < addr + |data| then data[a - addr] else m[a]
  }

  /** What the target does with a forwarded access. */
  function Target(mems: seq<Memory>, tgt: nat, op: Op): (Response, seq<Memory>)
    requires tgt < |mems|
  {
    match op
    case Read(addr, len) =>
      (if Accepts(mems[tgt], addr, len) then Data(Fetch(mems[tgt], addr, len)) else TargetError, mems)
    case Write(addr, data) =>
      if Accepts(mems[tgt], addr, |data|) then (Done, mems[tgt := Store(mems[tgt], addr, data)])
      else (TargetError, mems)
    case Cfg(_, _) => (Done, mems)
  }

  /** One access once the address is decoded. */
  ghost function Access(s: Router, tgt: nat, cacheable: bool, op: Op): (Response, Router)
    requires tgt < |s.mems|
  {
    var en := Flag(s.ctrl, CTRL_DATA_CACHE_EN);
    if en && cacheable && op.Read? && DC.ReadHits(s.dc, op.addr, op.len) then
      (Data(DC.ReadData(s.dc, op.addr, op.len)), s)
    else
      var (r, mems) := Target(s.mems, tgt, op);
      (r, s.(mems := mems, dc :=
         if en && op.Write? then DC.Write(s.dc, op.addr, op.data)
         else if en && cacheable && op.Read? && r.Data? then DC.Allocate(s.dc, op.addr, r.data)
         else s.dc))
  }

  /** The access fills a line that was valid before (whatever its tag). */
  ghost predicate Evicts(s: Router, tgt: nat, cacheable: bool, op: Op)
    requires tgt < |s.mems|
  {
    && Flag(s.ctrl, CTRL_DATA_CACHE_EN) && cacheable && op.Read? && !DC.ReadHits(s.dc, op.addr, op.len)
    && Target(s.mems, tgt, op).0.Data? && s.dc[DC.Index(op.addr)].valid
  }

  /** One blocking access or register write. */
  ghost function Step(s: Router, op: Op): (Response, Router)
    requires Legal(s)
  {
    match op
    case Cfg(reg, val) => (Done, CfgWrite(s, reg, val))
    case _ =>
      if !Flag(s.ctrl, CTRL_ROUTER_EN) then (Disabled, s)
      else
        var f := Decode(s.rules, s.rc, Flag(s.ctrl, CTRL_ROUTE_CACHE_EN), op.addr);
        var s' := s.(rc := f.cache);
        if f.line.None? then (DecodeError, s')
        else
          DecodedTargetExists(s, op.addr);
          Access(s', f.line.value.tgt, f.line.value.cacheable, op)
  }

  /** What initiator `id`'s blocking access leaves in the status registers. */
  ghost function Reported(s: Router, m: M.Monitor, id: nat, op: Op): M.Monitor
    requires Legal(s) && !op.Cfg?
  {
    if !Flag(s.ctrl, CTRL_ROUTER_EN) then m
    else
      var f := Decode(s.rules, s.rc, Flag(s.ctrl, CTRL_ROUTE_CACHE_EN), op.addr);
      if f.line.None? then M.DecodeFailed(m, id)
      else
        DecodedTargetExists(s, op.addr);
        if Evicts(s, f.line.value.tgt, f.line.value.cacheable, op) then M.Evicted(m) else m
  }

  /** A sound cache only answers with ports that exist, whatever the rules. */
  lemma DecodedTargetExists(s: Router, addr: nat)
    requires Legal(s)
    ensures var f := Decode(s.rules, s.rc, Flag(s.ctrl, CTRL_ROUTE_CACHE_EN), addr);
      f.line.Some? ==> f.line.value.tgt < s.nTgt
  {
    hide RC.Update;
    var k := RC.Slot(RC.Hits(s.rc, addr));
    if k < |s.rc.entries| {
      assert RC.Hits(s.rc, addr)[k];
      var a: nat :| Routes(s.rules, a, s.rc.entries[k].line);
    }
  }

  lemma AccessKeepsLegal(s: Router, tgt: nat, cacheable: bool, op: Op)
    requires Legal(s) && tgt < s.nTgt
    ensures Legal(Access(s, tgt, cacheable, op).1)
  {
    hide CacheSound, DC.Write, DC.Allocate, DC.ReadHits, DC.ReadData, Flag;
  }

  lemma DecodeSize(rules: seq<Rule>, rc: RC.Cache, en: bool, addr: nat)
    requires 0 < |rc.entries|
    ensures |Decode(rules, rc, en, addr).cache.entries| == |rc.entries|
  {}

  /** Every step keeps `Legal`, for every route table and every register write. */
  lemma StepKeepsLegal(s: Router, op: Op)
    requires Legal(s)
    ensures Legal(Step(s, op).1)
  {
    hide Decode, Access, CacheSound, CfgWrite, Flag;
    if op.Cfg? {
      CfgWriteKeepsLegal(s, op.reg, op.val);
    } else {
      var en := Flag(s.ctrl, CTRL_ROUTE_CACHE_EN);
      var f := Decode(s.rules, s.rc, en, op.addr);
      DecodeKeepsSound(s.rules, s.rc, en, op.addr);
      DecodeSize(s.rules, s.rc, en, op.addr);
      if f.line.Some? {
        DecodedTargetExists(s, op.addr);
        AccessKeepsLegal(s.(rc := f.cache), f.line.value.tgt, f.line.value.cacheable, op);
      }
    }
  }

  // ---------- The router without caches ----------

  /** The rule walk and the targets; of the registers only ROUTER_EN matters to it. */
  datatype Plain = Plain(rules: seq<Rule>, enabled: bool, mems: seq<Memory>)

  predicate PlainOk(p: Plain) {
    0 < |p.mems| && |p.rules| == MAX_ROUTES && forall i :: 0 <= i < MAX_ROUTES ==> p.rules[i].tgt < |p.mems|
  }

  function PlainStep(p: Plain, op: Op): (r: (Response, Plain))
    requires PlainOk(p)
    ensures PlainOk(r.1)
  {
    match op
    case Cfg(reg, val) =>
      (Done,
       if reg == 0x000 then p.(enabled := Flag(val % 256, CTRL_ROUTER_EN))
       else if IsRouteReg(reg) then
         var i := (reg - 0x100) / 0x10;
         p.(rules := p.rules[i := WriteRule(p.rules[i], |p.mems|, (reg - 0x100) % 0x10, val)])
       else p)
    case _ =>
      if !p.enabled then (Disabled, p)
      else
        match Route(p.rules, op.addr)
        case None => (DecodeError, p)
        case Some(i) =>
          var (r, mems) := Target(p.mems, p.rules[i].tgt, op);
          (r, p.(mems := mems))
  }

  predicate IsRouteReg(reg: nat) {
    0x100 <= reg < 0x200
  }

  ghost function Uncached(s: Router): Plain {
    Plain(s.rules, Flag(s.ctrl, CTRL_ROUTER_EN), s.mems)
  }

  // ---------- Transparency ----------

  /** Every byte of an access is routed to the port its first byte is routed to. */
  ghost predicate OneTarget(rules: seq<Rule>, addr: nat, len: nat) {
    Route(rules, addr).Some? ==>
      forall a: nat :: addr <= a < addr + len ==>
        Route(rules, a).Some? && rules[Route(rules, a).value].tgt == rules[Route(rules, addr).value].tgt
  }

  /** What an access has to respect: it stays with one target; a write stays in one cache line and
      is accepted. Reads may be of any length and may be rejected. */
  ghost predicate Disciplined(rules: seq<Rule>, mems: seq<Memory>, op: Op)
    requires forall i :: 0 <= i < |rules| ==> rules[i].tgt < |mems|
  {
    match op
    case Read(addr, len) => OneTarget(rules, addr, len)
    case Write(addr, data) =>
      && OneTarget(rules, addr, |data|) && DC.Fits(addr, |data|)
      && (Route(rules, addr).Some? ==> Accepts(mems[rules[Route(rules, addr).value].tgt], addr, |data|))
    case Cfg(_, _) => true
  }

  /** The memory as its clients address it: each address at the target it is routed to. */
  ghost function Behind(rules: seq<Rule>, mems: seq<Memory>): DC.View
    requires forall i :: 0 <= i < |rules| ==> rules[i].tgt < |mems|
  {
    (a: nat) =>
      match Route(rules, a)
      case None => None
      case Some(i) => if a in mems[rules[i].tgt] then Some(mems[rules[i].tgt][a]) else None
  }

  ghost predicate NoLines(c: DC.Cache) {
    forall k :: 0 <= k < DC.LINES ==> !c[k].valid
  }

  /** The invariant of a run: held bytes are the bytes their addresses are routed to, and a disabled
      data cache holds nothing. */
  ghost predicate Faithful(s: Router) {
    && Legal(s)
    && DC.Coherent(s.dc, Behind(s.rules, s.mems))
    && (!Flag(s.ctrl, CTRL_DATA_CACHE_EN) ==> NoLines(s.dc))
  }

  /** A hit answers what the target would. */
  lemma HitIsFetch(s: Router, addr: nat, len: nat)
    requires Faithful(s) && OneTarget(s.rules, addr, len) && Route(s.rules, addr).Some?
    requires DC.ReadHits(s.dc, addr, len)
    ensures var m := s.mems[s.rules[Route(s.rules, addr).value].tgt];
      Accepts(m, addr, len) && Fetch(m, addr, len) == DC.ReadData(s.dc, addr, len)
  {
    hide DC.ReadData, DC.ReadHits, DC.Cached, DC.CachedByte, Route, NoShadow, Flag;
    DC.ReadHitMeansCached(s.dc, addr, len);
    var m := s.mems[s.rules[Route(s.rules, addr).value].tgt];
    forall a: nat | addr <= a < addr + len
      ensures a in m && m[a] == DC.ReadData(s.dc, addr, len)[a - addr]
    {
      assert DC.Cached(s.dc, a);
      assert Behind(s.rules, s.mems)(a) == Some(DC.CachedByte(s.dc, a));
    }
    forall j | 0 <= j < len
      ensures Fetch(m, addr, len)[j] == DC.ReadData(s.dc, addr, len)[j]
    {
      assert m[addr + j] == DC.ReadData(s.dc, addr, len)[addr + j - addr];
    }
  }

  /** The memory view after an accepted write. */
  lemma StoredBehind(rules: seq<Rule>, mems: seq<Memory>, addr: nat, data: seq<Byte>, a: nat)
    requires forall i :: 0 <= i < |rules| ==> rules[i].tgt < |mems|
    requires OneTarget(rules, addr, |data|) && Route(rules, addr).Some?
    requires Accepts(mems[rules[Route(rules, addr).value].tgt], addr, |data|)
    ensures var tgt := rules[Route(rules, addr).value].tgt;
      Behind(rules, mems[tgt := Store(mems[tgt], addr, data)])(a) == DC.Stored(Behind(rules, mems), addr, data, true)(a)
  {
    hide Route;
  }

  lemma NoLinesIsCoherent(c: DC.Cache, v: DC.View)
    requires NoLines(c)
    ensures DC.Coherent(c, v)
  {}

  /** An accepted write keeps the cache coherent with the memory it changes. */
  lemma WriteStaysFaithful(s: Router, addr: nat, data: seq<Byte>)
    requires Faithful(s) && Disciplined(s.rules, s.mems, Write(addr, data)) && Route(s.rules, addr).Some?
    ensures var tgt := s.rules[Route(s.rules, addr).value].tgt;
      Faithful(Access(s, tgt, s.rules[Route(s.rules, addr).value].cacheable, Write(addr, data)).1)
  {
    hide DC.Write, DC.Cached, DC.CachedByte, Flag, Route, NoShadow, DC.Fits, Accepts, CacheSound, OneTarget, Behind;
    var i := Route(s.rules, addr).value;
    var tgt := s.rules[i].tgt;
    var s' := Access(s, tgt, s.rules[i].cacheable, Write(addr, data)).1;
    AccessKeepsLegal(s, tgt, s.rules[i].cacheable, Write(addr, data));
    var v, v' := Behind(s.rules, s.mems), Behind(s.rules, s'.mems);
    if Flag(s.ctrl, CTRL_DATA_CACHE_EN) {
      DC.SafeWriteKeeps(s.dc, v, addr, data, true);
      assert s'.dc == DC.Write(s.dc, addr, data);
      forall a: nat | DC.Cached(s'.dc, a)
        ensures v'(a) == Some(DC.CachedByte(s'.dc, a))
      {
        StoredBehind(s.rules, s.mems, addr, data, a);
      }
    } else {
      NoLinesIsCoherent(s'.dc, v');
    }
  }

  lemma FetchedIsBehind(rules: seq<Rule>, mems: seq<Memory>, addr: nat, len: nat)
    requires forall i :: 0 <= i < |rules| ==> rules[i].tgt < |mems|
    requires OneTarget(rules, addr, len) && Route(rules, addr).Some?
    requires Accepts(mems[rules[Route(rules, addr).value].tgt], addr, len)
    ensures var data := Fetch(mems[rules[Route(rules, addr).value].tgt], addr, len);
      forall a: nat :: addr <= a < addr + len ==> Behind(rules, mems)(a) == Some(data[a - addr])
  {
    hide Route;
    forall a: nat | addr <= a < addr + len
      ensures Behind(rules, mems)(a) == Some(Fetch(mems[rules[Route(rules, addr).value].tgt], addr, len)[a - addr])
    {
      assert Route(rules, a).Some?;
    }
  }

  /** A read keeps the cache coherent: it allocates what the target answered, or nothing. */
  lemma ReadStaysFaithful(s: Router, addr: nat, len: nat)
    requires Faithful(s) && OneTarget(s.rules, addr, len) && Route(s.rules, addr).Some?
    ensures var i := Route(s.rules, addr).value;
      Faithful(Access(s, s.rules[i].tgt, s.rules[i].cacheable, Read(addr, len)).1)
  {
    hide DC.Allocate, DC.Coherent, DC.ReadHits, DC.ReadData, Flag, Route, NoShadow, CacheSound, Behind, OneTarget,
      Accepts, Fetch;
    var i := Route(s.rules, addr).value;
    var m := s.mems[s.rules[i].tgt];
    AccessKeepsLegal(s, s.rules[i].tgt, s.rules[i].cacheable, Read(addr, len));
    if Accepts(m, addr, len) {
      FetchedIsBehind(s.rules, s.mems, addr, len);
      DC.AllocateKeepsCoherence(s.dc, Behind(s.rules, s.mems), addr, Fetch(m, addr, len));
    }
  }

  lemma FaithfulIsLegal(s: Router)
    requires Faithful(s)
    ensures Legal(s) && PlainOk(Uncached(s))
    ensures forall i :: 0 <= i < |s.rules| ==> s.rules[i].tgt < |s.mems|
  {}

  /** What keeps both caches out of sight at the moment of `op`. An access is made under a table
      that shadows nothing. A route write, which flushes the route cache but not the data cache,
      leaves every held byte where its address is routed afterwards. Other register writes are
      free. */
  ghost predicate Admissible(s: Router, op: Op)
    requires Faithful(s)
  {
    FaithfulIsLegal(s);
    if !op.Cfg? then NoShadow(s.rules) && Disciplined(s.rules, s.mems, op)
    else IsRouteReg(op.reg) ==> DC.Coherent(s.dc, Behind(WrittenRules(s, op), s.mems))
  }

  /** The route table after a register write. */
  ghost function WrittenRules(s: Router, op: Op): (rules: seq<Rule>)
    requires Faithful(s) && op.Cfg?
    ensures forall i :: 0 <= i < |rules| ==> rules[i].tgt < |s.mems|
  {
    hide Legal;
    FaithfulIsLegal(s);
    PlainStep(Uncached(s), op).1.rules
  }

  lemma CfgStaysFaithful(s: Router, op: Op)
    requires Faithful(s) && op.Cfg? && Admissible(s, op)
    ensures Faithful(CfgWrite(s, op.reg, op.val))
    ensures Uncached(CfgWrite(s, op.reg, op.val)) == PlainStep(Uncached(s), op).1
  {
    hide DC.Coherent, Flag, CacheSound, Behind, RC.Flush, WriteRule;
    CfgWriteKeepsLegal(s, op.reg, op.val);
    DC.FlushIsCoherent(s.dc, Behind(s.rules, s.mems));
  }

  /** One step of the cached router is one step of the uncached one. */
  lemma StepIsTransparent(s: Router, op: Op)
    requires Faithful(s) && Admissible(s, op)
    ensures Faithful(Step(s, op).1)
    ensures Step(s, op).0 == PlainStep(Uncached(s), op).0
    ensures Uncached(Step(s, op).1) == PlainStep(Uncached(s), op).1
  {
    hide Decode, DC.Coherent, Flag, Route, NoShadow, CacheSound, DC.Write, DC.Allocate, DC.ReadHits,
      DC.ReadData, CfgWrite;
    if op.Cfg? {
      CfgStaysFaithful(s, op);
    } else if Flag(s.ctrl, CTRL_ROUTER_EN) {
      var en := Flag(s.ctrl, CTRL_ROUTE_CACHE_EN);
      var f := Decode(s.rules, s.rc, en, op.addr);
      StepKeepsLegal(s, op);
      DecodeKeepsSound(s.rules, s.rc, en, op.addr);
      DecodeSize(s.rules, s.rc, en, op.addr);
      DecodeIsRoute(s.rules, s.rc, en, op.addr);
      var s' := s.(rc := f.cache);
      assert Faithful(s');
      if f.line.Some? {
        if op.Read? {
          ReadStaysFaithful(s', op.addr, op.len);
          if DC.ReadHits(s.dc, op.addr, op.len) {
            HitIsFetch(s', op.addr, op.len);
          }
        } else {
          WriteStaysFaithful(s', op.addr, op.data);
        }
      }
    }
  }
}

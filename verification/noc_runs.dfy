/** Whole runs of the NoC router: from power-up, through the programming of its registers and under
any later change of them, a cached router answers as a router without caches would. */
module NocRuns {
  import opened Prelude
  import opened NocRoutes
  import opened NocTransport
  import RC = NocRouteCache
  import DC = NocDataCache

  ghost function Responses(s: Router, ops: seq<Op>): (rs: seq<Response>)
    requires Legal(s)
    ensures |rs| == |ops|
    decreases |ops|
  {
    if ops == [] then []
    else
      StepKeepsLegal(s, ops[0]);
      [Step(s, ops[0]).0] + Responses(Step(s, ops[0]).1, ops[1..])
  }

  ghost function Final(s: Router, ops: seq<Op>): (s': Router)
    requires Legal(s)
    ensures Legal(s')
    decreases |ops|
  {
    if ops == [] then s
    else
      StepKeepsLegal(s, ops[0]);
      Final(Step(s, ops[0]).1, ops[1..])
  }

  ghost function PlainResponses(p: Plain, ops: seq<Op>): (rs: seq<Response>)
    requires PlainOk(p)
    ensures |rs| == |ops|
    decreases |ops|
  {
    if ops == [] then [] else [PlainStep(p, ops[0]).0] + PlainResponses(PlainStep(p, ops[0]).1, ops[1..])
  }

  ghost function PlainFinal(p: Plain, ops: seq<Op>): (p': Plain)
    requires PlainOk(p)
    decreases |ops|
  {
    if ops == [] then p else PlainFinal(PlainStep(p, ops[0]).1, ops[1..])
  }

  /** Every operation of the run is admissible when it is its turn. */
  ghost predicate AdmissibleRun(s: Router, ops: seq<Op>)
    requires Faithful(s)
    decreases |ops|
  {
    ops == [] || (
      Admissible(s, ops[0]) &&
      (FaithfulIsLegal(s); StepIsTransparent(s, ops[0]); AdmissibleRun(Step(s, ops[0]).1, ops[1..])))
  }

  /** Both caches are invisible. Every admissible run of accesses, cache flushes and register
      writes, route writes included, is answered exactly as by a router that walks its rules and
      asks its targets every time, and leaves the targets with the same contents. */
  lemma {:induction false} CachesAreTransparent(s: Router, ops: seq<Op>)
    requires Faithful(s) && AdmissibleRun(s, ops)
    ensures Legal(s) && PlainOk(Uncached(s))
    ensures Responses(s, ops) == PlainResponses(Uncached(s), ops)
    ensures Uncached(Final(s, ops)) == PlainFinal(Uncached(s), ops)
    ensures Faithful(Final(s, ops))
    decreases |ops|
  {
    hide Faithful, Admissible, Step, Legal, PlainStep, PlainOk, Uncached;
    FaithfulIsLegal(s);
    if ops != [] {
      StepIsTransparent(s, ops[0]);
      CachesAreTransparent(Step(s, ops[0]).1, ops[1..]);
    }
  }

  // ---------- Under a fixed table ----------

  /** Discipline does not depend on what was written before: targets keep the addresses they
      decode. */
  lemma DisciplineIsStable(s: Router, op: Op, op': Op)
    requires Faithful(s) && !(op.Cfg? && IsRouteReg(op.reg))
    requires Disciplined(s.rules, s.mems, op')
    requires Faithful(Step(s, op).1) && Uncached(Step(s, op).1) == PlainStep(Uncached(s), op).1
    ensures Step(s, op).1.rules == s.rules
    ensures Disciplined(s.rules, Step(s, op).1.mems, op')
  {
    hide Step, Route, OneTarget;
    var mems' := PlainStep(Uncached(s), op).1.mems;
    assert |mems'| == |s.mems| && forall t :: 0 <= t < |s.mems| ==> mems'[t].Keys == s.mems[t].Keys;
    if op'.Write? && Route(s.rules, op'.addr).Some? {
      SameKeysAccept(s.mems[s.rules[Route(s.rules, op'.addr).value].tgt],
                     mems'[s.rules[Route(s.rules, op'.addr).value].tgt], op'.addr, |op'.data|);
    }
  }

  lemma SameKeysAccept(m: Memory, m': Memory, addr: nat, len: nat)
    requires m.Keys == m'.Keys && Accepts(m, addr, len)
    ensures Accepts(m', addr, len)
  {
    forall a | addr <= a < addr + len
      ensures a in m'
    {
      assert a in m.Keys;
    }
  }

  /** Accesses that are disciplined for the table and the targets, and writes to other registers. */
  ghost predicate FixedTable(s: Router, ops: seq<Op>)
    requires Legal(s)
  {
    && NoShadow(s.rules)
    && forall k :: 0 <= k < |ops| ==>
         Disciplined(s.rules, s.mems, ops[k]) && !(ops[k].Cfg? && IsRouteReg(ops[k].reg))
  }

  /** While the table stays as it is, what a run has to respect does not depend on its states. */
  lemma {:induction false} FixedTableIsAdmissible(s: Router, ops: seq<Op>)
    requires Faithful(s) && FixedTable(s, ops)
    ensures AdmissibleRun(s, ops)
    decreases |ops|
  {
    hide Faithful, Disciplined, Step, Legal, PlainStep, PlainOk, Uncached, NoShadow;
    if ops != [] {
      FaithfulIsLegal(s);
      var s' := Step(s, ops[0]).1;
      StepIsTransparent(s, ops[0]);
      FaithfulIsLegal(s');
      forall k | 0 <= k < |ops[1..]|
        ensures s'.rules == s.rules && Disciplined(s'.rules, s'.mems, ops[1..][k])
      {
        DisciplineIsStable(s, ops[0], ops[1..][k]);
      }
      if |ops| > 1 {
        DisciplineIsStable(s, ops[0], ops[1]);
        FixedTableIsAdmissible(s', ops[1..]);
      }
    }
  }

  // ---------- From power-up ----------

  /** The registers at power-up: no rule, both caches empty, only the router enabled. */
  ghost predicate AtPowerUp(s: Router) {
    && 0 < s.nInit && 0 < s.nTgt == |s.mems|
    && s.rules == seq(MAX_ROUTES, i => Rule(0, 0, 0, false, false))
    && s.ctrl == 1 && s.arbMode == 0
    && s.prios == seq(s.nInit, i => 0) && s.weights == seq(s.nInit, i => 1)
    && |s.rc.entries| == ROUTE_CACHE_CAPACITY && EmptyRouteCache(s.rc) && s.dc == DC.EmptyCache()
  }

  lemma AtPowerUpIsFaithful(s: Router)
    requires AtPowerUp(s)
    ensures Legal(s) && Faithful(s) && NoLines(s.dc)
  {
    assert Legal(s);
    hide Legal;
    NoLinesIsCoherent(s.dc, Behind(s.rules, s.mems));
  }

  /** While no data line is valid the whole table may be reprogrammed, in any order and through
      any intermediate tables. */
  lemma {:induction false} ProgrammingIsAdmissible(s: Router, setup: seq<Op>)
    requires Faithful(s) && NoLines(s.dc) && forall k :: 0 <= k < |setup| ==> setup[k].Cfg?
    ensures AdmissibleRun(s, setup)
    ensures Legal(s) && NoLines(Final(s, setup).dc)
    decreases |setup|
  {
    hide Faithful, Legal, NoLines, PlainStep, PlainOk, Uncached, WrittenRules;
    FaithfulIsLegal(s);
    if setup != [] {
      NoLinesIsCoherent(s.dc, Behind(WrittenRules(s, setup[0]), s.mems));
      StepIsTransparent(s, setup[0]);
      CfgKeepsNoLines(s, setup[0].reg, setup[0].val);
      ProgrammingIsAdmissible(Step(s, setup[0]).1, setup[1..]);
    }
  }

  lemma CfgKeepsNoLines(s: Router, reg: nat, val: nat)
    requires Legal(s) && NoLines(s.dc)
    ensures NoLines(CfgWrite(s, reg, val).dc)
  {}

  lemma {:induction false} RunsJoin(s: Router, a: seq<Op>, b: seq<Op>)
    requires Faithful(s) && AdmissibleRun(s, a)
    requires Legal(s) && Faithful(Final(s, a)) && AdmissibleRun(Final(s, a), b)
    ensures AdmissibleRun(s, a + b)
    decreases |a|
  {
    hide Faithful, Admissible, Step, Legal;
    if a == [] {
      assert a + b == b;
    } else {
      StepIsTransparent(s, a[0]);
      FaithfulIsLegal(Step(s, a[0]).1);
      RunsJoin(Step(s, a[0]).1, a[1..], b);
      assert (a + b)[0] == a[0] && (a + b)[1..] == a[1..] + b;
    }
  }

  /** From power-up: program any registers in any order, arrive at a table that shadows nothing,
      then work under it; the caches are never seen. */
  lemma ProgrammedRouterIsTransparent(s: Router, setup: seq<Op>, work: seq<Op>)
    requires AtPowerUp(s) && (forall k :: 0 <= k < |setup| ==> setup[k].Cfg?)
    requires Legal(s) && FixedTable(Final(s, setup), work)
    ensures PlainOk(Uncached(s))
    ensures Responses(s, setup + work) == PlainResponses(Uncached(s), setup + work)
    ensures Uncached(Final(s, setup + work)) == PlainFinal(Uncached(s), setup + work)
  {
    hide Faithful, Legal, AtPowerUp, FixedTable, PlainOk, Uncached, NoLines;
    AtPowerUpIsFaithful(s);
    ProgrammingIsAdmissible(s, setup);
    CachesAreTransparent(s, setup);
    FixedTableIsAdmissible(Final(s, setup), work);
    RunsJoin(s, setup, work);
    CachesAreTransparent(s, setup + work);
  }

  // ---------- Exactly when a route write is harmless ----------

  /** Under a table without shadowing, with router and data cache enabled, no single-byte read
      tells the router from one without caches if and only if every held byte that a cacheable
      rule routes is the byte its target has. A route write flushes the route cache only, so this
      is what it must leave true. */
  lemma ByteReadsAreTransparentIff(s: Router)
    requires Legal(s) && NoShadow(s.rules) && Flag(s.ctrl, CTRL_ROUTER_EN) && Flag(s.ctrl, CTRL_DATA_CACHE_EN)
    ensures (forall a: nat :: ReadsAlike(s, a)) <==>
      forall a: nat :: DC.Cached(s.dc, a) && RoutesCacheably(s.rules, a) ==>
        Behind(s.rules, s.mems)(a) == Some(DC.CachedByte(s.dc, a))
  {
    forall a: nat
      ensures ReadsAlike(s, a) <==>
        (DC.Cached(s.dc, a) && RoutesCacheably(s.rules, a) ==>
          Behind(s.rules, s.mems)(a) == Some(DC.CachedByte(s.dc, a)))
    {
      ByteReadIsAlikeIff(s, a);
    }
  }

  ghost predicate ReadsAlike(s: Router, a: nat)
    requires Legal(s)
  {
    Step(s, Read(a, 1)).0 == PlainStep(Uncached(s), Read(a, 1)).0
  }

  ghost predicate RoutesCacheably(rules: seq<Rule>, a: nat) {
    Route(rules, a).Some? && rules[Route(rules, a).value].cacheable
  }

  lemma ByteReadIsAlikeIff(s: Router, a: nat)
    requires Legal(s) && NoShadow(s.rules) && Flag(s.ctrl, CTRL_ROUTER_EN) && Flag(s.ctrl, CTRL_DATA_CACHE_EN)
    ensures ReadsAlike(s, a) <==>
      (DC.Cached(s.dc, a) && RoutesCacheably(s.rules, a) ==>
        Behind(s.rules, s.mems)(a) == Some(DC.CachedByte(s.dc, a)))
  {
    hide Decode, Flag, Route, NoShadow, CacheSound, DC.ReadHits, DC.ReadData, DC.Cached, DC.CachedByte, DC.Allocate;
    DecodeIsRoute(s.rules, s.rc, Flag(s.ctrl, CTRL_ROUTE_CACHE_EN), a);
    OneByteHitsIff(s.dc, a);
    if Route(s.rules, a).Some? {
      var m := s.mems[s.rules[Route(s.rules, a).value].tgt];
      if a in m {
        assert Fetch(m, a, 1) == [m[a]];
      } else {
        assert !Accepts(m, a, 1);
      }
    }
  }

  lemma OneByteHitsIff(c: DC.Cache, a: nat)
    ensures DC.ReadHits(c, a, 1) <==> DC.Cached(c, a)
    ensures DC.ReadHits(c, a, 1) ==> DC.ReadData(c, a, 1) == [DC.CachedByte(c, a)]
  {
    DC.ReadHitMeansCached(c, a, 1);
  }
}

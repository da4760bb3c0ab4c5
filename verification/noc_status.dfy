/** The status bits of the NoC router over runs of the whole router: blocking and non-blocking
accesses, register writes, drained queues, responses and timeout checks. */
module NocStatus {
  import opened Prelude
  import opened NocRoutes
  import opened NocTransport
  import opened NocSystem
  import RC = NocRouteCache
  import DC = NocDataCache
  import M = NocMonitor

  /** An address fails to decode exactly if no enabled rule covers it, with or without the cache
      and whatever the rules. */
  lemma DecodeFailsIff(s: Router, addr: nat)
    requires Legal(s)
    ensures Found(s, addr).line.None? <==> forall i :: 0 <= i < MAX_ROUTES ==> !s.rules[i].Matches(addr)
  {
    hide RC.Update;
    var k := RC.Slot(RC.Hits(s.rc, addr));
    if k < |s.rc.entries| {
      assert RC.Hits(s.rc, addr)[k];
      var a: nat :| Routes(s.rules, a, s.rc.entries[k].line);
      assert s.rules[Route(s.rules, a).value].Matches(addr);
    }
  }

  /** The act decodes an address. */
  ghost predicate Decodes(s: Router, a: Act) {
    && Flag(s.ctrl, CTRL_ROUTER_EN)
    && ((a.Block? && !a.op.Cfg?)
        || (a.Forward? && !a.op.Cfg? && a.phase.BeginReq? && Flag(s.ctrl, CTRL_NB_MODE_EN)))
  }

  ghost predicate Raises(n: Noc, a: Act, b: nat)
    requires Ok(n)
  {
    || (b == M.DECODE_ERR && Decodes(n.router, a) &&
        forall i :: 0 <= i < MAX_ROUTES ==> !n.router.rules[i].Matches(a.op.addr))
    || (b == M.CACHE_EVICT && Replaces(n, a))
    || (b == M.TIMEOUT && a.Check? && Flag(n.router.ctrl, CTRL_TIMEOUT_EN) && Overdue(n, a.tick, a.now))
  }

  /** The act fills a line that was valid. */
  ghost predicate Replaces(n: Noc, a: Act)
    requires Ok(n)
  {
    if a.Backward? then
      a.phase.BeginResp? && Fills(n, a.serial, a.data) &&
      n.router.dc[DC.Index(n.inflight[a.serial].entry.op.addr)].valid
    else
      a.Block? && Decodes(n.router, a) &&
      var l := Found(n.router, a.op.addr).line;
      l.Some? &&
      (DecodedTargetExists(n.router, a.op.addr); Evicts(n.router, l.value.tgt, l.value.cacheable, a.op))
  }

  ghost predicate Clears(a: Act, b: nat) {
    a.Block? && a.op.Cfg? && a.op.reg == 0x00C && b in M.ThreeBits(a.op.val)
  }

  lemma ActMovesBit(n: Noc, a: Act, b: nat)
    requires Ok(n) && LegalAct(n.router, a)
    ensures b in NocStep(n, a).monitor.status <==> Raises(n, a, b) || (b in n.monitor.status && !Clears(a, b))
  {
    hide Legal, Decode, Step, Evicts, Flag, M.ThreeBits, Overdue, M.IrqExact, DrainStep, Consulted;
    if Decodes(n.router, a) {
      DecodeFailsIff(n.router, a.op.addr);
    }
    if a.Drain? {
      DrainKeepsMonitor(n, a.tgt);
    }
  }

  lemma DrainKeepsMonitor(n: Noc, tgt: nat)
    requires Ok(n) && tgt < n.router.nTgt
    ensures DrainStep(n, tgt).1.monitor == n.monitor
  {}

  // ---------- Whole runs ----------

  /** Act `k` of the run raises bit `b` in the state it meets. */
  ghost predicate RaisedAt(n: Noc, acts: seq<Act>, k: nat, b: nat)
    requires Ok(n) && LegalActs(n.router, acts) && k < |acts|
  {
    Raises(RunOf(n, acts[..k]), acts[k], b)
  }

  ghost predicate NotClearedFrom(acts: seq<Act>, k: nat, b: nat) {
    forall j :: k <= j < |acts| ==> !Clears(acts[j], b)
  }

  ghost predicate RaisedAndNotCleared(n: Noc, acts: seq<Act>, b: nat)
    requires Ok(n) && LegalActs(n.router, acts)
  {
    exists k :: 0 <= k < |acts| && RaisedAt(n, acts, k, b) && NotClearedFrom(acts, k + 1, b)
  }

  lemma ShiftClears(acts: seq<Act>, k: nat, b: nat)
    requires acts != []
    ensures NotClearedFrom(acts, k + 1, b) <==> NotClearedFrom(acts[1..], k, b)
  {
    hide Clears;
    var rest := acts[1..];
    if NotClearedFrom(acts, k + 1, b) {
      forall j | k <= j < |rest|
        ensures !Clears(rest[j], b)
      {
        assert rest[j] == acts[j + 1];
      }
    }
    if NotClearedFrom(rest, k, b) {
      forall j | k + 1 <= j < |acts|
        ensures !Clears(acts[j], b)
      {
        assert acts[j] == rest[j - 1];
      }
    }
  }

  lemma ShiftRaised(n: Noc, acts: seq<Act>, k: nat, b: nat)
    requires Ok(n) && LegalActs(n.router, acts) && k + 1 < |acts|
    ensures Ok(NocStep(n, acts[0])) && LegalActs(NocStep(n, acts[0]).router, acts[1..])
    ensures RaisedAt(n, acts, k + 1, b) <==> RaisedAt(NocStep(n, acts[0]), acts[1..], k, b)
  {
    hide Ok, LegalAct, NocStep, Raises;
    StepKeepsOk(n, acts[0]);
    SameActs(n, NocStep(n, acts[0]), acts);
    assert acts[..k + 1][0] == acts[0] && acts[..k + 1][1..] == acts[1..][..k];
  }

  lemma RaisedSplit(n: Noc, acts: seq<Act>, b: nat)
    requires Ok(n) && LegalActs(n.router, acts) && acts != []
    ensures Ok(NocStep(n, acts[0])) && LegalActs(NocStep(n, acts[0]).router, acts[1..])
    ensures RaisedAndNotCleared(n, acts, b) <==>
      || (Raises(n, acts[0], b) && NotClearedFrom(acts, 1, b))
      || RaisedAndNotCleared(NocStep(n, acts[0]), acts[1..], b)
  {
    hide Ok, LegalAct, NocStep, Raises, RaisedAt, NotClearedFrom;
    StepKeepsOk(n, acts[0]);
    SameActs(n, NocStep(n, acts[0]), acts);
    var n', rest := NocStep(n, acts[0]), acts[1..];
    FirstRaised(n, acts, b);
    forall k: nat | k < |rest|
      ensures RaisedAt(n, acts, k + 1, b) <==> RaisedAt(n', rest, k, b)
      ensures NotClearedFrom(acts, k + 2, b) <==> NotClearedFrom(rest, k + 1, b)
    {
      ShiftRaised(n, acts, k, b);
      ShiftClears(acts, k + 1, b);
    }
    if RaisedAndNotCleared(n, acts, b) {
      var k :| 0 <= k < |acts| && RaisedAt(n, acts, k, b) && NotClearedFrom(acts, k + 1, b);
      if k > 0 {
        assert RaisedAt(n', rest, k - 1, b) && NotClearedFrom(rest, k - 1 + 1, b);
      }
    }
    if RaisedAndNotCleared(n', rest, b) {
      var k :| 0 <= k < |rest| && RaisedAt(n', rest, k, b) && NotClearedFrom(rest, k + 1, b);
      assert RaisedAt(n, acts, k + 1, b) && NotClearedFrom(acts, k + 1 + 1, b);
    }
  }

  lemma FirstRaised(n: Noc, acts: seq<Act>, b: nat)
    requires Ok(n) && LegalActs(n.router, acts) && acts != []
    ensures RaisedAt(n, acts, 0, b) <==> Raises(n, acts[0], b)
  {
    hide Ok, LegalAct, Raises;
    assert acts[..0] == [];
  }

  /** Over any run of the router a status bit is set exactly if some act raised it (an access no
      rule covers, a fill over a valid line, an overdue request while the check is enabled), or it
      was set to begin with, and no one has been written to it since; and the interrupt output is
      the or of the enabled bits. */
  lemma {:induction false} RouterStatusIsSticky(n: Noc, acts: seq<Act>, b: nat)
    requires Ok(n) && LegalActs(n.router, acts)
    ensures b in RunOf(n, acts).monitor.status <==>
      RaisedAndNotCleared(n, acts, b) || (b in n.monitor.status && NotClearedFrom(acts, 0, b))
    ensures M.IrqExact(RunOf(n, acts).monitor)
    decreases |acts|
  {
    hide Ok, LegalAct, NocStep, Raises, Clears, RaisedAndNotCleared;
    OkIsExact(RunOf(n, acts));
    if acts == [] {
      assert !RaisedAndNotCleared(n, acts, b) by { NothingRaised(n, b); }
    } else {
      ActMovesBit(n, acts[0], b);
      RaisedSplit(n, acts, b);
      ShiftClears(acts, 0, b);
      RouterStatusIsSticky(NocStep(n, acts[0]), acts[1..], b);
    }
  }

  lemma OkIsExact(n: Noc)
    requires Ok(n)
    ensures M.IrqExact(n.monitor)
  {}

  lemma NothingRaised(n: Noc, b: nat)
    requires Ok(n)
    ensures !RaisedAndNotCleared(n, [], b)
  {}
}

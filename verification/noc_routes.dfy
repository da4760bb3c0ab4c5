/** The NoC router's route table (noc_router.h): the rule walk, address decode through the route
cache, exactly when the cache is invisible, and what it keeps. */
module NocRoutes {
  import opened Prelude
  import opened CyclicScan
  import RC = NocRouteCache
  import DC = NocDataCache

  const MAX_ROUTES: nat := 16
  const ROUTE_CACHE_CAPACITY: nat := 8

  // GLOBAL_CTRL bits
  const CTRL_ROUTER_EN: nat := 0x01
  const CTRL_ARB_EN: nat := 0x02
  const CTRL_ROUTE_CACHE_EN: nat := 0x04
  const CTRL_DATA_CACHE_EN: nat := 0x08
  const CTRL_QOS_EN: nat := 0x10
  const CTRL_TIMEOUT_EN: nat := 0x40
  const CTRL_NB_MODE_EN: nat := 0x80

  datatype Rule = Rule(start: nat, end: nat, tgt: nat, enabled: bool, cacheable: bool) {
    predicate Matches(addr: nat) {
      enabled && start <= addr < end
    }

    function Image(): RC.Line {
      RC.Line(start, end, tgt, cacheable)
    }
  }

  /** A target: the bytes it decodes. An access to anything else is answered with an error. */
  type Memory = map<nat, Byte>

  datatype Router = Router(nInit: nat, nTgt: nat, rules: seq<Rule>, ctrl: nat, arbMode: nat,
                           prios: seq<nat>, weights: seq<nat>,
                           rc: RC.Cache, dc: DC.Cache, mems: seq<Memory>)

  // ---------- The rule walk ----------

  /** The highest-numbered matching rule below `k`. */
  function Walk(rules: seq<Rule>, k: nat, addr: nat): (r: Option<nat>)
    requires k <= |rules|
    ensures r.None? ==> forall j :: 0 <= j < k ==> !rules[j].Matches(addr)
    ensures r.Some? ==> r.value < k && rules[r.value].Matches(addr)
    ensures r.Some? ==> forall j :: r.value < j < k ==> !rules[j].Matches(addr)
  {
    if k == 0 then None
    else if rules[k - 1].Matches(addr) then Some(k - 1)
    else Walk(rules, k - 1, addr)
  }

  function Route(rules: seq<Rule>, addr: nat): (r: Option<nat>)
    ensures r.Some? ==> r.value < |rules|
  {
    Walk(rules, |rules|, addr)
  }

  datatype Answer = Reject | Accept(tgt: nat, cacheable: bool)

  /** What an address decodes to without any cache. */
  function RouteAnswer(rules: seq<Rule>, addr: nat): Answer {
    match Route(rules, addr)
    case None => Reject
    case Some(i) => Accept(rules[i].tgt, rules[i].cacheable)
  }

  // ---------- Address decode with the route cache ----------

  ghost function Decode(rules: seq<Rule>, rc: RC.Cache, cacheEn: bool, addr: nat): RC.Found
    requires 0 < |rc.entries|
  {
    var f := RC.Lookup(rc, addr);
    if cacheEn && f.line.Some? then f
    else
      match Route(rules, addr)
      case None => RC.Found(None, rc)
      case Some(i) =>
        RC.Found(Some(rules[i].Image()), if cacheEn then RC.Update(rc, rules[i].Image()) else rc)
  }

  function AnswerOf(l: Option<RC.Line>): Answer {
    match l
    case None => Reject
    case Some(x) => Accept(x.tgt, x.cacheable)
  }

  /** A rule is cached only because some address was routed by it. */
  ghost predicate Winning(rules: seq<Rule>, x: RC.Line) {
    exists a: nat :: Routes(rules, a, x)
  }

  ghost predicate Routes(rules: seq<Rule>, a: nat, x: RC.Line) {
    Route(rules, a).Some? && rules[Route(rules, a).value].Image() == x
  }

  ghost predicate CacheSound(rules: seq<Rule>, rc: RC.Cache) {
    && 0 < |rc.entries|
    && forall k :: 0 <= k < |rc.entries| && rc.entries[k].valid ==> Winning(rules, rc.entries[k].line)
  }

  /** No rule that wins anywhere covers an address that decodes differently: the condition on a
      route table under which caching whole ranges is harmless. */
  ghost predicate NoShadow(rules: seq<Rule>) {
    forall a: nat, b: nat :: Route(rules, a).Some? && rules[Route(rules, a).value].Matches(b) ==>
      RouteAnswer(rules, b) == RouteAnswer(rules, a)
  }

  ghost predicate DisjointRules(rules: seq<Rule>) {
    forall i, j :: 0 <= i < j < |rules| ==> forall a: nat :: !(rules[i].Matches(a) && rules[j].Matches(a))
  }

  lemma DisjointRulesDoNotShadow(rules: seq<Rule>)
    requires DisjointRules(rules)
    ensures NoShadow(rules)
  {
    forall a: nat, b: nat | Route(rules, a).Some? && rules[Route(rules, a).value].Matches(b)
      ensures RouteAnswer(rules, b) == RouteAnswer(rules, a)
    {
      var i, j := Route(rules, a).value, Route(rules, b).value;
      assert rules[i].Matches(b) && rules[j].Matches(b);
      assert i == j;
    }
  }

  lemma StampKeepsSound(rules: seq<Rule>, rc: RC.Cache, k: nat, x: RC.Line)
    requires CacheSound(rules, rc) && k < |rc.entries| && Winning(rules, x)
    ensures CacheSound(rules, RC.Stamp(rc, k, x))
  {}

  /** Every decode leaves a sound cache sound, whatever the rules. */
  lemma DecodeKeepsSound(rules: seq<Rule>, rc: RC.Cache, cacheEn: bool, addr: nat)
    requires CacheSound(rules, rc)
    ensures CacheSound(rules, Decode(rules, rc, cacheEn, addr).cache)
  {
    hide RC.Victim, RC.Slot, RC.Stamp, Winning;
    var k := RC.Slot(RC.Hits(rc, addr));
    if cacheEn && k < |rc.entries| {
      assert RC.Hits(rc, addr)[k];
      StampKeepsSound(rules, rc, k, rc.entries[k].line);
    } else if cacheEn && Route(rules, addr).Some? {
      var x := rules[Route(rules, addr).value].Image();
      assert Winning(rules, x) by { WinsAt(rules, addr, x); }
      StampKeepsSound(rules, rc, RC.Victim(rc, x), x);
    }
  }

  lemma WinsAt(rules: seq<Rule>, a: nat, x: RC.Line)
    requires Routes(rules, a, x)
    ensures Winning(rules, x)
  {}

  // ---------- The route cache refines the rule walk ----------

  /** Under a table without shadowing, decoding through a sound cache answers as the walk does. */
  lemma DecodeIsRoute(rules: seq<Rule>, rc: RC.Cache, cacheEn: bool, addr: nat)
    requires CacheSound(rules, rc) && NoShadow(rules)
    ensures AnswerOf(Decode(rules, rc, cacheEn, addr).line) == RouteAnswer(rules, addr)
  {
    var k := RC.Slot(RC.Hits(rc, addr));
    if cacheEn && k < |rc.entries| {
      assert RC.Hits(rc, addr)[k];
      var x := rc.entries[k].line;
      var a: nat :| Routes(rules, a, x);
      assert rules[Route(rules, a).value].Matches(addr);
    }
  }

  ghost predicate EmptyRouteCache(rc: RC.Cache) {
    0 < |rc.entries| && forall k :: 0 <= k < |rc.entries| ==> !rc.entries[k].valid
  }

  /** Answers to a sequence of decodes with the route cache enabled. */
  ghost function Answers(rules: seq<Rule>, rc: RC.Cache, addrs: seq<nat>): (r: seq<Answer>)
    requires CacheSound(rules, rc)
    ensures |r| == |addrs|
    decreases |addrs|
  {
    if addrs == [] then []
    else
      DecodeKeepsSound(rules, rc, true, addrs[0]);
      var f := Decode(rules, rc, true, addrs[0]);
      [AnswerOf(f.line)] + Answers(rules, f.cache, addrs[1..])
  }

  ghost function WalkAnswers(rules: seq<Rule>, addrs: seq<nat>): (r: seq<Answer>)
    ensures |r| == |addrs|
  {
    seq(|addrs|, k requires 0 <= k < |addrs| => RouteAnswer(rules, addrs[k]))
  }

  lemma {:induction false} AnswersAreWalkAnswers(rules: seq<Rule>, rc: RC.Cache, addrs: seq<nat>)
    requires CacheSound(rules, rc) && NoShadow(rules)
    ensures Answers(rules, rc, addrs) == WalkAnswers(rules, addrs)
    decreases |addrs|
  {
    hide Decode, NoShadow, RouteAnswer;
    if addrs != [] {
      DecodeKeepsSound(rules, rc, true, addrs[0]);
      DecodeIsRoute(rules, rc, true, addrs[0]);
      AnswersAreWalkAnswers(rules, Decode(rules, rc, true, addrs[0]).cache, addrs[1..]);
      assert WalkAnswers(rules, addrs) == [RouteAnswer(rules, addrs[0])] + WalkAnswers(rules, addrs[1..]);
    }
  }

  /** The first address decoded after a flush is cached whole, and the second is answered from
      that entry. */
  lemma SecondDecodeHits(rules: seq<Rule>, rc: RC.Cache, a: nat, b: nat)
    requires EmptyRouteCache(rc) && CacheSound(rules, rc)
    requires Route(rules, a).Some? && rules[Route(rules, a).value].Matches(b)
    ensures Answers(rules, rc, [a, b])[1] == RouteAnswer(rules, a)
  {
    var x := rules[Route(rules, a).value].Image();
    var v := RC.Victim(rc, x);
    var c := RC.Stamp(rc, v, x);
    assert RC.Lookup(rc, a).line.None?;
    assert Decode(rules, rc, true, a).cache == c;
    DecodeKeepsSound(rules, rc, true, a);
    assert RC.Hits(c, b)[v];
    var k := RC.Slot(RC.Hits(c, b));
    assert k == v;
    assert [a, b][1..] == [b];
    assert Answers(rules, c, [b])[0] == AnswerOf(RC.Lookup(c, b).line);
  }

  /** Exactly when the route cache is invisible: the cached answers equal the rule walk's for
      every sequence of addresses after a flush if and only if the table has no shadowed
      range. */
  lemma RouteCacheTransparentIff(rules: seq<Rule>, rc: RC.Cache)
    requires EmptyRouteCache(rc)
    ensures CacheSound(rules, rc)
    ensures (forall addrs: seq<nat> :: Answers(rules, rc, addrs) == WalkAnswers(rules, addrs)) <==> NoShadow(rules)
  {
    hide RouteAnswer;
    if NoShadow(rules) {
      forall addrs: seq<nat>
        ensures Answers(rules, rc, addrs) == WalkAnswers(rules, addrs)
      {
        AnswersAreWalkAnswers(rules, rc, addrs);
      }
    } else {
      var a: nat, b: nat :| Route(rules, a).Some? && rules[Route(rules, a).value].Matches(b) &&
        RouteAnswer(rules, b) != RouteAnswer(rules, a);
      SecondDecodeHits(rules, rc, a, b);
      assert WalkAnswers(rules, [a, b])[1] == RouteAnswer(rules, b);
    }
  }

  /** Overlapping rules can shadow: a cached low rule answers for a higher one. */
  lemma OverlapCanShadow(rc: RC.Cache)
    requires EmptyRouteCache(rc)
    ensures var rules := [Rule(0, 32, 0, true, false), Rule(16, 32, 1, true, false)];
      CacheSound(rules, rc) && Answers(rules, rc, [0, 16])[1] == Accept(0, false) &&
        RouteAnswer(rules, 16) == Accept(1, false)
  {
    var rules := [Rule(0, 32, 0, true, false), Rule(16, 32, 1, true, false)];
    assert Walk(rules, 1, 0) == Some(0);
    SecondDecodeHits(rules, rc, 0, 16);
  }

  // ---------- The route cache keeps the most recently used rules ----------

  /** After a miss the winning rule's range is not in the cache, so the branch of `update` that
      refreshes an entry with the same range is never taken. */
  lemma MissMeansNewRange(rules: seq<Rule>, rc: RC.Cache, addr: nat)
    requires 0 < |rc.entries| && Route(rules, addr).Some? && RC.Lookup(rc, addr).line.None?
    ensures !Somewhere(RC.SameRange(rc, rules[Route(rules, addr).value].Image()))
  {
    var x := rules[Route(rules, addr).value].Image();
    forall k | 0 <= k < |rc.entries|
      ensures !RC.SameRange(rc, x)[k]
    {
      assert !RC.Hits(rc, addr)[k];
    }
  }

  /** With disjoint rules the cached ranges stay disjoint. */
  lemma DecodeKeepsDisjoint(rules: seq<Rule>, rc: RC.Cache, addr: nat)
    requires CacheSound(rules, rc) && DisjointRules(rules) && RC.DisjointLines(rc)
    ensures RC.DisjointLines(Decode(rules, rc, true, addr).cache)
  {
    hide RC.Victim;
    if RC.Lookup(rc, addr).line.None? && Route(rules, addr).Some? {
      var i := Route(rules, addr).value;
      forall k, a: nat | 0 <= k < |rc.entries| && rc.entries[k].valid
        ensures !(rc.entries[k].line.Covers(a) && rules[i].Image().Covers(a))
      {
        var b: nat :| Routes(rules, b, rc.entries[k].line);
        var j := Route(rules, b).value;
        assert !RC.Hits(rc, addr)[k];
        assert rules[j].Image() != rules[i].Image();
        assert !(rules[i].Matches(a) && rules[j].Matches(a));
      }
    }
  }

  ghost function FindLine(ls: seq<RC.Line>, addr: nat): (k: nat)
    ensures k <= |ls|
    ensures k < |ls| ==> ls[k].Covers(addr)
    ensures forall j :: 0 <= j < k ==> !ls[j].Covers(addr)
  {
    if ls == [] || ls[0].Covers(addr) then 0 else 1 + FindLine(ls[1..], addr)
  }

  /** The policy in one line: use moves a rule to the front of a bounded list. */
  ghost function Recent(rules: seq<Rule>, capacity: nat, ls: seq<RC.Line>, addr: nat): (r: seq<RC.Line>)
    requires 0 < capacity && |ls| <= capacity
    ensures |r| <= capacity
  {
    var k := FindLine(ls, addr);
    if k < |ls| then RC.ToFront(ls, k)
    else
      match Route(rules, addr)
      case None => ls
      case Some(i) => RC.InsertFront(ls, capacity, rules[i].Image())
  }

  ghost function RecentAll(rules: seq<Rule>, capacity: nat, ls: seq<RC.Line>, addrs: seq<nat>): (r: seq<RC.Line>)
    requires 0 < capacity && |ls| <= capacity
    ensures |r| <= capacity
    decreases |addrs|
  {
    if addrs == [] then ls else RecentAll(rules, capacity, Recent(rules, capacity, ls, addrs[0]), addrs[1..])
  }

  ghost function DecodeAll(rules: seq<Rule>, rc: RC.Cache, addrs: seq<nat>): (r: RC.Cache)
    requires CacheSound(rules, rc)
    ensures CacheSound(rules, r)
    decreases |addrs|
  {
    if addrs == [] then rc
    else
      DecodeKeepsSound(rules, rc, true, addrs[0]);
      DecodeAll(rules, Decode(rules, rc, true, addrs[0]).cache, addrs[1..])
  }

  /** With disjoint cached ranges only one listed line covers an address. */
  lemma OnlyLine(rc: RC.Cache, order: seq<nat>, j: nat, k: nat, addr: nat)
    requires RC.Recency(rc, order) && RC.DisjointLines(rc) && j < |order| && k < |order|
    requires RC.Lines(rc, order)[j].Covers(addr) && RC.Lines(rc, order)[k].Covers(addr)
    ensures j == k
  {
    RC.OrderedSlotsDiffer(rc, order);
    var s, t := order[j], order[k];
    assert rc.entries[s].line.Covers(addr) && rc.entries[t].line.Covers(addr);
  }

  lemma DecodeIsRecent(rules: seq<Rule>, rc: RC.Cache, order: seq<nat>, addr: nat) returns (order': seq<nat>)
    requires CacheSound(rules, rc) && DisjointRules(rules) && RC.DisjointLines(rc) && RC.Recency(rc, order)
    ensures var rc' := Decode(rules, rc, true, addr).cache;
      && |order| <= |rc.entries| == |rc'.entries|
      && RC.Recency(rc', order')
      && RC.Lines(rc', order') == Recent(rules, |rc.entries|, RC.Lines(rc, order), addr)
    ensures RC.Lookup(rc, addr).line.Some? <==> FindLine(RC.Lines(rc, order), addr) < |order|
  {
    hide RC.Lookup, RC.Update, RC.Lines, RC.ToFront, RC.InsertFront, DisjointRules, RC.DisjointLines;
    var ls := RC.Lines(rc, order);
    var k := RC.LookupIsMoveToFront(rc, order, addr);
    RC.OrderLength(rc, order);
    order' := order;
    if RC.Lookup(rc, addr).line.Some? {
      OnlyLine(rc, order, k, FindLine(ls, addr), addr);
      order' := RC.ToFront(order, k);
    } else if Route(rules, addr).Some? {
      MissMeansNewRange(rules, rc, addr);
      order' := RC.UpdateIsInsertFront(rc, order, rules[Route(rules, addr).value].Image());
    }
  }

  /** Over any sequence of decodes through a fresh cache, what the timestamped table holds is
      the list of the most recently used rules, bounded by the capacity. */
  lemma {:induction false} RouteCacheIsLru(rules: seq<Rule>, rc: RC.Cache, order: seq<nat>, addrs: seq<nat>)
    returns (order': seq<nat>)
    requires CacheSound(rules, rc) && DisjointRules(rules) && RC.DisjointLines(rc) && RC.Recency(rc, order)
    ensures var rc' := DecodeAll(rules, rc, addrs);
      && |order| <= |rc.entries|
      && RC.Recency(rc', order')
      && RC.Lines(rc', order') == RecentAll(rules, |rc.entries|, RC.Lines(rc, order), addrs)
    decreases |addrs|
  {
    hide Decode, DisjointRules, RC.Recency, RC.Lines, Recent, RC.DisjointLines;
    RC.OrderLength(rc, order);
    order' := order;
    if addrs != [] {
      DecodeKeepsSound(rules, rc, true, addrs[0]);
      DecodeKeepsDisjoint(rules, rc, addrs[0]);
      order' := DecodeIsRecent(rules, rc, order, addrs[0]);
      order' := RouteCacheIsLru(rules, Decode(rules, rc, true, addrs[0]).cache, order', addrs[1..]);
    }
  }

  /** The same from power-up or after a flush: the list starts empty. */
  lemma RouteCacheIsLruFromEmpty(rules: seq<Rule>, rc: RC.Cache, addrs: seq<nat>)
    requires EmptyRouteCache(rc) && DisjointRules(rules)
    ensures CacheSound(rules, rc)
    ensures exists order :: (RC.Recency(DecodeAll(rules, rc, addrs), order) &&
      RC.Lines(DecodeAll(rules, rc, addrs), order) == RecentAll(rules, |rc.entries|, [], addrs))
  {
    hide DisjointRules, DecodeAll, RecentAll;
    assert RC.Lines(rc, []) == [];
    var order := RouteCacheIsLru(rules, rc, [], addrs);
  }
}

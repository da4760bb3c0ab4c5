/** Every non-blocking request that the NoC router accepts is answered exactly once, or is still in
flight: what each step conserves, exactly when, and over whole runs. */
module NocFlights {
  import opened Prelude
  import opened NocRoutes
  import opened NocTransport
  import opened NocDrain
  import opened NocSystem
  import A = NocArbiter
  import DC = NocDataCache

  // ---------- What goes in and what comes out ----------

  /** Initiator `initId` and its payload. */
  datatype Parcel = Parcel(initId: nat, serial: nat)

  ghost function InTransit(fs: map<nat, Flight>): set<Parcel> {
    set k | k in fs :: Parcel(fs[k].entry.initId, k)
  }

  /** The step accepts a request. */
  ghost predicate Takes(n: Noc, a: Act)
    requires Ok(n) && LegalAct(n.router, a)
  {
    && a.Forward? && a.phase.BeginReq?
    && Flag(n.router.ctrl, CTRL_NB_MODE_EN) && Flag(n.router.ctrl, CTRL_ROUTER_EN)
    && Found(n.router, a.op.addr).line.Some?
  }

  ghost function Taken(n: Noc, a: Act): NbEntry
    requires Ok(n) && LegalAct(n.router, a) && Takes(n, a)
  {
    NbEntry(a.serial, a.id, Found(n.router, a.op.addr).line.value.cacheable, a.op)
  }

  /** The request the step accepts, by the caller and the payload of the call. */
  ghost function AcceptedBy(n: Noc, a: Act): multiset<Parcel>
    requires Ok(n) && LegalAct(n.router, a)
  {
    if Takes(n, a) then multiset{Parcel(a.id, a.serial)} else multiset{}
  }

  /** The responses a drain sends back. */
  ghost function Replies(log: seq<Dispatch>): multiset<Parcel>
    decreases |log|
  {
    if log == [] then multiset{}
    else
      (if log[0].Answered? then multiset{Parcel(log[0].entry.initId, log[0].entry.serial)} else multiset{})
      + Replies(log[1..])
  }

  /** The responses the step delivers, and to whom, as its replies say: the answers in the log of a
      drain, and the initiator a target's response is passed to. */
  ghost function DeliveredBy(n: Noc, a: Act): multiset<Parcel>
    requires Ok(n) && LegalAct(n.router, a)
  {
    match a
    case Drain(tgt) => Replies(DrainStep(n, tgt).0)
    case Backward(serial, phase, data) =>
      var to := BackwardStep(n, serial, phase, data).0;
      if to.Some? then multiset{Parcel(to.value, serial)} else multiset{}
    case _ => multiset{}
  }

  /** Every queued request is in flight, and queued once. */
  ghost predicate Tracked(n: Noc) {
    && (forall t, k :: 0 <= t < |n.queues| && 0 <= k < |n.queues[t]| ==> InFlight(n, n.queues[t][k]))
    && (forall t, k, u, j ::
          0 <= t < |n.queues| && 0 <= k < |n.queues[t]| && 0 <= u < |n.queues| && 0 <= j < |n.queues[u]| &&
          n.queues[t][k].serial == n.queues[u][j].serial ==>
            t == u && k == j)
  }

  ghost predicate InFlight(n: Noc, e: NbEntry) {
    e.serial in n.inflight && n.inflight[e.serial].entry == e
  }

  ghost predicate IsQueued(n: Noc, serial: nat) {
    exists t, k :: 0 <= t < |n.queues| && 0 <= k < |n.queues[t]| && n.queues[t][k].serial == serial
  }

  /** Nothing is lost, delivered twice or to someone else: what was in flight or is accepted is
      delivered to its initiator or stays in flight, and the queues stay tracked. */
  ghost predicate Conserves(n: Noc, a: Act)
    requires Ok(n) && LegalAct(n.router, a)
  {
    var n' := NocStep(n, a);
    && Tracked(n')
    && multiset(InTransit(n.inflight)) + AcceptedBy(n, a) == DeliveredBy(n, a) + multiset(InTransit(n'.inflight))
  }

  /** The handshake as its partners should keep it: a payload in flight is neither sent again nor
      ended early, and a target answers only what it was sent. */
  ghost predicate Polite(n: Noc, a: Act)
    requires Ok(n) && LegalAct(n.router, a)
  {
    match a
    case Forward(_, serial, _, phase, _) => phase.EndResp? || Takes(n, a) ==> serial !in n.inflight
    case Backward(serial, phase, _) => phase.BeginResp? && serial in n.inflight ==> !IsQueued(n, serial)
    case _ => true
  }

  // ---------- One step ----------

  lemma SetTakesOne(s: set<Parcel>, e: Parcel)
    requires e in s
    ensures multiset(s) == multiset(s - {e}) + multiset{e}
  {
    assert s == (s - {e}) + {e};
  }

  lemma LandedOne(fs: map<nat, Flight>, k: nat)
    requires k in fs
    ensures multiset(InTransit(fs)) == multiset(InTransit(fs - {k})) + multiset{Parcel(fs[k].entry.initId, k)}
  {
    var p := Parcel(fs[k].entry.initId, k);
    assert p in InTransit(fs);
    SetTakesOne(InTransit(fs), p);
    forall e
      ensures e in InTransit(fs - {k}) <==> e in InTransit(fs) - {p}
    {
      if e in InTransit(fs) {
        assert e.serial in fs && e == Parcel(fs[e.serial].entry.initId, e.serial);
        assert e.serial != k ==> e.serial in fs - {k} && (fs - {k})[e.serial] == fs[e.serial];
      }
    }
    assert InTransit(fs - {k}) == InTransit(fs) - {p};
  }

  lemma TookOff(fs: map<nat, Flight>, k: nat, f: Flight)
    requires k !in fs
    ensures multiset(InTransit(fs[k := f])) == multiset(InTransit(fs)) + multiset{Parcel(f.entry.initId, k)}
  {
    assert fs[k := f] - {k} == fs;
    LandedOne(fs[k := f], k);
  }

  /** Entries dispatched once each leave the table as the cache answers them. */
  lemma {:induction false} AnsweredLand(fs: map<nat, Flight>, log: seq<Dispatch>)
    requires forall k :: 0 <= k < |log| ==>
      log[k].entry.serial in fs && fs[log[k].entry.serial].entry == log[k].entry
    requires forall k, j :: 0 <= k < j < |log| ==> log[k].entry.serial != log[j].entry.serial
    ensures multiset(InTransit(fs)) == Replies(log) + multiset(InTransit(fs - AnsweredIn(log)))
    decreases |log|
  {
    if log == [] {
      assert fs - AnsweredIn(log) == fs;
    } else {
      var e, rest := log[0].entry, log[1..];
      if log[0].Answered? {
        LandedOne(fs, e.serial);
        AnsweredLand(fs - {e.serial}, rest);
        AnsweredSplits(log);
        assert fs - {e.serial} - AnsweredIn(rest) == fs - AnsweredIn(log);
      } else {
        AnsweredSplits(log);
        AnsweredLand(fs, rest);
        assert AnsweredIn(rest) == AnsweredIn(log);
      }
    }
  }

  lemma AnsweredSplits(log: seq<Dispatch>)
    requires log != []
    ensures AnsweredIn(log) == (if log[0].Answered? then {log[0].entry.serial} else {}) + AnsweredIn(log[1..])
  {
    forall s
      ensures s in AnsweredIn(log) <==>
        s in (if log[0].Answered? then {log[0].entry.serial} else {}) + AnsweredIn(log[1..])
    {
      if s in AnsweredIn(log) {
        var k :| 0 <= k < |log| && log[k].Answered? && log[k].entry.serial == s;
        assert k > 0 ==> log[k] == log[1..][k - 1];
      }
      if s in AnsweredIn(log[1..]) {
        var k :| 0 <= k < |log[1..]| && log[1..][k].Answered? && log[1..][k].entry.serial == s;
        assert log[k + 1] == log[1..][k];
      }
    }
  }

  ghost predicate OneEach(q: seq<NbEntry>) {
    forall k, j :: 0 <= k < j < |q| ==> q[k].serial != q[j].serial
  }

  lemma CountsOnce(q: seq<NbEntry>, k: nat)
    requires OneEach(q) && k < |q|
    ensures multiset(q)[q[k]] == 1
  {
    assert q == q[..k] + [q[k]] + q[k + 1..];
    assert q[k] !in q[..k] && q[k] !in q[k + 1..];
  }

  lemma CountsTwice(q: seq<NbEntry>, k: nat, j: nat)
    requires k < j < |q| && q[k] == q[j]
    ensures multiset(q)[q[k]] >= 2
  {
    assert q == q[..j] + [q[j]] + q[j + 1..];
    assert q[k] in q[..j];
  }

  lemma PermutedOneEach(r: seq<NbEntry>, q: seq<NbEntry>)
    requires multiset(r) == multiset(q) && OneEach(q)
    ensures OneEach(r)
  {
    forall k, j | 0 <= k < j < |r|
      ensures r[k].serial != r[j].serial
    {
      assert r[k] in multiset(q) && r[j] in multiset(q);
      var a :| 0 <= a < |q| && q[a] == r[k];
      var b :| 0 <= b < |q| && q[b] == r[j];
      if a == b {
        CountsOnce(q, a);
        CountsTwice(r, k, j);
      }
    }
  }

  /** The log of a drained queue: its entries, once each. */
  lemma DrainLog(n: Noc, tgt: nat)
    requires Ok(n) && tgt < n.router.nTgt && OneEach(n.queues[tgt])
    ensures var log := DrainStep(n, tgt).0;
      && (forall k :: 0 <= k < |log| ==> log[k].entry in n.queues[tgt])
      && (forall k, j :: 0 <= k < j < |log| ==> log[k].entry.serial != log[j].entry.serial)
  {
    hide CacheAfterAll, DrainPort, DispatchOne, DrainOrder;
    DrainSettings(n, tgt);
    hide Legal, LegalSettings;
    var g, q, log := SettingsOf(n.router, tgt), n.queues[tgt], DrainStep(n, tgt).0;
    var order := DrainOrder(g, n.ports[tgt], q);
    DrainIsPermutation(g, n.ports[tgt], q);
    PermutedOneEach(order, q);
    forall k | 0 <= k < |log|
      ensures log[k].entry in q && log[k].entry == order[k]
    {
      assert order[k] in multiset(order);
      assert order[k] in multiset(q);
    }
  }

  /** Emptying one queue and landing some of its entries. */
  lemma RestStaysTracked(n: Noc, n': Noc, tgt: nat, landed: set<nat>)
    requires Tracked(n) && tgt < |n.queues| && n'.queues == n.queues[tgt := []] && n'.inflight == n.inflight - landed
    requires forall s :: s in landed ==> exists i :: 0 <= i < |n.queues[tgt]| && n.queues[tgt][i].serial == s
    ensures Tracked(n')
  {
    forall t, k | 0 <= t < |n'.queues| && 0 <= k < |n'.queues[t]|
      ensures InFlight(n', n'.queues[t][k])
    {
      assert t != tgt && InFlight(n, n.queues[t][k]);
    }
  }

  lemma TrackedOnce(n: Noc, tgt: nat)
    requires Tracked(n) && tgt < |n.queues|
    ensures OneEach(n.queues[tgt])
    ensures forall e :: e in n.queues[tgt] ==> InFlight(n, e)
  {}

  /** Draining answers some of the entries of the queue, once each, and forwards the rest. */
  lemma DrainConserves(n: Noc, tgt: nat)
    requires Ok(n) && tgt < n.router.nTgt && Tracked(n)
    ensures Conserves(n, Drain(tgt))
  {
    hide DrainStep, Legal, Replies, Tracked, OneEach, InTransit;
    var (log, n') := DrainStep(n, tgt);
    DrainChanges(n, tgt);
    TrackedOnce(n, tgt);
    DrainLog(n, tgt);
    AnsweredLand(n.inflight, log);
    forall s | s in AnsweredIn(log)
      ensures exists i :: 0 <= i < |n.queues[tgt]| && n.queues[tgt][i].serial == s
    {
      var j :| 0 <= j < |log| && log[j].Answered? && log[j].entry.serial == s;
      assert log[j].entry in n.queues[tgt];
    }
    RestStaysTracked(n, n', tgt, AnsweredIn(log));
  }

  lemma DrainChanges(n: Noc, tgt: nat)
    requires Ok(n) && tgt < n.router.nTgt
    ensures var (log, n') := DrainStep(n, tgt);
      n'.queues == n.queues[tgt := []] && n'.inflight == n.inflight - AnsweredIn(log)
  {
    hide CacheAfterAll, DrainPort, DispatchAll, DrainOrder;
  }

  lemma DrainSettings(n: Noc, tgt: nat)
    requires Ok(n) && tgt < n.router.nTgt
    ensures LegalSettings(SettingsOf(n.router, tgt)) && A.ValidPort(n.router.nInit, n.ports[tgt])
  {}

  lemma ForwardConservesIff(n: Noc, a: Act)
    requires Ok(n) && LegalAct(n.router, a) && a.Forward? && Tracked(n)
    ensures Conserves(n, a) <==> Polite(n, a)
  {
    hide Legal, Decode, Flag, InTransit;
    var fs: map<nat, Flight> := n.inflight;
    var rest: map<nat, Flight> := fs - {a.serial};
    assert DeliveredBy(n, a) == multiset{};
    if a.phase.EndResp? {
      assert AcceptedBy(n, a) == multiset{} && NocStep(n, a).inflight == rest;
      if a.serial in fs {
        LandedOne(fs, a.serial);
        var lost := Parcel(fs[a.serial].entry.initId, a.serial);
        assert (multiset(InTransit(fs)) + AcceptedBy(n, a))[lost] > multiset(InTransit(rest))[lost];
      } else {
        assert rest == fs;
      }
    } else if Takes(n, a) {
      TakenIsQueued(n, a);
      var f := Flight(Taken(n, a), a.at);
      if a.serial in fs {
        LandedOne(fs, a.serial);
        TookOff(rest, a.serial, f);
        assert rest[a.serial := f] == fs[a.serial := f];
        var lost := Parcel(fs[a.serial].entry.initId, a.serial);
        assert (multiset(InTransit(fs)) +
          multiset{Parcel(a.id, a.serial)})[lost] > multiset(InTransit(fs[a.serial := f]))[lost];
      } else {
        TookOff(fs, a.serial, f);
        QueuedStaysTracked(n, a);
      }
    }
  }

  /** What an accepted request does to the queues and to the table. */
  lemma TakenIsQueued(n: Noc, a: Act)
    requires Ok(n) && LegalAct(n.router, a) && Takes(n, a)
    ensures var t := Found(n.router, a.op.addr).line.value.tgt;
      && t < |n.queues|
      && NocStep(n, a).queues == Enqueued(n.queues, t, Taken(n, a))
      && NocStep(n, a).inflight == n.inflight[a.serial := Flight(Taken(n, a), a.at)]
  {
    hide Decode, Flag;
    DecodedTargetExists(n.router, a.op.addr);
  }

  lemma QueuedStaysTracked(n: Noc, a: Act)
    requires Ok(n) && LegalAct(n.router, a) && Takes(n, a) && Tracked(n) && a.serial !in n.inflight
    ensures Tracked(NocStep(n, a))
  {
    TakenIsQueued(n, a);
    hide Legal, Decode, Flag, NocStep;
    var n' := NocStep(n, a);
    var tgt := Found(n.router, a.op.addr).line.value.tgt;
    forall t, k | 0 <= t < |n'.queues| && 0 <= k < |n'.queues[t]|
      ensures InFlight(n', n'.queues[t][k])
      ensures t == tgt && k == |n.queues[t]| ==> n'.queues[t][k].serial == a.serial
      ensures !(t == tgt && k == |n.queues[t]|) ==>
        k < |n.queues[t]| && n'.queues[t][k] == n.queues[t][k] && n'.queues[t][k].serial != a.serial
    {
      if !(t == tgt && k == |n.queues[t]|) {
        assert InFlight(n, n.queues[t][k]);
      }
    }
  }

  lemma BackwardConservesIff(n: Noc, a: Act)
    requires Ok(n) && LegalAct(n.router, a) && a.Backward? && Tracked(n)
    ensures Conserves(n, a) <==> Polite(n, a)
  {
    hide Legal, Decode, Flag, InTransit, DC.Allocate;
    var n' := NocStep(n, a);
    if a.phase.BeginResp? && a.serial in n.inflight {
      LandedOne(n.inflight, a.serial);
      var rest: map<nat, Flight> := n.inflight - {a.serial};
      assert n'.queues == n.queues && n'.inflight == rest;
      if IsQueued(n, a.serial) {
        var t, k :| 0 <= t < |n.queues| && 0 <= k < |n.queues[t]| && n.queues[t][k].serial == a.serial;
        assert !InFlight(n', n'.queues[t][k]);
      } else {
        forall t, k | 0 <= t < |n'.queues| && 0 <= k < |n'.queues[t]|
          ensures InFlight(n', n'.queues[t][k])
        {
          assert InFlight(n, n.queues[t][k]) && n.queues[t][k].serial != a.serial;
        }
      }
    }
  }

  /** Exactly when a step conserves the requests: when its partner keeps the handshake. */
  lemma StepConservesIff(n: Noc, a: Act)
    requires Ok(n) && LegalAct(n.router, a) && Tracked(n)
    ensures Conserves(n, a) <==> Polite(n, a)
  {
    match a
    case Block(id, op) => SameRequests(n, a);
    case Forward(_, _, _, _, _) => ForwardConservesIff(n, a);
    case Drain(tgt) => DrainConserves(n, tgt);
    case Backward(_, _, _) => BackwardConservesIff(n, a);
    case Check(_, _) => SameRequests(n, a);
  }

  lemma SameRequests(n: Noc, a: Act)
    requires Ok(n) && LegalAct(n.router, a) && Tracked(n) && (a.Block? || a.Check?)
    ensures Conserves(n, a)
  {
    hide Ok, Step, Reported, Consulted, InTransit;
  }

  // ---------- Whole runs ----------

  ghost function AcceptedAll(n: Noc, acts: seq<Act>): multiset<Parcel>
    requires Ok(n) && LegalActs(n.router, acts)
    decreases |acts|
  {
    if acts == [] then multiset{}
    else
      StepKeepsOk(n, acts[0]);
      SameActs(n, NocStep(n, acts[0]), acts);
      AcceptedBy(n, acts[0]) + AcceptedAll(NocStep(n, acts[0]), acts[1..])
  }

  ghost function DeliveredAll(n: Noc, acts: seq<Act>): multiset<Parcel>
    requires Ok(n) && LegalActs(n.router, acts)
    decreases |acts|
  {
    if acts == [] then multiset{}
    else
      StepKeepsOk(n, acts[0]);
      SameActs(n, NocStep(n, acts[0]), acts);
      DeliveredBy(n, acts[0]) + DeliveredAll(NocStep(n, acts[0]), acts[1..])
  }

  ghost predicate PoliteRun(n: Noc, acts: seq<Act>)
    requires Ok(n) && LegalActs(n.router, acts)
    decreases |acts|
  {
    acts == [] || (
      Polite(n, acts[0]) &&
      (StepKeepsOk(n, acts[0]); SameActs(n, NocStep(n, acts[0]), acts); PoliteRun(NocStep(n, acts[0]), acts[1..])))
  }

  lemma Chain<T>(e0: multiset<T>, e1: multiset<T>, e2: multiset<T>, a: multiset<T>, a': multiset<T>, b: multiset<T>,
                 b': multiset<T>)
    requires e0 + a == b + e1 && e1 + a' == b' + e2
    ensures e0 + (a + a') == (b + b') + e2
  {
    forall x
      ensures (e0 + (a + a'))[x] == ((b + b') + e2)[x]
    {
      assert (e0 + a)[x] == (b + e1)[x] && (e1 + a')[x] == (b' + e2)[x];
    }
  }

  /** Over every run in which the handshake is kept, whatever is programmed and accessed in
      between: the requests in flight at the start and those accepted are, each exactly once,
      answered to their initiator or in flight at the end. */
  lemma {:induction false} RequestsAreDeliveredOnce(n: Noc, acts: seq<Act>)
    requires Ok(n) && LegalActs(n.router, acts) && Tracked(n) && PoliteRun(n, acts)
    ensures multiset(InTransit(n.inflight)) + AcceptedAll(n, acts) ==
      DeliveredAll(n, acts) + multiset(InTransit(RunOf(n, acts).inflight))
    ensures Tracked(RunOf(n, acts))
    decreases |acts|
  {
    hide Ok, Tracked, Polite, NocStep, AcceptedBy, DeliveredBy, InTransit, LegalAct;
    if acts != [] {
      StepKeepsOk(n, acts[0]);
      SameActs(n, NocStep(n, acts[0]), acts);
      StepConservesIff(n, acts[0]);
      var next := NocStep(n, acts[0]);
      RequestsAreDeliveredOnce(next, acts[1..]);
      Chain(multiset(InTransit(n.inflight)), multiset(InTransit(next.inflight)),
            multiset(InTransit(RunOf(n, acts).inflight)), AcceptedBy(n, acts[0]), AcceptedAll(next, acts[1..]),
            DeliveredBy(n, acts[0]), DeliveredAll(next, acts[1..]));
    }
  }

  /** From an idle router: if nothing is in flight at the end, the requests accepted are exactly
      those answered. */
  lemma IdleToIdle(n: Noc, acts: seq<Act>)
    requires Ok(n) && LegalActs(n.router, acts) && PoliteRun(n, acts)
    requires n.inflight == map[] && forall t :: 0 <= t < |n.queues| ==> n.queues[t] == []
    ensures DeliveredAll(n, acts) <= AcceptedAll(n, acts)
    ensures DeliveredAll(n, acts) == AcceptedAll(n, acts) <==> RunOf(n, acts).inflight == map[]
  {
    hide Ok, LegalActs, PoliteRun, AcceptedAll, DeliveredAll, RunOf;
    RequestsAreDeliveredOnce(n, acts);
    var left := RunOf(n, acts).inflight;
    assert InTransit(n.inflight) == {};
    assert AcceptedAll(n, acts) == DeliveredAll(n, acts) + multiset(InTransit(left)) by {
      assert multiset(InTransit(n.inflight)) + AcceptedAll(n, acts) == AcceptedAll(n, acts);
    }
    if left == map[] {
      assert InTransit(left) == {};
    } else {
      var k :| k in left;
      var p := Parcel(left[k].entry.initId, k);
      assert p in InTransit(left);
      assert p in multiset(InTransit(left));
      assert AcceptedAll(n, acts)[p] > DeliveredAll(n, acts)[p];
    }
  }
}

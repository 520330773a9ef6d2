/** Reporting a known flow again adds no process and no node, so the tables stay within a bound
    set by the number of distinct flows, however long the agents run. */
module Saturation {
  import opened Options
  import opened Inet
  import opened Text
  import opened Probe
  import opened Tables
  import opened Store
  import opened Invariant
  import opened Arithmetic

  /** Flows that differ in their count only are the same flow. */
  function Identity(f: FlowRecord): FlowRecord {
    f.(connections := 1)
  }

  /** The tables hold a process and nodes for f; which peer row a find returns does not matter. */
  ghost predicate Covered(inet: InetParser, db: Cmdb, f: FlowRecord) {
    && Legal(inet, f) && db.processes.Has(LocalKey(inet, f))
    && var process := db.processes.Id(LocalKey(inet, f));
    && match f.direction
       case FlowUnknown => true
       case FlowActive =>
         && db.active.Has(process)
         && EligiblePassive(db, inet(f.peer.addr).value, ParseInt32(f.peer.port).value) != {}
       case FlowPassive =>
         && db.passive.Has(PassiveKey(process, ParseInt32(f.local.port).value))
         && EligibleActive(db, ParseInt32(f.local.port).value, inet(f.peer.addr).value) != {}
  }

  /* ----- A committed flow is covered from then on ----- */

  lemma WitnessCovers(inet: InetParser, db: Cmdb, f: FlowRecord, k: FlowKey)
    requires db.Valid() && Witnessed(inet, db, f, k)
    ensures Covered(inet, db, f)
  {
    if f.direction.FlowActive? {
      IdUnique(db.processes, LocalKey(inet, f), db.active.rows[k.source].key);
      IdUnique(db.active, db.active.rows[k.source].key, k.source);
      assert k.destination in EligiblePassive(db, inet(f.peer.addr).value, ParseInt32(f.peer.port).value);
    } else {
      var key := db.passive.rows[k.destination].key;
      IdUnique(db.processes, LocalKey(inet, f), key.process);
      IdUnique(db.passive, key, k.destination);
      assert db.flows.Id(k) in db.flows.rows;
      assert TalksTo(db, k.source, key.port);
      assert k.source in EligibleActive(db, ParseInt32(f.local.port).value, inet(f.peer.addr).value);
    }
  }

  lemma StepCovers(inet: InetParser, db: Cmdb, f: FlowRecord, now: int, pick: Pick)
    requires db.Valid() && !Loopback(f) && Legal(inet, f)
    ensures Covered(inet, Step(inet, db, f, now, pick).db, f)
  {
    StepKeeps(inet, db, f, now, pick);
    var r := Step(inet, db, f, now, pick);
    if f.direction.FlowUnknown? {
      InsertProcessKeeps(db, inet(f.local.addr), Pgid(f), Pname(f), now);
      IdUnique(r.db.processes, LocalKey(inet, f), r.id);
    } else {
      WitnessCovers(inet, r.db, f, r.db.flows.rows[r.id].key);
    }
  }

  lemma EligibleLater(db: Cmdb, db': Cmdb, port: int, addr: Inet)
    requires db.Valid() && Next(db, db')
    ensures EligibleActive(db, port, addr) <= EligibleActive(db', port, addr)
    ensures EligiblePassive(db, addr, port) <= EligiblePassive(db', addr, port)
  {
    forall a | a in EligibleActive(db, port, addr) ensures a in EligibleActive(db', port, addr) {
      var f :| && f in db.flows.rows && db.flows.rows[f].key.source == a
               && db.flows.rows[f].key.destination in db.passive.rows
               && db.passive.rows[db.flows.rows[f].key.destination].key.port == port;
      assert f in db'.flows.rows && db'.flows.rows[f].key == db.flows.rows[f].key;
      assert TalksTo(db', a, port);
    }
  }

  lemma CoveredLater(inet: InetParser, db: Cmdb, db': Cmdb, f: FlowRecord)
    requires db.Valid() && Next(db, db') && Covered(inet, db, f)
    ensures Covered(inet, db', f)
  {
    var process := db.processes.Id(LocalKey(inet, f));
    ExtendsKeepsId(db.processes, db'.processes, LocalKey(inet, f));
    match f.direction
    case FlowUnknown =>
    case FlowActive =>
      ExtendsKeepsId(db.active, db'.active, process);
      EligibleLater(db, db', ParseInt32(f.peer.port).value, inet(f.peer.addr).value);
    case FlowPassive =>
      ExtendsKeepsId(db.passive, db'.passive, PassiveKey(process, ParseInt32(f.local.port).value));
      EligibleLater(db, db', ParseInt32(f.local.port).value, inet(f.peer.addr).value);
  }

  /* ----- A covered flow adds no process and no node ----- */

  lemma LocalProcessFound(inet: InetParser, db: Cmdb, f: FlowRecord, now: int)
    requires db.Valid() && Legal(inet, f) && db.processes.Has(LocalKey(inet, f))
    ensures var r := InsertProcess(db, inet(f.local.addr), Pgid(f), Pname(f), now);
      && r.Done? && r.id == db.processes.Id(LocalKey(inet, f)) && r.db.Valid()
      && SameNodes(db, r.db) && r.db.flows == db.flows
  {
    InsertProcessKeeps(db, inet(f.local.addr), Pgid(f), Pname(f), now);
  }

  lemma PassiveAddsNothing(inet: InetParser, db: Cmdb, process: nat, f: FlowRecord, now: int, pick: Pick)
    requires db.Valid() && process in db.processes.rows && Legal(inet, f) && f.direction.FlowPassive?
    requires var port := ParseInt32(f.local.port).value;
      db.passive.Has(PassiveKey(process, port)) && EligibleActive(db, port, inet(f.peer.addr).value) != {}
    ensures SameNodes(db, StepPassive(inet, db, process, f, now, pick).db)
  {
    hide InsertPassiveNode, EligibleActive, PeerActive, InsertFlow, Cmdb.Valid, SameNodes;
    var port, addr := ParseInt32(f.local.port), inet(f.peer.addr);
    var r := InsertPassiveNode(db, process, port);
    PassiveNodeFound(db, process, port.value);
    SameNodesSameEligible(db, r.db, port.value, addr.value);
    PeerFound(r.db, port, addr, now, pick);
    var peer := pick(EligibleActive(r.db, port.value, addr.value));
    FlowAddsNothing(r.db, peer, r.id, f.connections, now);
    SameNodesTransitive(db, r.db, InsertFlow(r.db, peer, r.id, f.connections, now).db);
  }

  lemma PeerFound(db: Cmdb, port: Option<int>, addr: Option<Inet>, now: int, pick: Pick)
    requires port.Some? && addr.Some?
    ensures var s := EligibleActive(db, port.value, addr.value);
      s != {} ==> PeerActive(db, port, addr, now, pick) == Done(db, pick(s))
    ensures var s := EligiblePassive(db, addr.value, port.value);
      s != {} ==> PeerPassive(db, addr, port, now, pick) == Done(db, pick(s))
  {
  }

  lemma FlowAddsNothing(db: Cmdb, source: nat, destination: nat, connections: int, now: int)
    ensures SameNodes(db, InsertFlow(db, source, destination, connections, now).db)
  {
  }

  lemma PassiveNodeFound(db: Cmdb, process: nat, port: int)
    requires db.Valid() && process in db.processes.rows && LegalPort(port)
    requires db.passive.Has(PassiveKey(process, port))
    ensures var r := InsertPassiveNode(db, process, Some(port));
      r.Done? && r.db.Valid() && SameNodes(db, r.db) && r.db.flows == db.flows
  {
    InsertPassiveNodeKeeps(db, process, Some(port));
    UpsertSize(db.passive, PassiveKey(process, port), (), ());
  }

  lemma ActiveNodeFound(db: Cmdb, process: nat)
    requires db.Valid() && process in db.processes.rows && db.active.Has(process)
    ensures var r := InsertActiveNode(db, process);
      r.Done? && r.db.Valid() && SameNodes(db, r.db) && r.db.flows == db.flows
  {
    InsertActiveNodeKeeps(db, process);
    UpsertSize(db.active, process, (), ());
  }

  lemma ActiveAddsNothing(inet: InetParser, db: Cmdb, process: nat, f: FlowRecord, now: int, pick: Pick)
    requires db.Valid() && process in db.processes.rows && Legal(inet, f) && f.direction.FlowActive?
    requires db.active.Has(process)
    requires EligiblePassive(db, inet(f.peer.addr).value, ParseInt32(f.peer.port).value) != {}
    ensures SameNodes(db, StepActive(inet, db, process, f, now, pick).db)
  {
    hide InsertActiveNode, EligiblePassive, PeerPassive, InsertFlow, Cmdb.Valid, SameNodes;
    var port, addr := ParseInt32(f.peer.port), inet(f.peer.addr);
    var r := InsertActiveNode(db, process);
    ActiveNodeFound(db, process);
    SameNodesSameEligible(db, r.db, port.value, addr.value);
    PeerFound(r.db, port, addr, now, pick);
    var peer := pick(EligiblePassive(r.db, addr.value, port.value));
    FlowAddsNothing(r.db, r.id, peer, f.connections, now);
    SameNodesTransitive(db, r.db, InsertFlow(r.db, r.id, peer, f.connections, now).db);
  }

  /** A known flow, with whatever count and whichever row the find returns, adds no process, no
      active node and no passive node. */
  lemma CoveredAddsNothing(inet: InetParser, db: Cmdb, f: FlowRecord, now: int, pick: Pick)
    requires db.Valid() && Covered(inet, db, Identity(f)) && Legal(inet, f)
    ensures SameNodes(db, Step(inet, db, f, now, pick).db)
  {
    if !Loopback(f) {
      LocalProcessFound(inet, db, f, now);
      var r := InsertProcess(db, inet(f.local.addr), Pgid(f), Pname(f), now);
      match f.direction
      case FlowUnknown =>
      case FlowPassive =>
        SameNodesSameEligible(db, r.db, ParseInt32(f.local.port).value, inet(f.peer.addr).value);
        PassiveAddsNothing(inet, r.db, r.id, f, now, pick);
      case FlowActive =>
        SameNodesSameEligible(db, r.db, ParseInt32(f.peer.port).value, inet(f.peer.addr).value);
        ActiveAddsNothing(inet, r.db, r.id, f, now, pick);
    }
  }

  /* ----- Over whole runs ----- */

  lemma StepKeepsCovered(inet: InetParser, db: Cmdb, q: Request, now: int, g: FlowRecord)
    requires db.Valid() && Step(inet, db, q.flow, now, q.pick).Done?
    requires Covered(inet, db, g) || (!Loopback(q.flow) && g == Identity(q.flow))
    ensures Covered(inet, Step(inet, db, q.flow, now, q.pick).db, g)
  {
    hide Step, Covered, Cmdb.Valid, Legal;
    StepKeeps(inet, db, q.flow, now, q.pick);
    var after := Step(inet, db, q.flow, now, q.pick).db;
    if Covered(inet, db, g) {
      CoveredLater(inet, db, after, g);
    } else {
      StepCovers(inet, db, q.flow, now, q.pick);
      IdentityCovered(inet, after, q.flow);
    }
  }

  lemma {:induction false} FoldCovers(inet: InetParser, db: Cmdb, rs: seq<Request>, now: int, i: nat)
    requires db.Valid() && Fold(inet, db, rs, now).Done? && i < |rs| && !Loopback(rs[i].flow)
    ensures Covered(inet, Fold(inet, db, rs, now).db, Identity(rs[i].flow))
  {
    hide Step, Covered, Cmdb.Valid, Cmdb.Extends, Legal, Accepted, Loopback;
    var n := |rs| - 1;
    FoldKeeps(inet, db, rs[..n], now);
    if i < n {
      FoldCovers(inet, db, rs[..n], now, i);
    }
    StepKeepsCovered(inet, Fold(inet, db, rs[..n], now).db, rs[n], now, Identity(rs[i].flow));
  }

  lemma IdentityCovered(inet: InetParser, db: Cmdb, f: FlowRecord)
    requires Covered(inet, db, f)
    ensures Covered(inet, db, Identity(f))
  {
  }

  /** Batch i of the run committed with g at place j, or with g under another count. */
  ghost predicate CommittedAt(inet: InetParser, bs: seq<Batch>, i: nat, j: nat, g: FlowRecord) {
    && i < |bs| && j < |bs[i].requests| && Commits(inet, Run(inet, bs[..i]), bs[i])
    && !Loopback(bs[i].requests[j].flow) && Identity(bs[i].requests[j].flow) == Identity(g)
  }

  ghost predicate Committed(inet: InetParser, bs: seq<Batch>, g: FlowRecord) {
    exists i: nat, j: nat :: CommittedAt(inet, bs, i, j, g)
  }

  lemma CommittedIsCovered(inet: InetParser, bs: seq<Batch>, g: FlowRecord)
    requires Committed(inet, bs, g)
    ensures Run(inet, bs).Valid() && Covered(inet, Run(inet, bs), Identity(g))
  {
    var i: nat, j: nat :| CommittedAt(inet, bs, i, j, g);
    CoveredAtCommit(inet, bs, i, j, g);
    assert bs == bs[..i + 1] + bs[i + 1..];
    hide Covered, Cmdb.Valid, Cmdb.Extends, CommittedAt, Run, Identity;
    RunExtends(inet, bs[..i + 1], bs[i + 1..]);
    CoveredLater(inet, Run(inet, bs[..i + 1]), Run(inet, bs), Identity(g));
  }

  lemma CoveredAtCommit(inet: InetParser, bs: seq<Batch>, i: nat, j: nat, g: FlowRecord)
    requires CommittedAt(inet, bs, i, j, g)
    ensures Run(inet, bs[..i + 1]).Valid() && Covered(inet, Run(inet, bs[..i + 1]), Identity(g))
  {
    assert bs[..i + 1][..i] == bs[..i];
    RunValid(inet, bs[..i]);
    RunValid(inet, bs[..i + 1]);
    hide Covered, Cmdb.Valid, Fold;
    FoldCovers(inet, Run(inet, bs[..i]), bs[i].requests, bs[i].now, j);
  }

  lemma {:induction false} FoldAddsNothing(inet: InetParser, db: Cmdb, rs: seq<Request>, now: int)
    requires db.Valid() && Fold(inet, db, rs, now).Done?
    requires forall k :: 0 <= k < |rs| ==> Loopback(rs[k].flow) || Covered(inet, db, Identity(rs[k].flow))
    ensures SameNodes(db, Fold(inet, db, rs, now).db)
  {
    if rs != [] {
      var n := |rs| - 1;
      FoldAddsNothing(inet, db, rs[..n], now);
      FoldKeeps(inet, db, rs, now);
      FoldKeeps(inet, db, rs[..n], now);
      StepAddsNothing(inet, db, Fold(inet, db, rs[..n], now).db, rs[n], now);
    }
  }

  lemma StepAddsNothing(inet: InetParser, start: Cmdb, db: Cmdb, q: Request, now: int)
    requires start.Valid() && Next(start, db) && SameNodes(start, db) && Accepted(inet, q.flow)
    requires Loopback(q.flow) || Covered(inet, start, Identity(q.flow))
    ensures SameNodes(start, Step(inet, db, q.flow, now, q.pick).db)
  {
    if !Loopback(q.flow) {
      hide Step, Covered, Cmdb.Valid, Legal, SameNodes;
      CoveredLater(inet, start, db, Identity(q.flow));
      CoveredAddsNothing(inet, db, q.flow, now, q.pick);
      SameNodesTransitive(start, db, Step(inet, db, q.flow, now, q.pick).db);
    }
  }

  /** A batch of flows that were all committed earlier in the run, in whatever batches and with
      whatever counts, creates no process and no node, whichever rows its finds return. */
  lemma ReportedAgainAddsNothing(inet: InetParser, bs: seq<Batch>, b: Batch)
    requires forall k :: 0 <= k < |b.requests| ==>
      Loopback(b.requests[k].flow) || Committed(inet, bs, b.requests[k].flow)
    ensures SameNodes(Run(inet, bs), Apply(inet, Run(inet, bs), b))
  {
    var db := Run(inet, bs);
    RunValid(inet, bs);
    CommitsIffAllAccepted(inet, db, b);
    forall k | 0 <= k < |b.requests| && !Loopback(b.requests[k].flow)
      ensures Covered(inet, db, Identity(b.requests[k].flow))
    {
      CommittedIsCovered(inet, bs, b.requests[k].flow);
    }
    if Commits(inet, db, b) {
      FoldAddsNothing(inet, db, b.requests, b.now);
    }
  }

  /* ----- Any flow adds at most two processes and one node on either side ----- */

  ghost predicate Grows(db: Cmdb, db': Cmdb, processes: nat, active: nat, passive: nat) {
    && |db'.processes.rows| <= |db.processes.rows| + processes
    && |db'.active.rows| <= |db.active.rows| + active
    && |db'.passive.rows| <= |db.passive.rows| + passive
  }

  lemma ProcessGrows(db: Cmdb, ipv4: Option<Inet>, pgid: int, pname: string, now: int)
    requires db.Valid()
    ensures Grows(db, InsertProcess(db, ipv4, pgid, pname, now).db, 1, 0, 0)
  {
    if ipv4.Some? && LegalPgid(pgid) && Varchar(pname).Some? {
      var k := ProcessKey(ipv4.value, pgid, Varchar(pname).value);
      UpsertSize(db.processes, k, Stamps(now, now), db.processes.ColsOr(k, Stamps(now, now)).(updated := now));
    }
  }

  lemma ActiveNodeGrows(db: Cmdb, process: nat)
    requires db.Valid()
    ensures Grows(db, InsertActiveNode(db, process).db, 0, 1, 0)
  {
    UpsertSize(db.active, process, (), ());
  }

  lemma PassiveNodeGrows(db: Cmdb, process: nat, port: Option<int>)
    requires db.Valid()
    ensures Grows(db, InsertPassiveNode(db, process, port).db, 0, 0, 1)
  {
    if port.Some? {
      UpsertSize(db.passive, PassiveKey(process, port.value), (), ());
    }
  }

  lemma StepPassiveGrows(inet: InetParser, db: Cmdb, process: nat, f: FlowRecord, now: int, pick: Pick)
    requires db.Valid() && process in db.processes.rows
    ensures Grows(db, StepPassive(inet, db, process, f, now, pick).db, 1, 1, 1)
  {
    hide InsertPassiveNode, PeerActive, InsertFlow, Cmdb.Valid, Cmdb.Extends, NodeOn;
    var port := ParseInt32(f.local.port);
    var r1 := InsertPassiveNode(db, process, port);
    InsertPassiveNodeKeeps(db, process, port);
    PassiveNodeGrows(db, process, port);
    if r1.Done? {
      PeerActiveGrows(r1.db, port, inet(f.peer.addr), now, pick);
      PeerActiveKeeps(r1.db, port, inet(f.peer.addr), now, pick);
      var r2 := PeerActive(r1.db, port, inet(f.peer.addr), now, pick);
      if r2.Done? {
        RowsStay(r1.db, r2.db);
        InsertFlowKeeps(r2.db, r2.id, r1.id, f.connections, now);
      }
    }
  }

  lemma PeerActiveGrows(db: Cmdb, port: Option<int>, addr: Option<Inet>, now: int, pick: Pick)
    requires db.Valid()
    ensures Grows(db, PeerActive(db, port, addr, now, pick).db, 1, 1, 0)
  {
    hide InsertProcess, InsertActiveNode, InsertPassiveNode, EligibleActive, EligiblePassive, Cmdb.Valid, Cmdb.Extends;
    InsertProcessKeeps(db, addr, 0, "", now);
    ProcessGrows(db, addr, 0, "", now);
    var r := InsertProcess(db, addr, 0, "", now);
    if r.Done? {
      ActiveNodeGrows(r.db, r.id);
    }
  }

  lemma PeerPassiveGrows(db: Cmdb, addr: Option<Inet>, port: Option<int>, now: int, pick: Pick)
    requires db.Valid()
    ensures Grows(db, PeerPassive(db, addr, port, now, pick).db, 1, 0, 1)
  {
    hide InsertProcess, InsertActiveNode, InsertPassiveNode, EligibleActive, EligiblePassive, Cmdb.Valid, Cmdb.Extends;
    InsertProcessKeeps(db, addr, 0, "", now);
    ProcessGrows(db, addr, 0, "", now);
    var r := InsertProcess(db, addr, 0, "", now);
    if r.Done? {
      PassiveNodeGrows(r.db, r.id, port);
    }
  }

  lemma StepActiveGrows(inet: InetParser, db: Cmdb, process: nat, f: FlowRecord, now: int, pick: Pick)
    requires db.Valid() && process in db.processes.rows
    ensures Grows(db, StepActive(inet, db, process, f, now, pick).db, 1, 1, 1)
  {
    hide InsertActiveNode, PeerPassive, InsertFlow, Cmdb.Valid, Cmdb.Extends, NodeOn;
    var r1 := InsertActiveNode(db, process);
    InsertActiveNodeKeeps(db, process);
    ActiveNodeGrows(db, process);
    PeerPassiveGrows(r1.db, inet(f.peer.addr), ParseInt32(f.peer.port), now, pick);
    PeerPassiveKeeps(r1.db, inet(f.peer.addr), ParseInt32(f.peer.port), now, pick);
    var r2 := PeerPassive(r1.db, inet(f.peer.addr), ParseInt32(f.peer.port), now, pick);
    if r2.Done? {
      RowsStay(r1.db, r2.db);
      InsertFlowKeeps(r2.db, r1.id, r2.id, f.connections, now);
    }
  }

  lemma StepGrows(inet: InetParser, db: Cmdb, f: FlowRecord, now: int, pick: Pick)
    requires db.Valid()
    ensures Grows(db, Step(inet, db, f, now, pick).db, 2, 1, 1)
  {
    if !Loopback(f) {
      InsertProcessKeeps(db, inet(f.local.addr), Pgid(f), Pname(f), now);
      ProcessGrows(db, inet(f.local.addr), Pgid(f), Pname(f), now);
      var r := InsertProcess(db, inet(f.local.addr), Pgid(f), Pname(f), now);
      if r.Done? {
        match f.direction
        case FlowUnknown =>
        case FlowPassive => StepPassiveGrows(inet, r.db, r.id, f, now, pick);
        case FlowActive => StepActiveGrows(inet, r.db, r.id, f, now, pick);
      }
    }
  }

  /* ----- The bound over whole runs ----- */

  ghost function CoveredIn(inet: InetParser, db: Cmdb, s: set<FlowRecord>): set<FlowRecord> {
    set g | g in s && Covered(inet, db, g)
  }

  /** Two processes and one node on either side for each covered flow. */
  ghost predicate Paid(inet: InetParser, db: Cmdb, s: set<FlowRecord>) {
    var n := |CoveredIn(inet, db, s)|;
    |db.processes.rows| <= 2 * n && |db.active.rows| <= n && |db.passive.rows| <= n
  }

  lemma SubsetSize<T>(s: set<T>, t: set<T>)
    requires s <= t
    ensures |s| <= |t|
  {
    assert t == s + (t - s);
  }

  lemma CoveredGrows(inet: InetParser, db: Cmdb, db': Cmdb, s: set<FlowRecord>)
    requires db.Valid() && Next(db, db')
    ensures CoveredIn(inet, db, s) <= CoveredIn(inet, db', s)
    ensures |CoveredIn(inet, db, s)| <= |CoveredIn(inet, db', s)|
  {
    forall g | g in CoveredIn(inet, db, s) ensures g in CoveredIn(inet, db', s) {
      CoveredLater(inet, db, db', g);
    }
    SubsetSize(CoveredIn(inet, db, s), CoveredIn(inet, db', s));
  }

  lemma SameNodesSameSize(db: Cmdb, db': Cmdb)
    requires SameNodes(db, db')
    ensures Grows(db, db', 0, 0, 0)
  {
    assert |db.processes.rows| == |db.processes.rows.Keys|;
    assert |db'.processes.rows| == |db'.processes.rows.Keys|;
  }

  lemma KnownFlowPaid(inet: InetParser, db: Cmdb, s: set<FlowRecord>, f: FlowRecord, now: int, pick: Pick)
    requires db.Valid() && Paid(inet, db, s) && Legal(inet, f) && Covered(inet, db, Identity(f))
    ensures Paid(inet, Step(inet, db, f, now, pick).db, s)
  {
    hide Step, Covered, Cmdb.Valid, Cmdb.Extends, Legal;
    StepKeeps(inet, db, f, now, pick);
    CoveredGrows(inet, db, Step(inet, db, f, now, pick).db, s);
    CoveredAddsNothing(inet, db, f, now, pick);
    SameNodesSameSize(db, Step(inet, db, f, now, pick).db);
  }

  lemma NewFlowPaid(inet: InetParser, db: Cmdb, s: set<FlowRecord>, f: FlowRecord, now: int, pick: Pick)
    requires db.Valid() && Paid(inet, db, s) && Legal(inet, f) && !Loopback(f)
    requires Identity(f) in s && !Covered(inet, db, Identity(f))
    ensures Paid(inet, Step(inet, db, f, now, pick).db, s)
  {
    hide Step, Covered, Cmdb.Valid, Cmdb.Extends, Legal;
    var db', g := Step(inet, db, f, now, pick).db, Identity(f);
    StepKeeps(inet, db, f, now, pick);
    CoveredGrows(inet, db, db', s);
    StepGrows(inet, db, f, now, pick);
    StepCovers(inet, db, f, now, pick);
    IdentityCovered(inet, db', f);
    SubsetSize(CoveredIn(inet, db, s) + {g}, CoveredIn(inet, db', s));
    assert |CoveredIn(inet, db, s) + {g}| == |CoveredIn(inet, db, s)| + 1;
  }

  lemma StepPaid(inet: InetParser, db: Cmdb, s: set<FlowRecord>, f: FlowRecord, now: int, pick: Pick)
    requires db.Valid() && Paid(inet, db, s)
    requires Step(inet, db, f, now, pick).Done? && (Loopback(f) || Identity(f) in s)
    ensures Paid(inet, Step(inet, db, f, now, pick).db, s)
  {
    if !Loopback(f) {
      hide Step, Covered, Cmdb.Valid, Legal, Paid;
      StepKeeps(inet, db, f, now, pick);
      if Covered(inet, db, Identity(f)) {
        KnownFlowPaid(inet, db, s, f, now, pick);
      } else {
        NewFlowPaid(inet, db, s, f, now, pick);
      }
    }
  }

  /** s holds the identity of every flow of the batch that is not a loopback flow. */
  ghost predicate DrawnFrom(rs: seq<Request>, s: set<FlowRecord>) {
    forall i :: 0 <= i < |rs| ==> Loopback(rs[i].flow) || Identity(rs[i].flow) in s
  }

  lemma {:induction false} FoldPaid(inet: InetParser, db: Cmdb, s: set<FlowRecord>, rs: seq<Request>, now: int)
    requires db.Valid() && Paid(inet, db, s) && DrawnFrom(rs, s) && Fold(inet, db, rs, now).Done?
    ensures Paid(inet, Fold(inet, db, rs, now).db, s)
  {
    if rs != [] {
      var n := |rs| - 1;
      FoldPaid(inet, db, s, rs[..n], now);
      FoldKeeps(inet, db, rs[..n], now);
      StepPaid(inet, Fold(inet, db, rs[..n], now).db, s, rs[n].flow, now, rs[n].pick);
    }
  }

  lemma {:induction false} RunPaid(inet: InetParser, bs: seq<Batch>, s: set<FlowRecord>)
    requires forall i :: 0 <= i < |bs| ==> DrawnFrom(bs[i].requests, s)
    ensures Paid(inet, Run(inet, bs), s)
  {
    if bs != [] {
      var n := |bs| - 1;
      var db, b := Run(inet, bs[..n]), bs[n];
      RunPaid(inet, bs[..n], s);
      RunValid(inet, bs[..n]);
      CommitsIffAllAccepted(inet, db, b);
      if Commits(inet, db, b) {
        FoldPaid(inet, db, s, b.requests, b.now);
      } else {
        CoveredGrows(inet, db, Apply(inet, db, b), s);
      }
    }
  }

  /** However many batches report flows drawn from s, in whatever order and with whatever counts,
      the tables stay this small. */
  lemma RunBounded(inet: InetParser, bs: seq<Batch>, s: set<FlowRecord>)
    requires forall i :: 0 <= i < |bs| ==> DrawnFrom(bs[i].requests, s)
    ensures var db := Run(inet, bs);
      && |db.processes.rows| <= 2 * |s|
      && |db.active.rows| <= |s| && |db.passive.rows| <= |s|
      && |db.flows.rows| <= |s| * |s|
  {
    var db := Run(inet, bs);
    RunPaid(inet, bs, s);
    SubsetSize(CoveredIn(inet, db, s), s);
    RunValid(inet, bs);
    FlowsAreNodePairs(db);
    ProductMonotone(|db.active.rows|, |s|, |db.passive.rows|);
    ProductMonotone(|db.passive.rows|, |s|, |s|);
  }

  /** UNIQUE (source, destination): at most one flow for each pair of nodes. */
  lemma FlowsAreNodePairs(db: Cmdb)
    requires db.Valid()
    ensures |db.flows.rows| <= |db.active.rows| * |db.passive.rows|
  {
    var keyOf := map id | id in db.flows.rows :: db.flows.rows[id].key;
    PairsBound(keyOf, db.active.rows.Keys, db.passive.rows.Keys);
    assert keyOf.Keys == db.flows.rows.Keys && |db.flows.rows| == |db.flows.rows.Keys|;
    assert |db.active.rows| == |db.active.rows.Keys| && |db.passive.rows| == |db.passive.rows.Keys|;
  }

  ghost function FlowsFrom(m: map<nat, FlowKey>, a: nat): map<nat, nat> {
    map i | i in m && m[i].source == a :: m[i].destination
  }

  ghost function FlowsElsewhere(m: map<nat, FlowKey>, a: nat): map<nat, FlowKey> {
    map i | i in m && m[i].source != a :: m[i]
  }

  /** An injective map into pairs has at most as many entries as there are pairs. */
  lemma {:induction false} PairsBound(m: map<nat, FlowKey>, left: set<nat>, right: set<nat>)
    requires forall i :: i in m ==> m[i].source in left && m[i].destination in right
    requires forall i, j :: i in m && j in m && m[i] == m[j] ==> i == j
    ensures |m.Keys| <= |left| * |right|
    decreases |left|
  {
    if left == {} {
      assert m.Keys == {};
    } else {
      var a :| a in left;
      var here, there := FlowsFrom(m, a), FlowsElsewhere(m, a);
      PairsBound(there, left - {a}, right);
      assert forall i :: i in here ==> m[i] == FlowKey(a, here[i]);
      InjectionBound(here, right);
      UnionSize(m.Keys, here.Keys, there.Keys);
      OneMoreRow(|m.Keys|, |here.Keys|, |left - {a}|, |left|, |right|);
    }
  }

  lemma UnionSize<T>(s: set<T>, x: set<T>, y: set<T>)
    requires s <= x + y
    ensures |s| <= |x| + |y|
  {
    SubsetSize(s, x + y);
    assert x + y == x + (y - x);
    SubsetSize(y - x, y);
  }

  lemma OneMoreRow(all: nat, here: nat, n: nat, n': nat, m: nat)
    requires all <= here + n * m && here <= m && n' == n + 1
    ensures all <= n' * m
  {
    assert (n + 1) * m == n * m + m;
  }

  lemma {:induction false} InjectionBound(m: map<nat, nat>, s: set<nat>)
    requires forall i :: i in m ==> m[i] in s
    requires forall i, j :: i in m && j in m && m[i] == m[j] ==> i == j
    ensures |m.Keys| <= |s|
    decreases |s|
  {
    if m != map[] {
      var i :| i in m;
      InjectionBound(m - {i}, s - {m[i]});
      assert m.Keys == (m - {i}).Keys + {i};
    }
  }
}

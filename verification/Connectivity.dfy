/** The graph has no loose parts. A flow creates a node or a process before the row that uses it,
    so this holds between flows and between batches, not between statements. */
module Connectivity {
  import opened Options
  import opened Text
  import opened Inet
  import opened Probe
  import opened Tables
  import opened Store
  import opened Invariant
  import opened Provenance

  ghost predicate IsSource(db: Cmdb, a: nat) {
    exists f :: f in db.flows.rows && db.flows.rows[f].key.source == a
  }

  ghost predicate IsDestination(db: Cmdb, n: nat) {
    exists f :: f in db.flows.rows && db.flows.rows[f].key.destination == n
  }

  ghost predicate OwnsNode(db: Cmdb, p: nat) {
    || (exists a :: a in db.active.rows && db.active.rows[a].key == p)
    || (exists n :: n in db.passive.rows && db.passive.rows[n].key.process == p)
  }

  /** Every active node is the source and every passive node the destination of a flow; every
      process owns a node, unless its key is one of `loose`. */
  ghost predicate Linked(db: Cmdb, loose: set<ProcessKey>) {
    && (forall a :: a in db.active.rows ==> IsSource(db, a))
    && (forall n :: n in db.passive.rows ==> IsDestination(db, n))
    && (forall p :: p in db.processes.rows && db.processes.rows[p].key !in loose ==> OwnsNode(db, p))
  }

  /* ----- What one flow creates ----- */

  ghost predicate NewProcesses(db: Cmdb, db': Cmdb, p: nat, q: nat) {
    forall i :: i in db'.processes.rows ==> i in db.processes.rows || i == p || i == q
  }

  /** db' has no node besides those of db and the two ends of a flow. */
  ghost predicate NewNodes(db: Cmdb, db': Cmdb, source: nat, destination: nat) {
    && (forall i :: i in db'.active.rows ==> i in db.active.rows || i == source)
    && (forall i :: i in db'.passive.rows ==> i in db.passive.rows || i == destination)
  }

  lemma ActiveNodeCreated(db: Cmdb, process: nat)
    requires db.Valid() && process in db.processes.rows
    ensures var r := InsertActiveNode(db, process);
      forall i :: i in r.db.active.rows ==> i in db.active.rows || i == r.id
  {
    UpsertKeepsValid(db.active, process, (), ());
  }

  lemma PassiveNodeCreated(db: Cmdb, process: nat, port: Option<int>)
    requires db.Valid() && InsertPassiveNode(db, process, port).Done?
    ensures var r := InsertPassiveNode(db, process, port);
      forall i :: i in r.db.passive.rows ==> i in db.passive.rows || i == r.id
  {
    UpsertKeepsValid(db.passive, PassiveKey(process, port.value), (), ());
  }

  lemma PeerActiveCreates(db: Cmdb, port: Option<int>, addr: Option<Inet>, now: int, pick: Pick)
    requires db.Valid() && PeerActive(db, port, addr, now, pick).Done?
    ensures var r := PeerActive(db, port, addr, now, pick);
      && r.id in r.db.active.rows && r.db.passive == db.passive
      && (forall i :: i in r.db.active.rows ==> i in db.active.rows || i == r.id)
      && (forall i :: i in r.db.processes.rows ==> i in db.processes.rows || i == r.db.active.rows[r.id].key)
  {
    PeerActiveKeeps(db, port, addr, now, pick);
    if EligibleActive(db, port.value, addr.value) == {} {
      InsertProcessKeeps(db, addr, 0, "", now);
      var r1 := InsertProcess(db, addr, 0, "", now);
      InsertActiveNodeKeeps(r1.db, r1.id);
      ActiveNodeCreated(r1.db, r1.id);
    }
  }

  lemma PeerPassiveCreates(db: Cmdb, addr: Option<Inet>, port: Option<int>, now: int, pick: Pick)
    requires db.Valid() && PeerPassive(db, addr, port, now, pick).Done?
    requires port.Some? ==> port.value <= INT32_MAX
    ensures var r := PeerPassive(db, addr, port, now, pick);
      && r.id in r.db.passive.rows && r.db.active == db.active
      && (forall i :: i in r.db.passive.rows ==> i in db.passive.rows || i == r.id)
      && (forall i :: i in r.db.processes.rows ==> i in db.processes.rows || i == r.db.passive.rows[r.id].key.process)
  {
    PeerPassiveKeeps(db, addr, port, now, pick);
    if EligiblePassive(db, addr.value, port.value) == {} {
      InsertProcessKeeps(db, addr, 0, "", now);
      var r1 := InsertProcess(db, addr, 0, "", now);
      InsertPassiveNodeKeeps(r1.db, r1.id, port);
      PassiveNodeCreated(r1.db, r1.id, port);
    }
  }

  /** Row id joins the only nodes that can be new, and their processes are the only ones besides
      `local` that can be. */
  ghost predicate Created(db: Cmdb, db': Cmdb, id: nat, local: nat) {
    && id in db'.flows.rows
    && var k := db'.flows.rows[id].key;
    && k.source in db'.active.rows && k.destination in db'.passive.rows
    && NewNodes(db, db', k.source, k.destination)
    && (db'.active.rows[k.source].key == local || db'.passive.rows[k.destination].key.process == local)
    && NewProcesses(db, db', db'.active.rows[k.source].key, db'.passive.rows[k.destination].key.process)
  }

  lemma EndsCreated(db: Cmdb, db2: Cmdb, db': Cmdb, id: nat, source: nat, destination: nat, local: nat)
    requires source in db2.active.rows && destination in db2.passive.rows && NewNodes(db, db2, source, destination)
    requires db2.active.rows[source].key == local || db2.passive.rows[destination].key.process == local
    requires NewProcesses(db, db2, db2.active.rows[source].key, db2.passive.rows[destination].key.process)
    requires db' == db2.(flows := db'.flows) && id in db'.flows.rows && db'.flows.rows[id].key == FlowKey(source, destination)
    ensures Created(db, db', id, local)
  {
  }

  lemma PassiveCreates(inet: InetParser, db: Cmdb, process: nat, f: FlowRecord, now: int, pick: Pick)
    requires db.Valid() && process in db.processes.rows && StepPassive(inet, db, process, f, now, pick).Done?
    ensures var r := StepPassive(inet, db, process, f, now, pick); Created(db, r.db, r.id, process)
  {
    hide PeerActive, InsertFlow, Cmdb.Valid, Cmdb.Extends, Table.Valid, Table.Extends, ParseInt32, Created;
    var port, addr := ParseInt32(f.local.port), inet(f.peer.addr);
    var r1 := InsertPassiveNode(db, process, port);
    PassiveNodeCreated(db, process, port);
    hide InsertPassiveNode;
    InsertPassiveNodeKeeps(db, process, port);
    var r2 := PeerActive(r1.db, port, addr, now, pick);
    PeerActiveKeeps(r1.db, port, addr, now, pick);
    PeerActiveCreates(r1.db, port, addr, now, pick);
    InsertFlowKeeps(r2.db, r2.id, r1.id, f.connections, now);
    EndsCreated(db, r2.db, InsertFlow(r2.db, r2.id, r1.id, f.connections, now).db,
      InsertFlow(r2.db, r2.id, r1.id, f.connections, now).id, r2.id, r1.id, process);
  }

  lemma ActiveCreates(inet: InetParser, db: Cmdb, process: nat, f: FlowRecord, now: int, pick: Pick)
    requires db.Valid() && process in db.processes.rows && StepActive(inet, db, process, f, now, pick).Done?
    ensures var r := StepActive(inet, db, process, f, now, pick); Created(db, r.db, r.id, process)
  {
    hide PeerPassive, InsertFlow, Cmdb.Valid, Cmdb.Extends, Table.Valid, Table.Extends, Created;
    var port, addr := ParseInt32(f.peer.port), inet(f.peer.addr);
    hide ParseInt32;
    var r1 := InsertActiveNode(db, process);
    ActiveNodeCreated(db, process);
    hide InsertActiveNode;
    InsertActiveNodeKeeps(db, process);
    var r2 := PeerPassive(r1.db, addr, port, now, pick);
    PeerPassiveKeeps(r1.db, addr, port, now, pick);
    PeerPassiveCreates(r1.db, addr, port, now, pick);
    InsertFlowKeeps(r2.db, r1.id, r2.id, f.connections, now);
    EndsCreated(db, r2.db, InsertFlow(r2.db, r1.id, r2.id, f.connections, now).db,
      InsertFlow(r2.db, r1.id, r2.id, f.connections, now).id, r1.id, r2.id, process);
  }

  /** A flow creates nothing but the ends of the row it writes, and their processes. */
  lemma StepCreates(inet: InetParser, db: Cmdb, f: FlowRecord, now: int, pick: Pick)
    requires db.Valid() && Step(inet, db, f, now, pick).Done? && !Loopback(f) && !f.direction.FlowUnknown?
    ensures var r := Step(inet, db, f, now, pick);
      exists local :: local in r.db.processes.rows && r.db.processes.rows[local].key == LocalKey(inet, f) && Created(db, r.db, r.id, local)
  {
    InsertProcessKeeps(db, inet(f.local.addr), Pgid(f), Pname(f), now);
    StepKeeps(inet, db, f, now, pick);
    var r, r1 := Step(inet, db, f, now, pick), InsertProcess(db, inet(f.local.addr), Pgid(f), Pname(f), now);
    hide InsertProcess, StepPassive, StepActive;
    if f.direction.FlowPassive? {
      PassiveCreates(inet, r1.db, r1.id, f, now, pick);
      StepPassiveKeeps(inet, r1.db, r1.id, f, now, pick);
    } else {
      ActiveCreates(inet, r1.db, r1.id, f, now, pick);
      StepActiveKeeps(inet, r1.db, r1.id, f, now, pick);
    }
    assert r1.id in r.db.processes.rows && r.db.processes.rows[r1.id].key == LocalKey(inet, f);
    CreatedFromStart(db, r1.db, r.db, r.id, r1.id);
  }

  lemma CreatedFromStart(db: Cmdb, db1: Cmdb, db': Cmdb, id: nat, local: nat)
    requires Created(db1, db', id, local) && db1.active == db.active && db1.passive == db.passive
    requires forall i :: i in db1.processes.rows && i != local ==> i in db.processes.rows
    ensures Created(db, db', id, local)
  {
  }

  /* ----- The invariant ----- */

  lemma LinkedLater(db: Cmdb, db': Cmdb)
    requires db'.Extends(db)
    ensures forall a :: IsSource(db, a) ==> IsSource(db', a)
    ensures forall n :: IsDestination(db, n) ==> IsDestination(db', n)
    ensures forall p :: OwnsNode(db, p) ==> OwnsNode(db', p)
  {
    forall a | IsSource(db, a) ensures IsSource(db', a) {
      var f :| f in db.flows.rows && db.flows.rows[f].key.source == a;
      assert f in db'.flows.rows;
    }
    forall n | IsDestination(db, n) ensures IsDestination(db', n) {
      var f :| f in db.flows.rows && db.flows.rows[f].key.destination == n;
      assert f in db'.flows.rows;
    }
    forall p | OwnsNode(db, p) ensures OwnsNode(db', p) {
      if a :| a in db.active.rows && db.active.rows[a].key == p {
        assert a in db'.active.rows;
      } else {
        var n :| n in db.passive.rows && db.passive.rows[n].key.process == p;
        assert n in db'.passive.rows;
      }
    }
  }

  lemma EndsLinked(db': Cmdb, id: nat)
    requires id in db'.flows.rows
    requires var k := db'.flows.rows[id].key; k.source in db'.active.rows && k.destination in db'.passive.rows
    ensures var k := db'.flows.rows[id].key;
      && IsSource(db', k.source) && IsDestination(db', k.destination)
      && OwnsNode(db', db'.active.rows[k.source].key) && OwnsNode(db', db'.passive.rows[k.destination].key.process)
  {
  }

  lemma CreatedLinks(db: Cmdb, db': Cmdb, id: nat, local: nat, loose: set<ProcessKey>)
    requires db.Valid() && Next(db, db') && Linked(db, loose) && Created(db, db', id, local)
    ensures Linked(db', loose)
  {
    hide IsSource, IsDestination, OwnsNode, Cmdb.Valid, Table.Valid;
    EndsLinked(db', id);
    LinkedLater(db, db');
    SameProcessKeys(db, db');
    hide Cmdb.Extends;
  }

  lemma SameProcessKeys(db: Cmdb, db': Cmdb)
    requires db'.Extends(db)
    ensures forall p :: p in db.processes.rows && p in db'.processes.rows ==> db'.processes.rows[p].key == db.processes.rows[p].key
  {
  }

  /** A flow without a direction leaves a process and nothing else. */
  lemma UnknownLinks(inet: InetParser, db: Cmdb, f: FlowRecord, now: int, pick: Pick, loose: set<ProcessKey>)
    requires db.Valid() && Linked(db, loose) && Legal(inet, f) && !Loopback(f) && f.direction.FlowUnknown?
    requires LocalKey(inet, f) in loose
    ensures Linked(Step(inet, db, f, now, pick).db, loose)
  {
    InsertProcessKeeps(db, inet(f.local.addr), Pgid(f), Pname(f), now);
    var r := InsertProcess(db, inet(f.local.addr), Pgid(f), Pname(f), now);
    hide InsertProcess;
    LinkedLater(db, r.db);
    hide IsSource, IsDestination, OwnsNode, Cmdb.Valid;
    forall i | i in r.db.processes.rows && r.db.processes.rows[i].key !in loose ensures OwnsNode(r.db, i) {
      assert i in db.processes.rows && db.processes.rows[i].key == r.db.processes.rows[i].key;
    }
  }

  /** loose has the process of every flow without a direction. */
  ghost predicate LooseIn(inet: InetParser, f: FlowRecord, loose: set<ProcessKey>) {
    f.direction.FlowUnknown? && Legal(inet, f) && !Loopback(f) ==> LocalKey(inet, f) in loose
  }

  lemma StepLinked(inet: InetParser, db: Cmdb, f: FlowRecord, now: int, pick: Pick, loose: set<ProcessKey>)
    requires db.Valid() && Linked(db, loose) && Step(inet, db, f, now, pick).Done? && LooseIn(inet, f, loose)
    ensures Linked(Step(inet, db, f, now, pick).db, loose)
  {
    StepKeeps(inet, db, f, now, pick);
    if !Loopback(f) {
      hide Step, Linked, Created, Cmdb.Valid, Cmdb.Extends, LocalKey;
      if f.direction.FlowUnknown? {
        UnknownLinks(inet, db, f, now, pick, loose);
      } else {
        StepCreates(inet, db, f, now, pick);
        var r := Step(inet, db, f, now, pick);
        var local :| local in r.db.processes.rows && r.db.processes.rows[local].key == LocalKey(inet, f) && Created(db, r.db, r.id, local);
        CreatedLinks(db, r.db, r.id, local, loose);
      }
    }
  }

  ghost predicate AllLooseIn(inet: InetParser, rs: seq<Request>, loose: set<ProcessKey>) {
    forall i :: 0 <= i < |rs| ==> LooseIn(inet, rs[i].flow, loose)
  }

  lemma {:induction false} FoldLinked(inet: InetParser, db: Cmdb, rs: seq<Request>, now: int, loose: set<ProcessKey>)
    requires db.Valid() && Linked(db, loose) && Fold(inet, db, rs, now).Done? && AllLooseIn(inet, rs, loose)
    ensures Linked(Fold(inet, db, rs, now).db, loose)
  {
    if rs != [] {
      hide Step, Linked, LooseIn, Cmdb.Valid, Cmdb.Extends;
      var n := |rs| - 1;
      FoldLinked(inet, db, rs[..n], now, loose);
      FoldKeeps(inet, db, rs[..n], now);
      StepLinked(inet, Fold(inet, db, rs[..n], now).db, rs[n].flow, now, rs[n].pick, loose);
    }
  }

  lemma SameRowsLinked(db: Cmdb, db': Cmdb, loose: set<ProcessKey>)
    requires Linked(db, loose) && db'.SameRows(db)
    ensures Linked(db', loose)
  {
    forall a | a in db'.active.rows ensures IsSource(db', a) {
      var f :| f in db.flows.rows && db.flows.rows[f].key.source == a;
    }
    forall n | n in db'.passive.rows ensures IsDestination(db', n) {
      var f :| f in db.flows.rows && db.flows.rows[f].key.destination == n;
    }
    forall p | p in db'.processes.rows && db'.processes.rows[p].key !in loose ensures OwnsNode(db', p) {
      assert OwnsNode(db, p);
    }
  }

  /** In every state of every run, no node is without a flow, and no process is without a node
      but those that flows without a direction brought in. */
  lemma {:induction false} RunLinked(inet: InetParser, bs: seq<Batch>, loose: set<ProcessKey>)
    requires forall i :: 0 <= i < |bs| ==> AllLooseIn(inet, bs[i].requests, loose)
    ensures Linked(Run(inet, bs), loose)
  {
    if bs != [] {
      hide Linked, AllLooseIn, Fold, Cmdb.Valid, Cmdb.SameRows;
      var n := |bs| - 1;
      var db, b := Run(inet, bs[..n]), bs[n];
      RunLinked(inet, bs[..n], loose);
      RunValid(inet, bs[..n]);
      CommitsIffAllAccepted(inet, db, b);
      if Commits(inet, db, b) {
        FoldLinked(inet, db, b.requests, b.now, loose);
      } else {
        SameRowsLinked(db, Apply(inet, db, b), loose);
      }
    }
  }

  predicate Undirected(f: FlowRecord) {
    f.direction.FlowUnknown? && !Loopback(f)
  }

  /** The processes reported by flows without a direction. */
  ghost function LooseKeys(inet: InetParser, bs: seq<Batch>): set<ProcessKey> {
    set i, j | 0 <= i < |bs| && 0 <= j < |bs[i].requests| &&
               Undirected(bs[i].requests[j].flow) && Legal(inet, bs[i].requests[j].flow) ::
      LocalKey(inet, bs[i].requests[j].flow)
  }

  /** Some committed flow wrote a row with this end, and is about it. */
  ghost predicate SourceReported(inet: InetParser, db: Cmdb, h: seq<Write>, a: nat)
    requires db.Valid()
  {
    exists i :: 0 <= i < |h| && h[i].key.source == a && Witnessed(inet, db, h[i].flow, h[i].key)
  }

  ghost predicate DestinationReported(inet: InetParser, db: Cmdb, h: seq<Write>, n: nat)
    requires db.Valid()
  {
    exists i :: 0 <= i < |h| && h[i].key.destination == n && Witnessed(inet, db, h[i].flow, h[i].key)
  }

  lemma {:induction false} FirstIsWrite(h: seq<Write>, k: FlowKey) returns (i: nat)
    requires First(h, k).Some?
    ensures i < |h| && h[i].key == k
  {
    var n := |h| - 1;
    if First(h[..n], k).Some? {
      i := FirstIsWrite(h[..n], k);
    } else {
      i := n;
    }
  }

  lemma RowReported(inet: InetParser, db: Cmdb, h: seq<Write>, id: nat)
    requires Explains(inet, db, h) && id in db.flows.rows
    ensures SourceReported(inet, db, h, db.flows.rows[id].key.source)
    ensures DestinationReported(inet, db, h, db.flows.rows[id].key.destination)
  {
    var i := FirstIsWrite(h, db.flows.rows[id].key);
    assert Witnessed(inet, db, h[i].flow, h[i].key);
  }

  /** Nothing in the graph is made up: in every state of every run each node is an end of a row
      that some committed flow wrote and is about, and each process owns a node or was reported
      by a flow without a direction. */
  lemma {:induction false} GraphReported(inet: InetParser, bs: seq<Batch>)
    ensures Run(inet, bs).Valid()
    ensures forall a :: a in Run(inet, bs).active.rows ==> SourceReported(inet, Run(inet, bs), History(inet, bs), a)
    ensures forall n :: n in Run(inet, bs).passive.rows ==> DestinationReported(inet, Run(inet, bs), History(inet, bs), n)
    ensures forall p :: p in Run(inet, bs).processes.rows ==>
      OwnsNode(Run(inet, bs), p) || Run(inet, bs).processes.rows[p].key in LooseKeys(inet, bs)
  {
    var db, h := Run(inet, bs), History(inet, bs);
    RunExplained(inet, bs);
    RunLinked(inet, bs, LooseKeys(inet, bs));
    hide Run, History, Witnessed, Cmdb.Valid, LooseKeys, First, Last;
    forall a | a in db.active.rows ensures SourceReported(inet, db, h, a) {
      assert IsSource(db, a);
      var id :| id in db.flows.rows && db.flows.rows[id].key.source == a;
      RowReported(inet, db, h, id);
    }
    forall n | n in db.passive.rows ensures DestinationReported(inet, db, h, n) {
      assert IsDestination(db, n);
      var id :| id in db.flows.rows && db.flows.rows[id].key.destination == n;
      RowReported(inet, db, h, id);
    }
  }
}

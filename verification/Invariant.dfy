/** What every statement, flow, batch and run keeps: the schema's constraints, every row and
    every key. Also exactly which flows the schema accepts. */
module Invariant {
  import opened Options
  import opened Text
  import opened Inet
  import opened Probe
  import opened Tables
  import opened Store

  /** A successor state: the schema holds again and nothing was deleted or re-keyed. */
  ghost predicate Next(db: Cmdb, db': Cmdb) {
    db'.Valid() && db'.Extends(db)
  }

  lemma NextTransitive(x: Cmdb, y: Cmdb, z: Cmdb)
    requires Next(x, y) && Next(y, z)
    ensures Next(x, z)
  {
    ExtendsTransitive(x.processes, y.processes, z.processes);
    ExtendsTransitive(x.active, y.active, z.active);
    ExtendsTransitive(x.passive, y.passive, z.passive);
    ExtendsTransitive(x.flows, y.flows, z.flows);
  }

  lemma SelfNext(db: Cmdb)
    requires db.Valid()
    ensures Next(db, db)
  {
    hide Cmdb.Valid;
    SelfExtends(db.processes);
    SelfExtends(db.active);
    SelfExtends(db.passive);
    SelfExtends(db.flows);
  }

  lemma RowsStay(db: Cmdb, db': Cmdb)
    requires Next(db, db')
    ensures db.active.rows.Keys <= db'.active.rows.Keys && db.passive.rows.Keys <= db'.passive.rows.Keys
  {
  }

  /* ----- States that differ in counts and stamps only ----- */

  /** Same processes and nodes, under the same ids. */
  ghost predicate SameNodes(db: Cmdb, db': Cmdb) {
    && db'.processes.SameKeys(db.processes)
    && db'.active.SameKeys(db.active) && db'.passive.SameKeys(db.passive)
  }

  lemma SameNodesTransitive(x: Cmdb, y: Cmdb, z: Cmdb)
    requires SameNodes(x, y) && SameNodes(y, z)
    ensures SameNodes(x, z)
  {
  }

  lemma TalksToSame(db: Cmdb, db': Cmdb, a: nat, port: int)
    requires SameNodes(db, db') && db'.flows.SameKeys(db.flows)
    ensures TalksTo(db, a, port) ==> TalksTo(db', a, port)
  {
    if TalksTo(db, a, port) {
      var f :| && f in db.flows.rows && db.flows.rows[f].key.source == a
               && db.flows.rows[f].key.destination in db.passive.rows
               && db.passive.rows[db.flows.rows[f].key.destination].key.port == port;
      assert f in db'.flows.rows;
    }
  }

  /** The finds read keys only. */
  lemma SameNodesSameEligible(db: Cmdb, db': Cmdb, port: int, addr: Inet)
    requires db.Valid() && db'.Valid() && SameNodes(db, db') && db'.flows.SameKeys(db.flows)
    ensures EligibleActive(db, port, addr) == EligibleActive(db', port, addr)
    ensures EligiblePassive(db, addr, port) == EligiblePassive(db', addr, port)
  {
    forall a ensures TalksTo(db, a, port) <==> TalksTo(db', a, port) {
      TalksToSame(db, db', a, port);
      TalksToSame(db', db, a, port);
    }
  }

  /* ----- Statements ----- */

  lemma InsertProcessKeeps(db: Cmdb, ipv4: Option<Inet>, pgid: int, pname: string, now: int)
    requires db.Valid()
    ensures var r := InsertProcess(db, ipv4, pgid, pname, now);
      && Next(db, r.db) && r.db == db.(processes := r.db.processes)
      && (r.Done? <==> ipv4.Some? && LegalPgid(pgid) && Varchar(pname).Some?)
      && (r.Done? ==>
            && r.id in r.db.processes.rows
            && var k := ProcessKey(ipv4.value, pgid, Varchar(pname).value);
            && r.db.processes.rows[r.id] ==
                 Row(k, Stamps(if db.processes.Has(k) then db.processes.rows[db.processes.Id(k)].cols.created else now, now))
            && (forall i :: i in r.db.processes.rows && i != r.id ==> i in db.processes.rows && r.db.processes.rows[i] == db.processes.rows[i]))
  {
    if ipv4.Some? && LegalPgid(pgid) && Varchar(pname).Some? {
      var k := ProcessKey(ipv4.value, pgid, Varchar(pname).value);
      var merged := db.processes.ColsOr(k, Stamps(now, now)).(updated := now);
      UpsertKeepsValid(db.processes, k, Stamps(now, now), merged);
    }
  }

  lemma InsertActiveNodeKeeps(db: Cmdb, process: nat)
    requires db.Valid() && process in db.processes.rows
    ensures var r := InsertActiveNode(db, process);
      && Next(db, r.db) && r.db == db.(active := r.db.active)
      && r.Done? && r.id in r.db.active.rows && r.db.active.rows[r.id].key == process
  {
    UpsertKeepsValid(db.active, process, (), ());
  }

  lemma InsertPassiveNodeKeeps(db: Cmdb, process: nat, port: Option<int>)
    requires db.Valid() && process in db.processes.rows
    requires port.Some? ==> port.value <= INT32_MAX
    ensures var r := InsertPassiveNode(db, process, port);
      && Next(db, r.db) && r.db == db.(passive := r.db.passive)
      && (r.Done? <==> port.Some? && LegalPort(port.value))
      && (r.Done? ==>
            r.id in r.db.passive.rows && r.db.passive.rows[r.id].key == PassiveKey(process, port.value))
  {
    if port.Some? && LegalPort(port.value) {
      UpsertKeepsValid(db.passive, PassiveKey(process, port.value), (), ());
    }
  }

  lemma WriteFlowKeeps(t: Table<FlowKey, FlowCols>, k: FlowKey, connections: int, now: int)
    requires t.Valid()
    ensures var t', id := WriteFlow(t, k, connections, now), t.UpsertId(k);
      && t'.Valid() && t'.Extends(t) && t'.Has(k)
      && id in t'.rows && t'.rows[id].key == k
      && t'.rows[id].cols ==
           FlowCols(connections, if t.Has(k) then t.rows[t.Id(k)].cols.created else now, now)
      && (forall i :: i in t'.rows && i != id ==> i in t.rows && t'.rows[i] == t.rows[i])
  {
    var added := FlowCols(connections, now, now);
    UpsertKeepsValid(t, k, added, t.ColsOr(k, added).(connections := connections, updated := now));
  }

  lemma FlowsReplaced(db: Cmdb, t: Table<FlowKey, FlowCols>, id: nat)
    requires db.Valid() && t.Valid() && t.Extends(db.flows) && id in t.rows
    requires forall i :: i in t.rows && i != id ==> i in db.flows.rows && t.rows[i] == db.flows.rows[i]
    requires t.rows[id].key.source in db.active.rows && t.rows[id].key.destination in db.passive.rows
    requires LegalConnections(t.rows[id].cols.connections)
    ensures Next(db, db.(flows := t))
  {
    SelfExtends(db.processes);
    SelfExtends(db.active);
    SelfExtends(db.passive);
    hide Table.Valid, Table.Extends, LegalProcess, LegalPort;
  }

  lemma InsertFlowKeeps(db: Cmdb, source: nat, destination: nat, connections: int, now: int)
    requires db.Valid() && source in db.active.rows && destination in db.passive.rows
    ensures var r := InsertFlow(db, source, destination, connections, now);
      && Next(db, r.db) && r.db == db.(flows := r.db.flows)
      && (r.Done? <==> LegalConnections(connections))
      && (r.Done? ==>
            r.id in r.db.flows.rows && r.db.flows.rows[r.id].key == FlowKey(source, destination))
  {
    if LegalConnections(connections) {
      var k := FlowKey(source, destination);
      WriteFlowKeeps(db.flows, k, connections, now);
      FlowsReplaced(db, WriteFlow(db.flows, k, connections, now), db.flows.UpsertId(k));
    }
  }

  lemma PeerActiveKeeps(db: Cmdb, port: Option<int>, addr: Option<Inet>, now: int, pick: Pick)
    requires db.Valid()
    ensures var r := PeerActive(db, port, addr, now, pick);
      && Next(db, r.db)
      && (r.Done? <==> port.Some? && addr.Some?)
      && (r.Done? ==> r.id in r.db.active.rows && NodeOn(r.db, r.db.active.rows[r.id].key, addr.value))
  {
    SelfNext(db);
    hide Cmdb.Extends, Table.Valid;
    if port.Some? && addr.Some? && EligibleActive(db, port.value, addr.value) == {} {
      hide InsertProcess, InsertActiveNode, Cmdb.Valid, Cmdb.Extends, EligibleActive;
      InsertProcessKeeps(db, addr, 0, "", now);
      var r := InsertProcess(db, addr, 0, "", now);
      InsertActiveNodeKeeps(r.db, r.id);
      NextTransitive(db, r.db, InsertActiveNode(r.db, r.id).db);
    }
  }

  /** A port that no CHECK would accept is on no passive node, so it always reaches the INSERT. */
  lemma PeerPassiveKeeps(db: Cmdb, addr: Option<Inet>, port: Option<int>, now: int, pick: Pick)
    requires db.Valid()
    requires port.Some? ==> port.value <= INT32_MAX
    ensures var r := PeerPassive(db, addr, port, now, pick);
      && Next(db, r.db)
      && (r.Done? <==> port.Some? && LegalPort(port.value) && addr.Some?)
      && (r.Done? ==>
            && r.id in r.db.passive.rows && r.db.passive.rows[r.id].key.port == port.value
            && NodeOn(r.db, r.db.passive.rows[r.id].key.process, addr.value))
  {
    if port.Some? && addr.Some? && EligiblePassive(db, addr.value, port.value) == {} {
      hide InsertProcess, InsertPassiveNode, Cmdb.Valid, Cmdb.Extends;
      InsertProcessKeeps(db, addr, 0, "", now);
      var r := InsertProcess(db, addr, 0, "", now);
      InsertPassiveNodeKeeps(r.db, r.id, port);
      NextTransitive(db, r.db, InsertPassiveNode(r.db, r.id, port).db);
    }
  }

  /* ----- Flows ----- */

  /** What the schema asks of a flow, readable before any statement is sent. */
  ghost predicate Legal(inet: InetParser, f: FlowRecord) {
    && inet(f.local.addr).Some? && LegalPgid(Pgid(f)) && Varchar(Pname(f)).Some?
    && match f.direction
       case FlowUnknown => true
       case FlowActive =>
         && inet(f.peer.addr).Some? && LegalConnections(f.connections)
         && ParseInt32(f.peer.port).Some? && LegalPort(ParseInt32(f.peer.port).value)
       case FlowPassive =>
         && inet(f.peer.addr).Some? && LegalConnections(f.connections)
         && ParseInt32(f.local.port).Some? && LegalPort(ParseInt32(f.local.port).value)
  }

  ghost predicate Accepted(inet: InetParser, f: FlowRecord) {
    Loopback(f) || Legal(inet, f)
  }

  /** The process key of the host that reports f. */
  ghost function LocalKey(inet: InetParser, f: FlowRecord): ProcessKey
    requires Legal(inet, f)
  {
    ProcessKey(inet(f.local.addr).value, Pgid(f), Varchar(Pname(f)).value)
  }

  /** The flows row k joins the process that reported f to a node on f's peer. */
  ghost predicate Witnessed(inet: InetParser, db: Cmdb, f: FlowRecord, k: FlowKey)
    requires db.Valid()
  {
    && Legal(inet, f) && !f.direction.FlowUnknown? && !Loopback(f)
    && k.source in db.active.rows && k.destination in db.passive.rows && db.flows.Has(k)
    && if f.direction.FlowActive? then
         && db.ActiveProcess(k.source) == LocalKey(inet, f)
         && db.PassiveProcess(k.destination).ipv4 == inet(f.peer.addr).value
         && db.passive.rows[k.destination].key.port == ParseInt32(f.peer.port).value
       else
         && db.PassiveProcess(k.destination) == LocalKey(inet, f)
         && db.passive.rows[k.destination].key.port == ParseInt32(f.local.port).value
         && db.ActiveProcess(k.source).ipv4 == inet(f.peer.addr).value
  }

  lemma StepPassiveKeeps(inet: InetParser, db: Cmdb, process: nat, f: FlowRecord, now: int, pick: Pick)
    requires db.Valid() && process in db.processes.rows
    ensures var r, port := StepPassive(inet, db, process, f, now, pick), ParseInt32(f.local.port);
      && Next(db, r.db)
      && (r.Done? <==> port.Some? && LegalPort(port.value) && inet(f.peer.addr).Some? && LegalConnections(f.connections))
      && (r.Done? ==>
            && r.id in r.db.flows.rows
            && var k := r.db.flows.rows[r.id].key;
            && r.db.passive.rows[k.destination].key == PassiveKey(process, port.value)
            && NodeOn(r.db, r.db.active.rows[k.source].key, inet(f.peer.addr).value))
  {
    var port := ParseInt32(f.local.port);
    InsertPassiveNodeKeeps(db, process, port);
    var r1 := InsertPassiveNode(db, process, port);
    if r1.Done? {
      PeerActiveKeeps(r1.db, port, inet(f.peer.addr), now, pick);
      var r2 := PeerActive(r1.db, port, inet(f.peer.addr), now, pick);
      NextTransitive(db, r1.db, r2.db);
      if r2.Done? {
        InsertFlowKeeps(r2.db, r2.id, r1.id, f.connections, now);
        NextTransitive(db, r2.db, InsertFlow(r2.db, r2.id, r1.id, f.connections, now).db);
      }
    }
  }

  lemma StepActiveKeeps(inet: InetParser, db: Cmdb, process: nat, f: FlowRecord, now: int, pick: Pick)
    requires db.Valid() && process in db.processes.rows
    ensures var r, port := StepActive(inet, db, process, f, now, pick), ParseInt32(f.peer.port);
      && Next(db, r.db)
      && (r.Done? <==> port.Some? && LegalPort(port.value) && inet(f.peer.addr).Some? && LegalConnections(f.connections))
      && (r.Done? ==>
            && r.id in r.db.flows.rows
            && var k := r.db.flows.rows[r.id].key;
            && r.db.active.rows[k.source].key == process
            && r.db.passive.rows[k.destination].key.port == port.value
            && NodeOn(r.db, r.db.passive.rows[k.destination].key.process, inet(f.peer.addr).value))
  {
    var port := ParseInt32(f.peer.port);
    InsertActiveNodeKeeps(db, process);
    var r1 := InsertActiveNode(db, process);
    PeerPassiveKeeps(r1.db, inet(f.peer.addr), port, now, pick);
    var r2 := PeerPassive(r1.db, inet(f.peer.addr), port, now, pick);
    NextTransitive(db, r1.db, r2.db);
    if r2.Done? {
      InsertFlowKeeps(r2.db, r1.id, r2.id, f.connections, now);
      NextTransitive(db, r2.db, InsertFlow(r2.db, r1.id, r2.id, f.connections, now).db);
    }
  }

  /** One flow keeps the schema, is refused exactly when it is not legal, and otherwise leaves a
      flows row that it explains. */
  lemma StepKeeps(inet: InetParser, db: Cmdb, f: FlowRecord, now: int, pick: Pick)
    requires db.Valid()
    ensures var r := Step(inet, db, f, now, pick);
      && Next(db, r.db)
      && (r.Done? <==> Accepted(inet, f))
      && (r.Done? && !Loopback(f) && !f.direction.FlowUnknown? ==>
            r.id in r.db.flows.rows && Witnessed(inet, r.db, f, r.db.flows.rows[r.id].key))
  {
    if !Loopback(f) {
      InsertProcessKeeps(db, inet(f.local.addr), Pgid(f), Pname(f), now);
      var r1 := InsertProcess(db, inet(f.local.addr), Pgid(f), Pname(f), now);
      if r1.Done? {
        match f.direction
        case FlowPassive =>
          StepPassiveKeeps(inet, r1.db, r1.id, f, now, pick);
          NextTransitive(db, r1.db, StepPassive(inet, r1.db, r1.id, f, now, pick).db);
        case FlowActive =>
          StepActiveKeeps(inet, r1.db, r1.id, f, now, pick);
          NextTransitive(db, r1.db, StepActive(inet, r1.db, r1.id, f, now, pick).db);
        case FlowUnknown =>
      }
    }
  }

  /* ----- Batches and runs ----- */

  ghost predicate AllAccepted(inet: InetParser, rs: seq<Request>) {
    forall i :: 0 <= i < |rs| ==> Accepted(inet, rs[i].flow)
  }

  lemma AllAcceptedLast(inet: InetParser, rs: seq<Request>)
    requires rs != []
    ensures AllAccepted(inet, rs) <==> AllAccepted(inet, rs[..|rs| - 1]) && Accepted(inet, rs[|rs| - 1].flow)
  {
    hide Accepted;
    assert forall i :: 0 <= i < |rs| - 1 ==> rs[..|rs| - 1][i] == rs[i];
  }

  lemma {:induction false} FoldKeeps(inet: InetParser, db: Cmdb, rs: seq<Request>, now: int)
    requires db.Valid()
    ensures Next(db, Fold(inet, db, rs, now).db)
    ensures Fold(inet, db, rs, now).Done? <==> AllAccepted(inet, rs)
  {
    if rs != [] {
      var n := |rs| - 1;
      FoldKeeps(inet, db, rs[..n], now);
      AllAcceptedLast(inet, rs);
      hide Step, Cmdb.Valid, Cmdb.Extends, Accepted, AllAccepted;
      var r := Fold(inet, db, rs[..n], now);
      if r.Done? {
        StepKeeps(inet, r.db, rs[n].flow, now, rs[n].pick);
        NextTransitive(db, r.db, Step(inet, r.db, rs[n].flow, now, rs[n].pick).db);
      }
    }
  }

  lemma RollbackKeeps(db: Cmdb, later: Cmdb)
    requires db.Valid() && later.Extends(db)
    ensures Next(db, later.RolledBack(db)) && later.RolledBack(db).SameRows(db)
  {
    RolledBackExtends(db.processes, later.processes);
    RolledBackExtends(db.active, later.active);
    RolledBackExtends(db.passive, later.passive);
    RolledBackExtends(db.flows, later.flows);
    hide Table.Valid, Table.Extends, LegalProcess, LegalPort, LegalConnections;
  }

  /** A batch commits exactly when the schema accepts each of its flows, whatever the tables
      hold; otherwise it changes no row. */
  lemma CommitsIffAllAccepted(inet: InetParser, db: Cmdb, b: Batch)
    requires db.Valid()
    ensures Next(db, Apply(inet, db, b))
    ensures Commits(inet, db, b) <==> AllAccepted(inet, b.requests)
    ensures !Commits(inet, db, b) ==> Apply(inet, db, b).SameRows(db)
  {
    FoldKeeps(inet, db, b.requests, b.now);
    RollbackKeeps(db, Fold(inet, db, b.requests, b.now).db);
  }

  /** Every state of every run satisfies the whole schema. */
  lemma {:induction false} RunValid(inet: InetParser, bs: seq<Batch>)
    ensures Run(inet, bs).Valid()
  {
    if bs != [] {
      RunValid(inet, bs[..|bs| - 1]);
      CommitsIffAllAccepted(inet, Run(inet, bs[..|bs| - 1]), bs[|bs| - 1]);
    }
  }

  /** Rows live for ever, under the id and the key they were created with. */
  lemma {:induction false} RunExtends(inet: InetParser, bs: seq<Batch>, more: seq<Batch>)
    ensures Next(Run(inet, bs), Run(inet, bs + more))
  {
    if more == [] {
      assert bs + more == bs;
      RunValid(inet, bs);
    } else {
      var n := |more| - 1;
      RunExtends(inet, bs, more[..n]);
      assert (bs + more)[..|bs| + n] == bs + more[..n];
      CommitsIffAllAccepted(inet, Run(inet, bs + more[..n]), more[n]);
      NextTransitive(Run(inet, bs), Run(inet, bs + more[..n]), Run(inet, bs + more));
    }
  }

  /* ----- Loopback flows leave no trace ----- */

  function Remote(rs: seq<Request>): seq<Request> {
    if rs == [] then []
    else
      var n := |rs| - 1;
      if Loopback(rs[n].flow) then Remote(rs[..n]) else Remote(rs[..n]) + [rs[n]]
  }

  lemma FoldNext(inet: InetParser, db: Cmdb, rs: seq<Request>, q: Request, now: int)
    ensures var r, r' := Fold(inet, db, rs, now), Fold(inet, db, rs + [q], now);
      r' == if r.Failed? then r else Step(inet, r.db, q.flow, now, q.pick)
  {
    hide Step;
    assert (rs + [q])[..|rs|] == rs;
  }

  lemma RemoteNext(rs: seq<Request>, q: Request)
    ensures Remote(rs + [q]) == if Loopback(q.flow) then Remote(rs) else Remote(rs) + [q]
  {
    hide Loopback;
    assert (rs + [q])[..|rs|] == rs;
  }

  lemma NothingRemote()
    ensures Remote([]) == []
  {
  }

  lemma LoopbackStep(inet: InetParser, db: Cmdb, q: Request, now: int)
    requires Loopback(q.flow)
    ensures Step(inet, db, q.flow, now, q.pick) == Done(db, 0)
  {
  }

  lemma {:induction false} FoldSkipsLoopback(inet: InetParser, db: Cmdb, rs: seq<Request>, now: int)
    ensures var r, r' := Fold(inet, db, rs, now), Fold(inet, db, Remote(rs), now);
      r.db == r'.db && r.Done? == r'.Done?
  {
    hide *;
    if rs == [] {
      NothingRemote();
    } else {
      var n := |rs| - 1;
      FoldSkipsLoopback(inet, db, rs[..n], now);
      FoldNext(inet, db, rs[..n], rs[n], now);
      RemoteNext(rs[..n], rs[n]);
      assert rs == rs[..n] + [rs[n]];
      if Loopback(rs[n].flow) {
        LoopbackStep(inet, Fold(inet, db, rs[..n], now).db, rs[n], now);
      } else {
        FoldNext(inet, db, Remote(rs[..n]), rs[n], now);
      }
    }
  }
}

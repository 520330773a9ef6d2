/** Where a run is cut into batches does not matter: transactions are atomic, and timestamps
    are all that tells one large batch from several small ones. */
module Boundary {
  import opened Options
  import opened Inet
  import opened Text
  import opened Probe
  import opened Tables
  import opened Store
  import opened Invariant

  ghost predicate Twin<K, V>(s: Table<K, V>, t: Table<K, V>) {
    t.SameKeys(s) && s.next == t.next
  }

  ghost predicate SameCounts(s: Table<FlowKey, FlowCols>, t: Table<FlowKey, FlowCols>) {
    Twin(s, t) && forall id :: id in s.rows ==> s.rows[id].cols.connections == t.rows[id].cols.connections
  }

  /** Equal tables and sequences, up to the created and updated columns. */
  ghost predicate InStep(x: Cmdb, y: Cmdb) {
    && Twin(x.processes, y.processes) && Twin(x.active, y.active)
    && Twin(x.passive, y.passive) && SameCounts(x.flows, y.flows)
  }

  ghost predicate InStepExec(r: Exec, s: Exec) {
    && InStep(r.db, s.db)
    && match r
       case Done(_, id) => s == Done(s.db, id)
       case Failed(_, error) => s == Failed(s.db, error)
  }

  lemma TwinMembers<K, V>(s: Table<K, V>, t: Table<K, V>)
    requires Twin(s, t)
    ensures s.rows.Keys == t.rows.Keys && s.next == t.next
    ensures Twin(s.(next := s.next + 1), t.(next := t.next + 1))
  {
  }

  lemma TwinUpsert<K, V>(s: Table<K, V>, t: Table<K, V>, k: K, added: V, merged: V, added': V, merged': V)
    requires s.Valid() && t.Valid() && Twin(s, t)
    ensures s.UpsertId(k) == t.UpsertId(k)
    ensures Twin(s.Upsert(k, added, merged), t.Upsert(k, added', merged'))
  {
    UpsertSameKeys(s, t, k, added, merged, added', merged');
  }

  lemma InsertProcessInStep(x: Cmdb, y: Cmdb, ipv4: Option<Inet>, pgid: int, pname: string, now: int, now': int)
    requires x.Valid() && y.Valid() && InStep(x, y)
    ensures InStepExec(InsertProcess(x, ipv4, pgid, pname, now), InsertProcess(y, ipv4, pgid, pname, now'))
  {
    hide Table.Valid, Table.Upsert, Table.UpsertId, Table.ColsOr, SameCounts, Twin;
    TwinMembers(x.processes, y.processes);
    if ipv4.Some? && LegalPgid(pgid) && Varchar(pname).Some? {
      var k := ProcessKey(ipv4.value, pgid, Varchar(pname).value);
      TwinUpsert(x.processes, y.processes, k,
        Stamps(now, now), x.processes.ColsOr(k, Stamps(now, now)).(updated := now),
        Stamps(now', now'), y.processes.ColsOr(k, Stamps(now', now')).(updated := now'));
    }
  }

  lemma InsertActiveNodeInStep(x: Cmdb, y: Cmdb, process: nat)
    requires x.Valid() && y.Valid() && InStep(x, y)
    ensures InStepExec(InsertActiveNode(x, process), InsertActiveNode(y, process))
  {
    hide Table.Valid, Table.Upsert, Table.UpsertId, SameCounts, Twin;
    TwinMembers(x.processes, y.processes);
    TwinMembers(x.active, y.active);
    TwinUpsert(x.active, y.active, process, (), (), (), ());
  }

  lemma InsertPassiveNodeInStep(x: Cmdb, y: Cmdb, process: nat, port: Option<int>)
    requires x.Valid() && y.Valid() && InStep(x, y)
    ensures InStepExec(InsertPassiveNode(x, process, port), InsertPassiveNode(y, process, port))
  {
    hide Table.Valid, Table.Upsert, Table.UpsertId, SameCounts, Twin;
    TwinMembers(x.processes, y.processes);
    TwinMembers(x.passive, y.passive);
    if port.Some? {
      TwinUpsert(x.passive, y.passive, PassiveKey(process, port.value), (), (), (), ());
    }
  }

  lemma WriteFlowInStep(s: Table<FlowKey, FlowCols>, t: Table<FlowKey, FlowCols>, k: FlowKey, connections: int, now: int, now': int)
    requires s.Valid() && t.Valid() && SameCounts(s, t)
    ensures s.UpsertId(k) == t.UpsertId(k)
    ensures SameCounts(WriteFlow(s, k, connections, now), WriteFlow(t, k, connections, now'))
    ensures SameCounts(s.(next := s.next + 1), t.(next := t.next + 1))
  {
    var added, added' := FlowCols(connections, now, now), FlowCols(connections, now', now');
    TwinUpsert(s, t, k,
      added, s.ColsOr(k, added).(connections := connections, updated := now),
      added', t.ColsOr(k, added').(connections := connections, updated := now'));
    WriteFlowKeeps(s, k, connections, now);
    WriteFlowKeeps(t, k, connections, now');
  }

  lemma InsertFlowInStep(x: Cmdb, y: Cmdb, source: nat, destination: nat, connections: int, now: int, now': int)
    requires x.Valid() && y.Valid() && InStep(x, y)
    ensures InStepExec(InsertFlow(x, source, destination, connections, now), InsertFlow(y, source, destination, connections, now'))
  {
    hide Table.Valid, WriteFlow, Table.UpsertId, SameCounts, Twin;
    TwinMembers(x.active, y.active);
    TwinMembers(x.passive, y.passive);
    WriteFlowInStep(x.flows, y.flows, FlowKey(source, destination), connections, now, now');
  }

  lemma PeerActiveInStep(x: Cmdb, y: Cmdb, port: Option<int>, addr: Option<Inet>, now: int, now': int, pick: Pick)
    requires x.Valid() && y.Valid() && InStep(x, y)
    ensures InStepExec(PeerActive(x, port, addr, now, pick), PeerActive(y, port, addr, now', pick))
  {
    if port.Some? && addr.Some? {
      SameNodesSameEligible(x, y, port.value, addr.value);
      hide InsertProcess, InsertActiveNode, EligibleActive, InStep, Cmdb.Valid, Cmdb.Extends;
      InsertProcessInStep(x, y, addr, 0, "", now, now');
      InsertProcessKeeps(x, addr, 0, "", now);
      InsertProcessKeeps(y, addr, 0, "", now');
      var r, s := InsertProcess(x, addr, 0, "", now), InsertProcess(y, addr, 0, "", now');
      if r.Done? {
        InsertActiveNodeInStep(r.db, s.db, r.id);
      }
    }
  }

  lemma PeerPassiveInStep(x: Cmdb, y: Cmdb, addr: Option<Inet>, port: Option<int>, now: int, now': int, pick: Pick)
    requires x.Valid() && y.Valid() && InStep(x, y)
    ensures InStepExec(PeerPassive(x, addr, port, now, pick), PeerPassive(y, addr, port, now', pick))
  {
    if port.Some? && addr.Some? {
      SameNodesSameEligible(x, y, port.value, addr.value);
      hide InsertProcess, InsertPassiveNode, EligiblePassive, InStep, Cmdb.Valid, Cmdb.Extends;
      InsertProcessInStep(x, y, addr, 0, "", now, now');
      InsertProcessKeeps(x, addr, 0, "", now);
      InsertProcessKeeps(y, addr, 0, "", now');
      var r, s := InsertProcess(x, addr, 0, "", now), InsertProcess(y, addr, 0, "", now');
      if r.Done? {
        InsertPassiveNodeInStep(r.db, s.db, r.id, port);
      }
    }
  }

  lemma StepPassiveInStep(inet: InetParser, x: Cmdb, y: Cmdb, process: nat, f: FlowRecord, now: int, now': int, pick: Pick)
    requires x.Valid() && y.Valid() && InStep(x, y) && process in x.processes.rows && process in y.processes.rows
    ensures InStepExec(StepPassive(inet, x, process, f, now, pick), StepPassive(inet, y, process, f, now', pick))
  {
    hide InsertPassiveNode, PeerActive, InsertFlow, InStep, Cmdb.Valid, Cmdb.Extends;
    var port, addr := ParseInt32(f.local.port), inet(f.peer.addr);
    InsertPassiveNodeInStep(x, y, process, port);
    InsertPassiveNodeKeeps(x, process, port);
    InsertPassiveNodeKeeps(y, process, port);
    var r1, s1 := InsertPassiveNode(x, process, port), InsertPassiveNode(y, process, port);
    if r1.Done? {
      PeerActiveInStep(r1.db, s1.db, port, addr, now, now', pick);
      PeerActiveKeeps(r1.db, port, addr, now, pick);
      PeerActiveKeeps(s1.db, port, addr, now', pick);
      var r2, s2 := PeerActive(r1.db, port, addr, now, pick), PeerActive(s1.db, port, addr, now', pick);
      if r2.Done? {
        InsertFlowInStep(r2.db, s2.db, r2.id, r1.id, f.connections, now, now');
      }
    }
  }

  lemma StepActiveInStep(inet: InetParser, x: Cmdb, y: Cmdb, process: nat, f: FlowRecord, now: int, now': int, pick: Pick)
    requires x.Valid() && y.Valid() && InStep(x, y) && process in x.processes.rows && process in y.processes.rows
    ensures InStepExec(StepActive(inet, x, process, f, now, pick), StepActive(inet, y, process, f, now', pick))
  {
    hide InsertActiveNode, PeerPassive, InsertFlow, InStep, Cmdb.Valid, Cmdb.Extends;
    var port, addr := ParseInt32(f.peer.port), inet(f.peer.addr);
    InsertActiveNodeInStep(x, y, process);
    InsertActiveNodeKeeps(x, process);
    InsertActiveNodeKeeps(y, process);
    var r1, s1 := InsertActiveNode(x, process), InsertActiveNode(y, process);
    PeerPassiveInStep(r1.db, s1.db, addr, port, now, now', pick);
    PeerPassiveKeeps(r1.db, addr, port, now, pick);
    PeerPassiveKeeps(s1.db, addr, port, now', pick);
    var r2, s2 := PeerPassive(r1.db, addr, port, now, pick), PeerPassive(s1.db, addr, port, now', pick);
    if r2.Done? {
      InsertFlowInStep(r2.db, s2.db, r1.id, r2.id, f.connections, now, now');
    }
  }

  /** The same flow and the same pick do the same to two states in step, at any two times. */
  lemma StepInStep(inet: InetParser, x: Cmdb, y: Cmdb, q: Request, now: int, now': int)
    requires x.Valid() && y.Valid() && InStep(x, y)
    ensures InStepExec(Step(inet, x, q.flow, now, q.pick), Step(inet, y, q.flow, now', q.pick))
  {
    var f := q.flow;
    if !Loopback(f) {
      hide InsertProcess, StepPassive, StepActive, InStep, Cmdb.Valid, Cmdb.Extends;
      InsertProcessInStep(x, y, inet(f.local.addr), Pgid(f), Pname(f), now, now');
      InsertProcessKeeps(x, inet(f.local.addr), Pgid(f), Pname(f), now);
      InsertProcessKeeps(y, inet(f.local.addr), Pgid(f), Pname(f), now');
      var r := InsertProcess(x, inet(f.local.addr), Pgid(f), Pname(f), now);
      var s := InsertProcess(y, inet(f.local.addr), Pgid(f), Pname(f), now');
      if r.Done? {
        match f.direction
        case FlowUnknown =>
        case FlowPassive => StepPassiveInStep(inet, r.db, s.db, r.id, f, now, now', q.pick);
        case FlowActive => StepActiveInStep(inet, r.db, s.db, r.id, f, now, now', q.pick);
      }
    }
  }

  lemma {:induction false} FoldInStep(inet: InetParser, x: Cmdb, y: Cmdb, rs: seq<Request>, now: int, now': int)
    requires x.Valid() && y.Valid() && InStep(x, y)
    ensures InStepExec(Fold(inet, x, rs, now), Fold(inet, y, rs, now'))
  {
    if rs != [] {
      hide Step, InStep, Cmdb.Valid, Cmdb.Extends;
      var n := |rs| - 1;
      FoldInStep(inet, x, y, rs[..n], now, now');
      FoldKeeps(inet, x, rs[..n], now);
      FoldKeeps(inet, y, rs[..n], now');
      var r, s := Fold(inet, x, rs[..n], now), Fold(inet, y, rs[..n], now');
      if r.Done? {
        StepInStep(inet, r.db, s.db, rs[n], now, now');
      }
    }
  }

  lemma {:induction false} FoldAppend(inet: InetParser, db: Cmdb, a: seq<Request>, b: seq<Request>, now: int)
    ensures var r, whole := Fold(inet, db, a, now), Fold(inet, db, a + b, now);
      if r.Failed? then whole == r
      else whole.db == Fold(inet, r.db, b, now).db && whole.Done? == Fold(inet, r.db, b, now).Done?
  {
    hide Step;
    if b == [] {
      assert a + b == a;
    } else {
      var n := |b| - 1;
      assert (a + b)[..|a| + n] == a + b[..n];
      FoldAppend(inet, db, a, b[..n], now);
    }
  }

  /** Committing a and then b does what one batch of both does, and one commits exactly when
      the other does. */
  lemma TwoBatchesAsOne(inet: InetParser, db: Cmdb, a: Batch, b: Batch, now: int)
    requires db.Valid()
    ensures var whole := Batch(now, a.requests + b.requests);
      && (Commits(inet, db, whole) <==> Commits(inet, db, a) && Commits(inet, Apply(inet, db, a), b))
      && (Commits(inet, db, whole) ==> InStep(Apply(inet, Apply(inet, db, a), b), Apply(inet, db, whole)))
  {
    hide Step, Cmdb.Valid, Cmdb.Extends;
    var x, y := Fold(inet, db, a.requests, a.now), Fold(inet, db, a.requests, now);
    assert InStep(db, db);
    hide InStep;
    FoldInStep(inet, db, db, a.requests, a.now, now);
    FoldAppend(inet, db, a.requests, b.requests, now);
    FoldKeeps(inet, db, a.requests, a.now);
    FoldKeeps(inet, db, a.requests, now);
    if x.Done? {
      FoldInStep(inet, x.db, y.db, b.requests, b.now, now);
    }
  }

  function AllRequests(bs: seq<Batch>): seq<Request> {
    if bs == [] then [] else AllRequests(bs[..|bs| - 1]) + bs[|bs| - 1].requests
  }

  ghost predicate AllCommit(inet: InetParser, bs: seq<Batch>) {
    forall i :: 0 <= i < |bs| ==> Commits(inet, Run(inet, bs[..i]), bs[i])
  }

  lemma InStepTransitive(x: Cmdb, y: Cmdb, z: Cmdb)
    requires InStep(x, y) && InStep(y, z)
    ensures InStep(x, z)
  {
  }

  /** A run of successful batches is in step with one batch of all their flows. */
  lemma {:induction false} RunAsOneBatch(inet: InetParser, bs: seq<Batch>, now: int)
    requires AllCommit(inet, bs)
    ensures var whole := Batch(now, AllRequests(bs));
      Commits(inet, EmptyCmdb(), whole) && InStep(Run(inet, bs), Apply(inet, EmptyCmdb(), whole))
  {
    if bs != [] {
      var n := |bs| - 1;
      var front, last := Batch(now, AllRequests(bs[..n])), bs[n];
      assert forall i :: 0 <= i < n ==> bs[..n][..i] == bs[..i];
      RunAsOneBatch(inet, bs[..n], now);
      RunValid(inet, bs[..n]);
      RunValid(inet, []);
      hide Step, InStep, Cmdb.Valid;
      var x, y := Run(inet, bs[..n]), Apply(inet, EmptyCmdb(), front);
      CommitsIffAllAccepted(inet, EmptyCmdb(), front);
      FoldInStep(inet, x, y, last.requests, last.now, last.now);
      TwoBatchesAsOne(inet, EmptyCmdb(), front, last, now);
      InStepTransitive(Run(inet, bs), Apply(inet, y, last), Apply(inet, EmptyCmdb(), Batch(now, AllRequests(bs))));
    }
  }
}

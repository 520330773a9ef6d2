/** The time stamps of processes: a committed batch leaves its time on every process it reported,
    and never changes when a process was first seen. */
module Freshness {
  import opened Options
  import opened Text
  import opened Inet
  import opened Probe
  import opened Tables
  import opened Store
  import opened Invariant

  /** Between db and db', in a transaction at time now, each process row either stayed as it was,
      or was refreshed, or is new. */
  ghost predicate Touched(db: Cmdb, db': Cmdb, now: int) {
    && db'.Extends(db)
    && forall p :: p in db'.processes.rows ==>
         if p !in db.processes.rows then db'.processes.rows[p].cols == Stamps(now, now)
         else
           || db'.processes.rows[p] == db.processes.rows[p]
           || db'.processes.rows[p].cols == Stamps(db.processes.rows[p].cols.created, now)
  }

  lemma TouchedTransitive(x: Cmdb, y: Cmdb, z: Cmdb, now: int)
    requires Touched(x, y, now) && Touched(y, z, now)
    ensures Touched(x, z, now)
  {
    ExtendsTransitive(x.processes, y.processes, z.processes);
    ExtendsTransitive(x.active, y.active, z.active);
    ExtendsTransitive(x.passive, y.passive, z.passive);
    ExtendsTransitive(x.flows, y.flows, z.flows);
    hide Table.Extends;
    forall p | p in z.processes.rows
      ensures if p !in x.processes.rows then z.processes.rows[p].cols == Stamps(now, now)
              else
                || z.processes.rows[p] == x.processes.rows[p]
                || z.processes.rows[p].cols == Stamps(x.processes.rows[p].cols.created, now)
    {
      if p !in y.processes.rows {
        NotBefore(x, y, p);
      }
    }
  }

  lemma NotBefore(db: Cmdb, db': Cmdb, p: nat)
    requires db'.Extends(db) && p !in db'.processes.rows
    ensures p !in db.processes.rows
  {
  }

  lemma SameProcessesTouched(db: Cmdb, db': Cmdb, now: int)
    requires db'.Extends(db) && db'.processes == db.processes
    ensures Touched(db, db', now)
  {
  }

  ghost predicate Fresh(db: Cmdb, k: ProcessKey, now: int) {
    exists p :: p in db.processes.rows && db.processes.rows[p].key == k && db.processes.rows[p].cols.updated == now
  }

  lemma FreshLater(db: Cmdb, db': Cmdb, k: ProcessKey, now: int)
    requires Touched(db, db', now) && Fresh(db, k, now)
    ensures Fresh(db', k, now)
  {
    var p :| p in db.processes.rows && db.processes.rows[p].key == k && db.processes.rows[p].cols.updated == now;
    assert p in db'.processes.rows && db'.processes.rows[p].key == k;
  }

  lemma ProcessTouched(db: Cmdb, ipv4: Option<Inet>, pgid: int, pname: string, now: int)
    requires db.Valid()
    ensures var r := InsertProcess(db, ipv4, pgid, pname, now);
      && Touched(db, r.db, now)
      && (r.Done? ==> ipv4.Some? && Varchar(pname).Some? && Fresh(r.db, ProcessKey(ipv4.value, pgid, Varchar(pname).value), now))
  {
    InsertProcessKeeps(db, ipv4, pgid, pname, now);
    var r := InsertProcess(db, ipv4, pgid, pname, now);
    if r.Done? {
      var k := ProcessKey(ipv4.value, pgid, Varchar(pname).value);
      UpsertKeepsValid(db.processes, k, Stamps(now, now), db.processes.ColsOr(k, Stamps(now, now)).(updated := now));
      assert r.db.processes.rows[r.id].key == k;
    } else {
      assert r.db.processes.rows == db.processes.rows;
    }
  }

  lemma PeerActiveTouched(db: Cmdb, port: Option<int>, addr: Option<Inet>, now: int, pick: Pick)
    requires db.Valid()
    ensures Touched(db, PeerActive(db, port, addr, now, pick).db, now)
  {
    PeerActiveKeeps(db, port, addr, now, pick);
    ProcessTouched(db, addr, 0, "", now);
    InsertProcessKeeps(db, addr, 0, "", now);
    var r := InsertProcess(db, addr, 0, "", now);
    hide InsertProcess, EligibleActive, Cmdb.Valid, Cmdb.Extends;
    SelfNext(db);
    SameProcessesTouched(db, db, now);
    if r.Done? {
      InsertActiveNodeKeeps(r.db, r.id);
      SameProcessesTouched(r.db, InsertActiveNode(r.db, r.id).db, now);
      TouchedTransitive(db, r.db, InsertActiveNode(r.db, r.id).db, now);
    }
  }

  lemma PeerPassiveTouched(db: Cmdb, addr: Option<Inet>, port: Option<int>, now: int, pick: Pick)
    requires db.Valid() && (port.Some? ==> port.value <= INT32_MAX)
    ensures Touched(db, PeerPassive(db, addr, port, now, pick).db, now)
  {
    PeerPassiveKeeps(db, addr, port, now, pick);
    ProcessTouched(db, addr, 0, "", now);
    InsertProcessKeeps(db, addr, 0, "", now);
    var r := InsertProcess(db, addr, 0, "", now);
    hide InsertProcess, EligiblePassive, Cmdb.Valid, Cmdb.Extends;
    SelfNext(db);
    SameProcessesTouched(db, db, now);
    if r.Done? {
      InsertPassiveNodeKeeps(r.db, r.id, port);
      SameProcessesTouched(r.db, InsertPassiveNode(r.db, r.id, port).db, now);
      TouchedTransitive(db, r.db, InsertPassiveNode(r.db, r.id, port).db, now);
    }
  }

  lemma StepPassiveTouched(inet: InetParser, db: Cmdb, process: nat, f: FlowRecord, now: int, pick: Pick)
    requires db.Valid() && process in db.processes.rows && StepPassive(inet, db, process, f, now, pick).Done?
    ensures Touched(db, StepPassive(inet, db, process, f, now, pick).db, now)
  {
    hide InsertPassiveNode, PeerActive, InsertFlow, Cmdb.Valid, Cmdb.Extends, Touched, ParseInt32;
    var port, addr := ParseInt32(f.local.port), inet(f.peer.addr);
    var r1 := InsertPassiveNode(db, process, port);
    InsertPassiveNodeKeeps(db, process, port);
    SameProcessesTouched(db, r1.db, now);
    var r2 := PeerActive(r1.db, port, addr, now, pick);
    PeerActiveKeeps(r1.db, port, addr, now, pick);
    PeerActiveTouched(r1.db, port, addr, now, pick);
    TouchedTransitive(db, r1.db, r2.db, now);
    var r3 := InsertFlow(r2.db, r2.id, r1.id, f.connections, now);
    RowsStay(r1.db, r2.db);
    InsertFlowKeeps(r2.db, r2.id, r1.id, f.connections, now);
    SameProcessesTouched(r2.db, r3.db, now);
    TouchedTransitive(db, r2.db, r3.db, now);
  }

  lemma StepActiveTouched(inet: InetParser, db: Cmdb, process: nat, f: FlowRecord, now: int, pick: Pick)
    requires db.Valid() && process in db.processes.rows && StepActive(inet, db, process, f, now, pick).Done?
    ensures Touched(db, StepActive(inet, db, process, f, now, pick).db, now)
  {
    var port, addr := ParseInt32(f.peer.port), inet(f.peer.addr);
    hide InsertActiveNode, PeerPassive, InsertFlow, Cmdb.Valid, Cmdb.Extends, Touched, ParseInt32;
    var r1 := InsertActiveNode(db, process);
    InsertActiveNodeKeeps(db, process);
    SameProcessesTouched(db, r1.db, now);
    var r2 := PeerPassive(r1.db, addr, port, now, pick);
    PeerPassiveKeeps(r1.db, addr, port, now, pick);
    PeerPassiveTouched(r1.db, addr, port, now, pick);
    TouchedTransitive(db, r1.db, r2.db, now);
    var r3 := InsertFlow(r2.db, r1.id, r2.id, f.connections, now);
    RowsStay(r1.db, r2.db);
    InsertFlowKeeps(r2.db, r1.id, r2.id, f.connections, now);
    SameProcessesTouched(r2.db, r3.db, now);
    TouchedTransitive(db, r2.db, r3.db, now);
  }

  lemma StepTouched(inet: InetParser, db: Cmdb, f: FlowRecord, now: int, pick: Pick)
    requires db.Valid() && Step(inet, db, f, now, pick).Done?
    ensures var db' := Step(inet, db, f, now, pick).db;
      && Touched(db, db', now)
      && (!Loopback(f) ==> Legal(inet, f) && Fresh(db', LocalKey(inet, f), now))
  {
    StepKeeps(inet, db, f, now, pick);
    if Loopback(f) {
      SameProcessesTouched(db, db, now);
    } else {
      InsertProcessKeeps(db, inet(f.local.addr), Pgid(f), Pname(f), now);
      ProcessTouched(db, inet(f.local.addr), Pgid(f), Pname(f), now);
      var r, r1 := Step(inet, db, f, now, pick), InsertProcess(db, inet(f.local.addr), Pgid(f), Pname(f), now);
      hide InsertProcess, StepPassive, StepActive, Touched, Fresh, Cmdb.Valid, Cmdb.Extends;
      match f.direction
      case FlowUnknown =>
      case FlowPassive =>
        StepPassiveTouched(inet, r1.db, r1.id, f, now, pick);
        TouchedTransitive(db, r1.db, r.db, now);
        FreshLater(r1.db, r.db, LocalKey(inet, f), now);
      case FlowActive =>
        StepActiveTouched(inet, r1.db, r1.id, f, now, pick);
        TouchedTransitive(db, r1.db, r.db, now);
        FreshLater(r1.db, r.db, LocalKey(inet, f), now);
    }
  }

  lemma {:induction false} FoldTouched(inet: InetParser, db: Cmdb, rs: seq<Request>, now: int)
    requires db.Valid() && Fold(inet, db, rs, now).Done?
    ensures Touched(db, Fold(inet, db, rs, now).db, now)
  {
    hide Step, Touched, Legal, Loopback, Cmdb.Valid, Cmdb.Extends;
    if rs == [] {
      SelfNext(db);
      SameProcessesTouched(db, db, now);
    } else {
      var n := |rs| - 1;
      FoldTouched(inet, db, rs[..n], now);
      FoldKeeps(inet, db, rs[..n], now);
      var before := Fold(inet, db, rs[..n], now).db;
      StepTouched(inet, before, rs[n].flow, now, rs[n].pick);
      TouchedTransitive(db, before, Fold(inet, db, rs, now).db, now);
    }
  }

  lemma {:induction false} FoldFresh(inet: InetParser, db: Cmdb, rs: seq<Request>, now: int, i: nat)
    requires db.Valid() && Fold(inet, db, rs, now).Done? && i < |rs| && !Loopback(rs[i].flow)
    ensures Legal(inet, rs[i].flow) && Fresh(Fold(inet, db, rs, now).db, LocalKey(inet, rs[i].flow), now)
  {
    hide Step, Touched, Fresh, Legal, LocalKey, Loopback, Cmdb.Valid, Cmdb.Extends;
    var n := |rs| - 1;
    FoldKeeps(inet, db, rs[..n], now);
    var before := Fold(inet, db, rs[..n], now).db;
    StepTouched(inet, before, rs[n].flow, now, rs[n].pick);
    if i < n {
      FoldFresh(inet, db, rs[..n], now, i);
      FreshLater(before, Fold(inet, db, rs, now).db, LocalKey(inet, rs[i].flow), now);
    }
  }

  /** A committed batch leaves its time on the process of every flow that is not a loopback flow.
      Every other process keeps its row or is refreshed too, and none changes its creation time. */
  lemma CommitRefreshes(inet: InetParser, db: Cmdb, b: Batch)
    requires db.Valid() && Commits(inet, db, b)
    ensures var db' := Apply(inet, db, b);
      && Touched(db, db', b.now)
      && forall i :: 0 <= i < |b.requests| && !Loopback(b.requests[i].flow) ==>
           Legal(inet, b.requests[i].flow) && Fresh(db', LocalKey(inet, b.requests[i].flow), b.now)
  {
    FoldTouched(inet, db, b.requests, b.now);
    forall i | 0 <= i < |b.requests| && !Loopback(b.requests[i].flow)
      ensures Legal(inet, b.requests[i].flow) && Fresh(Apply(inet, db, b), LocalKey(inet, b.requests[i].flow), b.now)
    {
      FoldFresh(inet, db, b.requests, b.now, i);
    }
  }
}

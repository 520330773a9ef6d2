/** Applying a flow twice in a row is applying it once: the rows it needs are found again, even
    though the finds are unordered, because it leaves the eligible set as it was or makes it the
    one row it has just created. */
module Idempotence {
  import opened Options
  import opened Inet
  import opened Text
  import opened Probe
  import opened Tables
  import opened Store
  import opened Invariant
  import opened Saturation
  import Provenance

  /** y is x with other `updated` stamps and sequences. */
  ghost predicate Refreshed(x: Cmdb, y: Cmdb) {
    && SameNodes(x, y) && y.flows.SameKeys(x.flows)
    && (forall p :: p in x.processes.rows ==> y.processes.rows[p].cols.created == x.processes.rows[p].cols.created)
    && (forall id :: id in x.flows.rows ==>
          && y.flows.rows[id].cols.connections == x.flows.rows[id].cols.connections
          && y.flows.rows[id].cols.created == x.flows.rows[id].cols.created)
  }

  lemma RefreshedTransitive(x: Cmdb, y: Cmdb, z: Cmdb)
    requires Refreshed(x, y) && Refreshed(y, z)
    ensures Refreshed(x, z)
  {
  }

  /* ----- The state just after a flow ----- */

  /** f is stored in row k, and the find for its peer returns k's peer node. */
  ghost predicate Settled(inet: InetParser, db: Cmdb, f: FlowRecord, pick: Pick, k: FlowKey) {
    && db.Valid() && Witnessed(inet, db, f, k)
    && db.flows.rows[db.flows.Id(k)].cols.connections == f.connections
    && if f.direction.FlowActive? then
         var s := EligiblePassive(db, inet(f.peer.addr).value, ParseInt32(f.peer.port).value);
         s != {} && pick(s) == k.destination
       else
         var s := EligibleActive(db, ParseInt32(f.local.port).value, inet(f.peer.addr).value);
         s != {} && pick(s) == k.source
  }

  /** A new flow makes its source eligible and no other node. */
  lemma EligibleAfterFlow(db: Cmdb, source: nat, destination: nat, connections: int, now: int, addr: Inet)
    requires db.Valid() && source in db.active.rows && destination in db.passive.rows
    requires NodeOn(db, db.active.rows[source].key, addr) && LegalConnections(connections)
    ensures var port := db.passive.rows[destination].key.port;
      EligibleActive(InsertFlow(db, source, destination, connections, now).db, port, addr)
        == EligibleActive(db, port, addr) + {source}
  {
    var port := db.passive.rows[destination].key.port;
    var db', id := InsertFlow(db, source, destination, connections, now).db, db.flows.UpsertId(FlowKey(source, destination));
    WriteFlowKeeps(db.flows, FlowKey(source, destination), connections, now);
    forall a ensures TalksTo(db', a, port) <==> TalksTo(db, a, port) || a == source {
      if TalksTo(db, a, port) {
        var f :| && f in db.flows.rows && db.flows.rows[f].key.source == a
                 && db.flows.rows[f].key.destination in db.passive.rows
                 && db.passive.rows[db.flows.rows[f].key.destination].key.port == port;
        assert f in db'.flows.rows && db'.flows.rows[f].key == db.flows.rows[f].key;
      }
      assert db'.flows.rows[id].key == FlowKey(source, destination);
    }
  }

  lemma PeerActiveEligible(db: Cmdb, port: Option<int>, addr: Option<Inet>, now: int, pick: Pick)
    requires db.Valid() && PeerActive(db, port, addr, now, pick).Done?
    ensures var r, s := PeerActive(db, port, addr, now, pick), EligibleActive(db, port.value, addr.value);
      && EligibleActive(r.db, port.value, addr.value) == s
      && (s != {} ==> r.id == pick(s))
  {
    var r := PeerActive(db, port, addr, now, pick);
    PeerActiveKeeps(db, port, addr, now, pick);
    if EligibleActive(db, port.value, addr.value) == {} {
      assert r.db.flows == db.flows && r.db.passive == db.passive;
      forall a | a in EligibleActive(r.db, port.value, addr.value) ensures a in EligibleActive(db, port.value, addr.value) {
        assert TalksTo(db, a, port.value);
      }
    }
  }

  lemma PassiveSettles(inet: InetParser, db: Cmdb, process: nat, f: FlowRecord, now: int, pick: Pick)
    requires db.Valid() && process in db.processes.rows && StepPassive(inet, db, process, f, now, pick).Done?
    ensures var r := StepPassive(inet, db, process, f, now, pick);
      && ParseInt32(f.local.port).Some? && inet(f.peer.addr).Some? && r.id in r.db.flows.rows
      && var s := EligibleActive(r.db, ParseInt32(f.local.port).value, inet(f.peer.addr).value);
      s != {} && pick(s) == r.db.flows.rows[r.id].key.source
  {
    hide InsertPassiveNode, PeerActive, EligibleActive, Cmdb.Valid, Cmdb.Extends;
    var port, addr := ParseInt32(f.local.port), inet(f.peer.addr);
    StepPassiveKeeps(inet, db, process, f, now, pick);
    var r1 := InsertPassiveNode(db, process, port);
    InsertPassiveNodeKeeps(db, process, port);
    var r2 := PeerActive(r1.db, port, addr, now, pick);
    PeerActiveKeeps(r1.db, port, addr, now, pick);
    PeerActiveEligible(r1.db, port, addr, now, pick);
    InsertFlowKeeps(r2.db, r2.id, r1.id, f.connections, now);
    EligibleAfterFlow(r2.db, r2.id, r1.id, f.connections, now, addr.value);
    var s := EligibleActive(r1.db, port.value, addr.value);
    assert s != {} ==> s + {r2.id} == s;
  }

  lemma PeerPassiveEligible(db: Cmdb, addr: Option<Inet>, port: Option<int>, now: int, pick: Pick)
    requires db.Valid() && PeerPassive(db, addr, port, now, pick).Done?
    requires port.Some? ==> port.value <= INT32_MAX
    ensures var r := PeerPassive(db, addr, port, now, pick);
      var s := EligiblePassive(r.db, addr.value, port.value);
      s != {} && pick(s) == r.id
  {
    var r := PeerPassive(db, addr, port, now, pick);
    PeerPassiveKeeps(db, addr, port, now, pick);
    var s, s' := EligiblePassive(db, addr.value, port.value), EligiblePassive(r.db, addr.value, port.value);
    if s == {} {
      OnlyNewPassive(db, addr, port.value, now);
      assert s' == {r.id};
    }
  }

  lemma OnlyNewPassive(db: Cmdb, addr: Option<Inet>, port: int, now: int)
    requires db.Valid() && addr.Some? && LegalPort(port) && EligiblePassive(db, addr.value, port) == {}
    ensures var r1 := InsertProcess(db, addr, 0, "", now);
      var r2 := InsertPassiveNode(r1.db, r1.id, Some(port));
      forall n :: n in EligiblePassive(r2.db, addr.value, port) ==> n == r2.id
  {
    var r1 := InsertProcess(db, addr, 0, "", now);
    InsertProcessKeeps(db, addr, 0, "", now);
    var r2 := InsertPassiveNode(r1.db, r1.id, Some(port));
    UpsertKeepsValid(r1.db.passive, PassiveKey(r1.id, port), (), ());
    forall n | n in EligiblePassive(r2.db, addr.value, port) && n != r2.id
      ensures n in EligiblePassive(db, addr.value, port)
    {
    }
  }

  lemma ActiveSettles(inet: InetParser, db: Cmdb, process: nat, f: FlowRecord, now: int, pick: Pick)
    requires db.Valid() && process in db.processes.rows && StepActive(inet, db, process, f, now, pick).Done?
    ensures var r := StepActive(inet, db, process, f, now, pick);
      && ParseInt32(f.peer.port).Some? && inet(f.peer.addr).Some? && r.id in r.db.flows.rows
      && var s := EligiblePassive(r.db, inet(f.peer.addr).value, ParseInt32(f.peer.port).value);
      s != {} && pick(s) == r.db.flows.rows[r.id].key.destination
  {
    hide InsertActiveNode, PeerPassive, Cmdb.Valid, Cmdb.Extends;
    var port, addr := ParseInt32(f.peer.port), inet(f.peer.addr);
    StepActiveKeeps(inet, db, process, f, now, pick);
    var r1 := InsertActiveNode(db, process);
    InsertActiveNodeKeeps(db, process);
    var r2 := PeerPassive(r1.db, addr, port, now, pick);
    PeerPassiveKeeps(r1.db, addr, port, now, pick);
    PeerPassiveEligible(r1.db, addr, port, now, pick);
    InsertFlowKeeps(r2.db, r1.id, r2.id, f.connections, now);
    var r := InsertFlow(r2.db, r1.id, r2.id, f.connections, now);
    assert EligiblePassive(r.db, addr.value, port.value) == EligiblePassive(r2.db, addr.value, port.value);
  }

  lemma StepSettles(inet: InetParser, db: Cmdb, f: FlowRecord, now: int, pick: Pick)
    requires db.Valid() && Legal(inet, f) && !Loopback(f) && !f.direction.FlowUnknown?
    ensures var r := Step(inet, db, f, now, pick);
      r.Done? && r.id in r.db.flows.rows && Settled(inet, r.db, f, pick, r.db.flows.rows[r.id].key)
  {
    StepKeeps(inet, db, f, now, pick);
    Provenance.StepFlows(inet, db, f, now, pick);
    InsertProcessKeeps(db, inet(f.local.addr), Pgid(f), Pname(f), now);
    var r, r1 := Step(inet, db, f, now, pick), InsertProcess(db, inet(f.local.addr), Pgid(f), Pname(f), now);
    hide InsertProcess, StepPassive, StepActive, WriteFlow, EligibleActive, EligiblePassive;
    if f.direction.FlowPassive? {
      PassiveSettles(inet, r1.db, r1.id, f, now, pick);
    } else {
      ActiveSettles(inet, r1.db, r1.id, f, now, pick);
    }
    WriteFlowKeeps(db.flows, r.db.flows.rows[r.id].key, f.connections, now);
  }

  /* ----- A flow that is settled changes no row ----- */

  lemma LocalRefreshes(inet: InetParser, db: Cmdb, f: FlowRecord, now: int)
    requires db.Valid() && Legal(inet, f) && db.processes.Has(LocalKey(inet, f))
    ensures Refreshed(db, InsertProcess(db, inet(f.local.addr), Pgid(f), Pname(f), now).db)
  {
    LocalProcessFound(inet, db, f, now);
  }

  lemma FlowRefreshes(db: Cmdb, k: FlowKey, connections: int, now: int)
    requires db.Valid() && db.flows.Has(k) && db.flows.rows[db.flows.Id(k)].cols.connections == connections
    ensures var r := InsertFlow(db, k.source, k.destination, connections, now);
      r.Done? && Refreshed(db, r.db)
  {
    WriteFlowKeeps(db.flows, k, connections, now);
  }

  lemma PassiveAgain(inet: InetParser, db: Cmdb, f: FlowRecord, now: int, pick: Pick, k: FlowKey)
    requires Settled(inet, db, f, pick, k) && f.direction.FlowPassive?
    ensures var process := db.passive.rows[k.destination].key.process;
      process in db.processes.rows && Refreshed(db, StepPassive(inet, db, process, f, now, pick).db)
  {
    var port, addr := ParseInt32(f.local.port), inet(f.peer.addr);
    var key := db.passive.rows[k.destination].key;
    IdUnique(db.passive, key, k.destination);
    var r := InsertPassiveNode(db, key.process, port);
    PassiveNodeFound(db, key.process, port.value);
    assert r.id == k.destination && r.db.processes == db.processes;
    SameNodesSameEligible(db, r.db, port.value, addr.value);
    hide InsertPassiveNode, EligibleActive, PeerActive, Cmdb.Valid;
    PeerFound(r.db, port, addr, now, pick);
    FlowRefreshes(r.db, k, f.connections, now);
    RefreshedTransitive(db, r.db, InsertFlow(r.db, k.source, k.destination, f.connections, now).db);
  }

  lemma ActiveAgain(inet: InetParser, db: Cmdb, f: FlowRecord, now: int, pick: Pick, k: FlowKey)
    requires Settled(inet, db, f, pick, k) && f.direction.FlowActive?
    ensures var process := db.active.rows[k.source].key;
      process in db.processes.rows && Refreshed(db, StepActive(inet, db, process, f, now, pick).db)
  {
    var port, addr := ParseInt32(f.peer.port), inet(f.peer.addr);
    var process := db.active.rows[k.source].key;
    IdUnique(db.active, process, k.source);
    var r := InsertActiveNode(db, process);
    ActiveNodeFound(db, process);
    assert r.id == k.source && r.db.processes == db.processes;
    SameNodesSameEligible(db, r.db, port.value, addr.value);
    hide InsertActiveNode, EligiblePassive, PeerPassive, Cmdb.Valid;
    PeerFound(r.db, port, addr, now, pick);
    FlowRefreshes(r.db, k, f.connections, now);
    RefreshedTransitive(db, r.db, InsertFlow(r.db, k.source, k.destination, f.connections, now).db);
  }

  /** Being settled survives the refresh of the local process. */
  lemma SettledRefreshed(inet: InetParser, db: Cmdb, db': Cmdb, f: FlowRecord, pick: Pick, k: FlowKey)
    requires Settled(inet, db, f, pick, k) && Next(db, db') && Refreshed(db, db') && db'.flows == db.flows
    ensures Settled(inet, db', f, pick, k)
  {
    var port := if f.direction.FlowActive? then ParseInt32(f.peer.port) else ParseInt32(f.local.port);
    SameNodesSameEligible(db, db', port.value, inet(f.peer.addr).value);
    hide EligibleActive, EligiblePassive;
    Provenance.WitnessedLater(inet, db, db', f, k);
  }

  lemma SettledAgain(inet: InetParser, db: Cmdb, f: FlowRecord, now: int, pick: Pick, k: FlowKey)
    requires Settled(inet, db, f, pick, k)
    ensures Refreshed(db, Step(inet, db, f, now, pick).db)
  {
    var node := if f.direction.FlowActive? then db.active.rows[k.source].key else db.passive.rows[k.destination].key.process;
    IdUnique(db.processes, LocalKey(inet, f), node);
    LocalProcessFound(inet, db, f, now);
    LocalRefreshes(inet, db, f, now);
    InsertProcessKeeps(db, inet(f.local.addr), Pgid(f), Pname(f), now);
    var r := InsertProcess(db, inet(f.local.addr), Pgid(f), Pname(f), now);
    SettledRefreshed(inet, db, r.db, f, pick, k);
    hide InsertProcess, StepPassive, StepActive, Settled, Refreshed, Cmdb.Valid;
    if f.direction.FlowPassive? {
      PassiveAgain(inet, r.db, f, now, pick, k);
    } else {
      ActiveAgain(inet, r.db, f, now, pick, k);
    }
    RefreshedTransitive(db, r.db, Step(inet, db, f, now, pick).db);
  }

  /** Applying a flow again at once, with the same pick, at any time: the same rows, the same
      counts, the same creation times. */
  lemma StepTwice(inet: InetParser, db: Cmdb, f: FlowRecord, now: int, now': int, pick: Pick)
    requires db.Valid() && Accepted(inet, f)
    ensures var db' := Step(inet, db, f, now, pick).db;
      Refreshed(db', Step(inet, db', f, now', pick).db)
  {
    if !Loopback(f) {
      var r := Step(inet, db, f, now, pick);
      StepKeeps(inet, db, f, now, pick);
      if f.direction.FlowUnknown? {
        StepCovers(inet, db, f, now, pick);
        LocalRefreshes(inet, r.db, f, now');
      } else {
        StepSettles(inet, db, f, now, pick);
        SettledAgain(inet, r.db, f, now', pick, r.db.flows.rows[r.id].key);
      }
    }
  }
}

/** Which row a report is attached to on its peer's side. A host knows its peer only by address,
    so the writer looks for a node there that fits, and takes whichever the query returns. */
module Attribution {
  import opened Options
  import opened Text
  import opened Inet
  import opened Probe
  import opened Store
  import opened Invariant
  import Saturation

  lemma EligibleActiveUnaffected(db: Cmdb, db': Cmdb, port: int, addr: Inet)
    requires db.Valid() && Next(db, db') && db'.active == db.active && db'.flows == db.flows
    ensures EligibleActive(db', port, addr) == EligibleActive(db, port, addr)
  {
    forall a ensures TalksTo(db', a, port) <==> TalksTo(db, a, port) {
      if TalksTo(db, a, port) {
        var f :| && f in db.flows.rows && db.flows.rows[f].key.source == a
                 && db.flows.rows[f].key.destination in db.passive.rows
                 && db.passive.rows[db.flows.rows[f].key.destination].key.port == port;
        assert f in db'.flows.rows;
      }
    }
  }

  lemma EligiblePassiveUnaffected(db: Cmdb, db': Cmdb, port: int, addr: Inet)
    requires db.Valid() && Next(db, db') && db'.passive == db.passive
    ensures EligiblePassive(db', addr, port) == EligiblePassive(db, addr, port)
  {
  }

  /** The row a directed flow writes. */
  ghost function WrittenKey(inet: InetParser, db: Cmdb, f: FlowRecord, now: int, pick: Pick): FlowKey
    requires db.Valid() && Legal(inet, f) && !Loopback(f) && !f.direction.FlowUnknown?
  {
    StepKeeps(inet, db, f, now, pick);
    var r := Step(inet, db, f, now, pick);
    r.db.flows.rows[r.id].key
  }

  lemma NewPeerActive(db: Cmdb, port: int, addr: Inet, now: int, pick: Pick)
    requires db.Valid() && EligibleActive(db, port, addr) == {}
    ensures var r := PeerActive(db, Some(port), Some(addr), now, pick);
      && r.Done? && r.db.Valid() && r.id in r.db.active.rows && r.db.flows == db.flows
      && r.db.ActiveProcess(r.id) == ProcessKey(addr, 0, "")
  {
    InsertProcessKeeps(db, Some(addr), 0, "", now);
    var r := InsertProcess(db, Some(addr), 0, "", now);
    InsertActiveNodeKeeps(r.db, r.id);
  }

  lemma NewPeerPassive(db: Cmdb, port: int, addr: Inet, now: int, pick: Pick)
    requires db.Valid() && LegalPort(port) && EligiblePassive(db, addr, port) == {}
    ensures var r := PeerPassive(db, Some(addr), Some(port), now, pick);
      && r.Done? && r.db.Valid() && r.id in r.db.passive.rows && r.db.flows == db.flows
      && r.db.PassiveProcess(r.id) == ProcessKey(addr, 0, "")
  {
    InsertProcessKeeps(db, Some(addr), 0, "", now);
    var r := InsertProcess(db, Some(addr), 0, "", now);
    InsertPassiveNodeKeeps(r.db, r.id, Some(port));
  }

  lemma ProcessKeyKept(db: Cmdb, db': Cmdb, a: nat, n: nat)
    requires db.Valid() && Next(db, db')
    ensures a in db.active.rows ==> a in db'.active.rows && db'.ActiveProcess(a) == db.ActiveProcess(a)
    ensures n in db.passive.rows ==> n in db'.passive.rows && db'.PassiveProcess(n) == db.PassiveProcess(n)
  {
  }

  lemma PassiveStepSource(inet: InetParser, db: Cmdb, process: nat, f: FlowRecord, now: int, pick: Pick)
    requires db.Valid() && process in db.processes.rows && Legal(inet, f) && f.direction.FlowPassive?
    ensures var r, s := StepPassive(inet, db, process, f, now, pick), EligibleActive(db, ParseInt32(f.local.port).value, inet(f.peer.addr).value);
      && r.Done? && r.db.Valid() && r.id in r.db.flows.rows && r.db.flows.rows[r.id].key.source in r.db.active.rows
      && var source := r.db.flows.rows[r.id].key.source;
      if s != {} then source == pick(s) else r.db.ActiveProcess(source) == ProcessKey(inet(f.peer.addr).value, 0, "")
  {
    var port, addr := ParseInt32(f.local.port), inet(f.peer.addr);
    var r1 := InsertPassiveNode(db, process, port);
    InsertPassiveNodeKeeps(db, process, port);
    EligibleActiveUnaffected(db, r1.db, port.value, addr.value);
    hide InsertPassiveNode, EligibleActive, Cmdb.Valid, Cmdb.Extends, PeerActive;
    PeerActiveKeeps(r1.db, port, addr, now, pick);
    var r2 := PeerActive(r1.db, port, addr, now, pick);
    if EligibleActive(db, port.value, addr.value) == {} {
      NewPeerActive(r1.db, port.value, addr.value, now, pick);
    } else {
      Saturation.PeerFound(r1.db, port, addr, now, pick);
    }
    RowsStay(r1.db, r2.db);
    InsertFlowKeeps(r2.db, r2.id, r1.id, f.connections, now);
    var r := InsertFlow(r2.db, r2.id, r1.id, f.connections, now);
    RowsStay(r2.db, r.db);
    ProcessKeyKept(r2.db, r.db, r2.id, r1.id);
  }

  lemma ActiveStepDestination(inet: InetParser, db: Cmdb, process: nat, f: FlowRecord, now: int, pick: Pick)
    requires db.Valid() && process in db.processes.rows && Legal(inet, f) && f.direction.FlowActive?
    ensures var r, s := StepActive(inet, db, process, f, now, pick), EligiblePassive(db, inet(f.peer.addr).value, ParseInt32(f.peer.port).value);
      && r.Done? && r.db.Valid() && r.id in r.db.flows.rows && r.db.flows.rows[r.id].key.destination in r.db.passive.rows
      && var destination := r.db.flows.rows[r.id].key.destination;
      if s != {} then destination == pick(s) else r.db.PassiveProcess(destination) == ProcessKey(inet(f.peer.addr).value, 0, "")
  {
    var port, addr := ParseInt32(f.peer.port), inet(f.peer.addr);
    var r1 := InsertActiveNode(db, process);
    InsertActiveNodeKeeps(db, process);
    EligiblePassiveUnaffected(db, r1.db, port.value, addr.value);
    hide InsertActiveNode, EligiblePassive, Cmdb.Valid, Cmdb.Extends, PeerPassive;
    PeerPassiveKeeps(r1.db, addr, port, now, pick);
    var r2 := PeerPassive(r1.db, addr, port, now, pick);
    if EligiblePassive(db, addr.value, port.value) == {} {
      NewPeerPassive(r1.db, port.value, addr.value, now, pick);
    } else {
      Saturation.PeerFound(r1.db, port, addr, now, pick);
    }
    RowsStay(r1.db, r2.db);
    InsertFlowKeeps(r2.db, r1.id, r2.id, f.connections, now);
    var r := InsertFlow(r2.db, r1.id, r2.id, f.connections, now);
    RowsStay(r2.db, r.db);
    ProcessKeyKept(r2.db, r.db, r1.id, r2.id);
  }

  /** The peer's side of the row a flow writes. For a passive flow: a node on the peer's address
      that already talks to the flow's port, on whatever host; for an active flow: a node on the
      peer's address and port; if there is none, the process nobody has reported yet. */
  lemma PeerOfWrite(inet: InetParser, db: Cmdb, f: FlowRecord, now: int, pick: Pick)
    requires db.Valid() && Legal(inet, f) && !Loopback(f) && !f.direction.FlowUnknown?
    ensures var db', k, addr := Step(inet, db, f, now, pick).db, WrittenKey(inet, db, f, now, pick), inet(f.peer.addr).value;
      && db'.Valid() && k.source in db'.active.rows && k.destination in db'.passive.rows
      && if f.direction.FlowPassive? then
           var s := EligibleActive(db, ParseInt32(f.local.port).value, addr);
           if s != {} then k.source == pick(s) else db'.ActiveProcess(k.source) == ProcessKey(addr, 0, "")
         else
           var s := EligiblePassive(db, addr, ParseInt32(f.peer.port).value);
           if s != {} then k.destination == pick(s) else db'.PassiveProcess(k.destination) == ProcessKey(addr, 0, "")
  {
    StepKeeps(inet, db, f, now, pick);
    InsertProcessKeeps(db, inet(f.local.addr), Pgid(f), Pname(f), now);
    var r1, addr := InsertProcess(db, inet(f.local.addr), Pgid(f), Pname(f), now), inet(f.peer.addr).value;
    if f.direction.FlowPassive? {
      EligibleActiveUnaffected(db, r1.db, ParseInt32(f.local.port).value, addr);
      hide InsertProcess, StepPassive, EligibleActive, Cmdb.Valid, Cmdb.Extends;
      PassiveStepSource(inet, r1.db, r1.id, f, now, pick);
    } else {
      EligiblePassiveUnaffected(db, r1.db, ParseInt32(f.peer.port).value, addr);
      hide InsertProcess, StepActive, EligiblePassive, Cmdb.Valid, Cmdb.Extends;
      ActiveStepDestination(inet, r1.db, r1.id, f, now, pick);
    }
  }

  /** A flow row of db goes from a to a node that listens on port. */
  ghost predicate SeenTalking(db: Cmdb, a: nat, port: int)
    requires db.Valid()
  {
    a in db.active.rows &&
    exists id :: id in db.flows.rows && db.flows.rows[id].key.source == a &&
      db.passive.rows[db.flows.rows[id].key.destination].key.port == port
  }

  /** The source of a passive flow is a node on the peer's address that has been seen talking to
      the flow's port, if there is one, and otherwise the peer's unknown process. */
  lemma SourceWasSeen(inet: InetParser, db: Cmdb, f: FlowRecord, now: int, pick: Pick)
    requires db.Valid() && Legal(inet, f) && !Loopback(f) && f.direction.FlowPassive?
    ensures var db', source := Step(inet, db, f, now, pick).db, WrittenKey(inet, db, f, now, pick).source;
      var addr, port := inet(f.peer.addr).value, ParseInt32(f.local.port).value;
      && db'.Valid() && source in db'.active.rows
      && if exists a :: SeenTalking(db, a, port) && db.ActiveProcess(a).ipv4 == addr then
           SeenTalking(db, source, port) && db.ActiveProcess(source).ipv4 == addr
         else db'.ActiveProcess(source) == ProcessKey(addr, 0, "")
  {
    PeerOfWrite(inet, db, f, now, pick);
    hide Step, WrittenKey, Legal;
    var addr, port := inet(f.peer.addr).value, ParseInt32(f.local.port).value;
    if a :| SeenTalking(db, a, port) && db.ActiveProcess(a).ipv4 == addr {
      SeenIsEligible(db, a, port, addr);
    }
    var s := EligibleActive(db, port, addr);
    if s != {} {
      SeenIsEligible(db, pick(s), port, addr);
    }
  }

  lemma SeenIsEligible(db: Cmdb, a: nat, port: int, addr: Inet)
    requires db.Valid()
    ensures a in EligibleActive(db, port, addr) <==> SeenTalking(db, a, port) && db.ActiveProcess(a).ipv4 == addr
  {
    if SeenTalking(db, a, port) {
      var id :| id in db.flows.rows && db.flows.rows[id].key.source == a &&
        db.passive.rows[db.flows.rows[id].key.destination].key.port == port;
      assert TalksTo(db, a, port);
    }
  }

  ghost predicate Listens(db: Cmdb, n: nat, port: int, addr: Inet)
    requires db.Valid()
  {
    n in db.passive.rows && db.passive.rows[n].key.port == port && db.PassiveProcess(n).ipv4 == addr
  }

  lemma ListensIsEligible(db: Cmdb, n: nat, port: int, addr: Inet)
    requires db.Valid()
    ensures n in EligiblePassive(db, addr, port) <==> Listens(db, n, port, addr)
  {
  }

  /** The destination of an active flow is a node that listens on the peer's address and port, if
      there is one, and otherwise a node of the peer's unknown process. */
  lemma DestinationWasListening(inet: InetParser, db: Cmdb, f: FlowRecord, now: int, pick: Pick)
    requires db.Valid() && Legal(inet, f) && !Loopback(f) && f.direction.FlowActive?
    ensures var db', destination := Step(inet, db, f, now, pick).db, WrittenKey(inet, db, f, now, pick).destination;
      var addr, port := inet(f.peer.addr).value, ParseInt32(f.peer.port).value;
      && db'.Valid() && destination in db'.passive.rows
      && if exists n :: Listens(db, n, port, addr) then Listens(db, destination, port, addr)
         else db'.PassiveProcess(destination) == ProcessKey(addr, 0, "")
  {
    PeerOfWrite(inet, db, f, now, pick);
    hide Step, WrittenKey, Legal;
    var addr, port := inet(f.peer.addr).value, ParseInt32(f.peer.port).value;
    if n :| Listens(db, n, port, addr) {
      ListensIsEligible(db, n, port, addr);
    }
    var s := EligiblePassive(db, addr, port);
    if s != {} {
      ListensIsEligible(db, pick(s), port, addr);
    }
  }
}

/** The four tables of assets/schema/flows.sql and the statements db/db.go runs on them. */
module Store {
  import opened Options
  import opened Text
  import opened Inet
  import opened Probe
  import opened Tables

  /* ----- The schema ----- */

  const PNAME_MAX := 50

  datatype ProcessKey = ProcessKey(ipv4: Inet, pgid: int, pname: string)
  datatype Stamps = Stamps(created: int, updated: int)
  datatype PassiveKey = PassiveKey(process: nat, port: int)
  datatype FlowKey = FlowKey(source: nat, destination: nat)
  datatype FlowCols = FlowCols(connections: int, created: int, updated: int)

  /** active_nodes is keyed by its process_id. */
  datatype Cmdb = Cmdb(
    processes: Table<ProcessKey, Stamps>,
    active: Table<nat, ()>,
    passive: Table<PassiveKey, ()>,
    flows: Table<FlowKey, FlowCols>) {

    /** UNIQUE, FOREIGN KEY and CHECK constraints, and ids below their sequences. */
    ghost predicate Valid() {
      && processes.Valid() && active.Valid() && passive.Valid() && flows.Valid()
      && (forall p :: p in processes.rows ==> LegalProcess(processes.rows[p].key))
      && (forall a :: a in active.rows ==> active.rows[a].key in processes.rows)
      && (forall n :: n in passive.rows ==>
            passive.rows[n].key.process in processes.rows && LegalPort(passive.rows[n].key.port))
      && (forall f :: f in flows.rows ==>
            && flows.rows[f].key.source in active.rows
            && flows.rows[f].key.destination in passive.rows
            && LegalConnections(flows.rows[f].cols.connections))
    }

    ghost predicate Extends(before: Cmdb) {
      && processes.Extends(before.processes) && active.Extends(before.active)
      && passive.Extends(before.passive) && flows.Extends(before.flows)
    }

    /** ROLLBACK restores every row and no sequence. */
    ghost function RolledBack(before: Cmdb): Cmdb {
      Cmdb(processes.RolledBack(before.processes), active.RolledBack(before.active),
           passive.RolledBack(before.passive), flows.RolledBack(before.flows))
    }

    ghost predicate SameRows(other: Cmdb) {
      && processes.rows == other.processes.rows && active.rows == other.active.rows
      && passive.rows == other.passive.rows && flows.rows == other.flows.rows
    }

    /** The process of an active or a passive node. */
    function ActiveProcess(a: nat): ProcessKey
      requires Valid() && a in active.rows
    {
      processes.rows[active.rows[a].key].key
    }

    function PassiveProcess(n: nat): ProcessKey
      requires Valid() && n in passive.rows
    {
      processes.rows[passive.rows[n].key.process].key
    }
  }

  /** CREATE TABLE leaves four empty tables. */
  ghost function EmptyCmdb(): Cmdb {
    Cmdb(Empty(), Empty(), Empty(), Empty())
  }

  predicate LegalPgid(pgid: int) {
    0 <= pgid <= INT32_MAX
  }

  predicate LegalPort(port: int) {
    0 < port <= INT32_MAX
  }

  predicate LegalConnections(connections: int) {
    0 < connections <= INT32_MAX
  }

  predicate LegalProcess(k: ProcessKey) {
    LegalPgid(k.pgid) && |k.pname| <= PNAME_MAX
  }

  /** Assignment to varchar(50): what does not fit is refused unless it is all spaces. */
  function Varchar(s: string): (r: Option<string>)
    ensures r.Some? ==> |r.value| <= PNAME_MAX
  {
    if |s| <= PNAME_MAX then Some(s)
    else if forall i :: PNAME_MAX <= i < |s| ==> s[i] == ' ' then Some(s[..PNAME_MAX])
    else None
  }

  /* ----- Statements ----- */

  datatype SqlError = BadParameter | ValueTooLong | CheckViolation | ForeignKeyViolation

  /** A statement's outcome; after a failure db still shows the numbers it drew. */
  datatype Exec = Done(db: Cmdb, id: nat) | Failed(db: Cmdb, error: SqlError) {
    predicate IsFailure() {
      Failed?
    }

    function PropagateFailure(): Exec
      requires Failed?
    {
      this
    }

    function Extract(): (Cmdb, nat)
      requires Done?
    {
      (db, id)
    }
  }

  /** insertProcessesSQL. */
  ghost function InsertProcess(db: Cmdb, ipv4: Option<Inet>, pgid: int, pname: string, now: int): Exec {
    if ipv4.None? || !(-INT32_MAX - 1 <= pgid <= INT32_MAX) then Failed(db, BadParameter)
    else
      var drawn := db.(processes := db.processes.(next := db.processes.next + 1));
      if Varchar(pname).None? then Failed(drawn, ValueTooLong)
      else if pgid < 0 then Failed(drawn, CheckViolation)
      else
        var k := ProcessKey(ipv4.value, pgid, Varchar(pname).value);
        var merged := db.processes.ColsOr(k, Stamps(now, now)).(updated := now);
        Done(db.(processes := db.processes.Upsert(k, Stamps(now, now), merged)), db.processes.UpsertId(k))
  }

  /** insertActiveNodesSQL. */
  ghost function InsertActiveNode(db: Cmdb, process: nat): Exec {
    if process !in db.processes.rows then
      Failed(db.(active := db.active.(next := db.active.next + 1)), ForeignKeyViolation)
    else
      Done(db.(active := db.active.Upsert(process, (), ())), db.active.UpsertId(process))
  }

  /** insertPassiveNodesSQL. */
  ghost function InsertPassiveNode(db: Cmdb, process: nat, port: Option<int>): Exec {
    if port.None? then Failed(db, BadParameter)
    else
      var drawn := db.(passive := db.passive.(next := db.passive.next + 1));
      if port.value <= 0 then Failed(drawn, CheckViolation)
      else if process !in db.processes.rows then Failed(drawn, ForeignKeyViolation)
      else
        var k := PassiveKey(process, port.value);
        Done(db.(passive := db.passive.Upsert(k, (), ())), db.passive.UpsertId(k))
  }

  /** A new flows row, or the new count and time of an old one. */
  ghost function WriteFlow(t: Table<FlowKey, FlowCols>, k: FlowKey, connections: int, now: int): Table<FlowKey, FlowCols> {
    var added := FlowCols(connections, now, now);
    t.Upsert(k, added, t.ColsOr(k, added).(connections := connections, updated := now))
  }

  /** insertFlowsSQL. */
  ghost function InsertFlow(db: Cmdb, source: nat, destination: nat, connections: int, now: int): Exec {
    if !(-INT32_MAX - 1 <= connections <= INT32_MAX) then Failed(db, BadParameter)
    else
      var drawn := db.(flows := db.flows.(next := db.flows.next + 1));
      if connections <= 0 then Failed(drawn, CheckViolation)
      else if source !in db.active.rows || destination !in db.passive.rows then
        Failed(drawn, ForeignKeyViolation)
      else
        var k := FlowKey(source, destination);
        Done(db.(flows := WriteFlow(db.flows, k, connections, now)), db.flows.UpsertId(k))
  }

  predicate NodeOn(db: Cmdb, process: nat, addr: Inet) {
    process in db.processes.rows && db.processes.rows[process].key.ipv4 == addr
  }

  predicate TalksTo(db: Cmdb, a: nat, port: int) {
    exists f :: && f in db.flows.rows && db.flows.rows[f].key.source == a
                && db.flows.rows[f].key.destination in db.passive.rows
                && db.passive.rows[db.flows.rows[f].key.destination].key.port == port
  }

  /** The rows findActiveNodesSQL can return: active nodes on addr with a flow to that port,
      on whatever host. */
  ghost function EligibleActive(db: Cmdb, port: int, addr: Inet): set<nat> {
    set a | a in db.active.rows && NodeOn(db, db.active.rows[a].key, addr) && TalksTo(db, a, port)
  }

  /** The rows findPassiveNodesSQL can return. */
  ghost function EligiblePassive(db: Cmdb, addr: Inet, port: int): set<nat> {
    set n | n in db.passive.rows && NodeOn(db, db.passive.rows[n].key.process, addr) &&
            db.passive.rows[n].key.port == port
  }

  /** Which row an unordered SELECT returns first: any member of the eligible set. */
  type Pick = f: set<nat> -> nat | forall s: set<nat> :: s != {} ==> f(s) in s
    ghost witness AnyMember

  ghost function AnyMember(s: set<nat>): nat {
    if s == {} then 0 else var x :| x in s; x
  }

  /** The pick of a server that returned row a. */
  ghost function Returned(a: nat): Pick {
    (s: set<nat>) => if a in s then a else AnyMember(s)
  }

  /* ----- The body of the loop of InsertOrUpdateHostFlows ----- */

  predicate Loopback(f: FlowRecord) {
    f.local.addr == "127.0.0.1" || f.local.addr == "::1" ||
    f.peer.addr == "127.0.0.1" || f.peer.addr == "::1"
  }

  function Pgid(f: FlowRecord): int {
    if f.process.Some? then f.process.value.pgid else 0
  }

  function Pname(f: FlowRecord): string {
    if f.process.Some? then f.process.value.name else ""
  }

  /** Find the active peer node of a passive flow, or create it with an unknown process. */
  ghost function PeerActive(db: Cmdb, port: Option<int>, addr: Option<Inet>, now: int, pick: Pick): Exec {
    if port.None? || addr.None? then Failed(db, BadParameter)
    else
      var eligible := EligibleActive(db, port.value, addr.value);
      if eligible != {} then Done(db, pick(eligible))
      else
        var (db', process) :- InsertProcess(db, addr, 0, "", now);
        InsertActiveNode(db', process)
  }

  /** Find the passive peer node of an active flow, or create it with an unknown process. */
  ghost function PeerPassive(db: Cmdb, addr: Option<Inet>, port: Option<int>, now: int, pick: Pick): Exec {
    if port.None? || addr.None? then Failed(db, BadParameter)
    else
      var eligible := EligiblePassive(db, addr.value, port.value);
      if eligible != {} then Done(db, pick(eligible))
      else
        var (db', process) :- InsertProcess(db, addr, 0, "", now);
        InsertPassiveNode(db', process, port)
  }

  type InetParser = string -> Option<Inet>

  ghost function StepPassive(inet: InetParser, db: Cmdb, process: nat, f: FlowRecord, now: int, pick: Pick): Exec {
    var port := ParseInt32(f.local.port);
    var (db1, local) :- InsertPassiveNode(db, process, port);
    var (db2, peer) :- PeerActive(db1, port, inet(f.peer.addr), now, pick);
    InsertFlow(db2, peer, local, f.connections, now)
  }

  ghost function StepActive(inet: InetParser, db: Cmdb, process: nat, f: FlowRecord, now: int, pick: Pick): Exec {
    var (db1, local) :- InsertActiveNode(db, process);
    var (db2, peer) :- PeerPassive(db1, inet(f.peer.addr), ParseInt32(f.peer.port), now, pick);
    InsertFlow(db2, local, peer, f.connections, now)
  }

  /** One flow of a batch, reported at the transaction's time. The id is that of the flows row
      written, when one is. */
  ghost function Step(inet: InetParser, db: Cmdb, f: FlowRecord, now: int, pick: Pick): Exec {
    if Loopback(f) then Done(db, 0)
    else
      var (db1, process) :- InsertProcess(db, inet(f.local.addr), Pgid(f), Pname(f), now);
      match f.direction
      case FlowPassive => StepPassive(inet, db1, process, f, now, pick)
      case FlowActive => StepActive(inet, db1, process, f, now, pick)
      case FlowUnknown => Done(db1, process)
  }

  /* ----- Transactions and runs ----- */

  /** A flow of a batch, with the row choice the server will make for it. */
  datatype Request = Request(flow: FlowRecord, pick: Pick)

  datatype Batch = Batch(now: int, requests: seq<Request>)

  ghost function Fold(inet: InetParser, db: Cmdb, rs: seq<Request>, now: int): Exec {
    if rs == [] then Done(db, 0)
    else
      var n := |rs| - 1;
      var (db', _) :- Fold(inet, db, rs[..n], now);
      Step(inet, db', rs[n].flow, now, rs[n].pick)
  }

  ghost predicate Commits(inet: InetParser, db: Cmdb, b: Batch) {
    Fold(inet, db, b.requests, b.now).Done?
  }

  /** InsertOrUpdateHostFlows as one transaction. */
  ghost function Apply(inet: InetParser, db: Cmdb, b: Batch): Cmdb {
    var r := Fold(inet, db, b.requests, b.now);
    if r.Done? then r.db else r.db.RolledBack(db)
  }

  ghost function ApplyAll(inet: InetParser, db: Cmdb, bs: seq<Batch>): Cmdb {
    if bs == [] then db else Apply(inet, ApplyAll(inet, db, bs[..|bs| - 1]), bs[|bs| - 1])
  }

  /** The state after a sequence of batches, from the empty tables. */
  ghost function Run(inet: InetParser, bs: seq<Batch>): Cmdb {
    ApplyAll(inet, EmptyCmdb(), bs)
  }
}

/** What the writer does with a flow, stated on the fields of the flow: which flows it skips, which
    it accepts, and which process it stores as the reporter. */
module Reporting {
  import opened Options
  import opened Text
  import opened Probe
  import opened Store
  import opened Invariant
  import Freshness
  import Queries

  predicate OnLoopback(f: FlowRecord) {
    f.local.addr in ["127.0.0.1", "::1"] || f.peer.addr in ["127.0.0.1", "::1"]
  }

  /** k is the process on f's own address that the flow names: its group and its name, cut to 50
      characters; group 0 and no name when the flow has no process. */
  ghost predicate IsReporter(inet: InetParser, f: FlowRecord, k: ProcessKey) {
    && inet(f.local.addr) == Some(k.ipv4)
    && match f.process
       case Some(p) => k.pgid == p.pgid && k.pname == if |p.name| <= 50 then p.name else p.name[..50]
       case None => k.pgid == 0 && k.pname == ""
  }

  lemma LocalKeyIsReporter(inet: InetParser, f: FlowRecord)
    requires Legal(inet, f)
    ensures IsReporter(inet, f, LocalKey(inet, f))
    ensures forall k :: IsReporter(inet, f, k) ==> k == LocalKey(inet, f)
  {
  }

  /** Process row p is f's reporter, seen last at time now. */
  ghost predicate ReporterRow(inet: InetParser, db: Cmdb, f: FlowRecord, now: int, p: nat) {
    p in db.processes.rows && IsReporter(inet, f, db.processes.rows[p].key) && db.processes.rows[p].cols.updated == now
  }

  /** Flows row id joins f's reporter, on the side of f's direction, to a node on f's peer. */
  ghost predicate ReportedRow(inet: InetParser, db: Cmdb, f: FlowRecord, id: nat)
    requires db.Valid()
  {
    && id in db.flows.rows
    && var k := db.flows.rows[id].key;
    match f.direction
    case FlowActive =>
      && IsReporter(inet, f, db.ActiveProcess(k.source))
      && inet(f.peer.addr) == Some(db.PassiveProcess(k.destination).ipv4)
      && ParseInt32(f.peer.port) == Some(db.passive.rows[k.destination].key.port)
    case FlowPassive =>
      && IsReporter(inet, f, db.PassiveProcess(k.destination))
      && ParseInt32(f.local.port) == Some(db.passive.rows[k.destination].key.port)
      && inet(f.peer.addr) == Some(db.ActiveProcess(k.source).ipv4)
    case FlowUnknown => false
  }

  lemma WitnessedIsReported(inet: InetParser, db: Cmdb, f: FlowRecord, id: nat)
    requires db.Valid() && id in db.flows.rows && Witnessed(inet, db, f, db.flows.rows[id].key)
    ensures ReportedRow(inet, db, f, id)
  {
    LocalKeyIsReporter(inet, f);
    hide Legal, LocalKey, Loopback;
  }

  /** A flow with a loopback address at either end changes nothing. */
  lemma LoopbackSkipped(inet: InetParser, db: Cmdb, f: FlowRecord, now: int, pick: Pick)
    requires OnLoopback(f)
    ensures Step(inet, db, f, now, pick) == Done(db, 0)
  {
  }

  /** Any other flow that succeeds leaves its reporter's process stamped, and the row it writes, if
      it has a direction, joins that process to its peer. */
  lemma StepReports(inet: InetParser, db: Cmdb, f: FlowRecord, now: int, pick: Pick)
    requires db.Valid() && Step(inet, db, f, now, pick).Done? && !OnLoopback(f)
    ensures var r := Step(inet, db, f, now, pick);
      && r.db.Valid()
      && (exists p :: ReporterRow(inet, r.db, f, now, p))
      && if f.direction.FlowUnknown? then ReporterRow(inet, r.db, f, now, r.id) else ReportedRow(inet, r.db, f, r.id)
  {
    assert !Loopback(f);
    StepKeeps(inet, db, f, now, pick);
    Freshness.StepTouched(inet, db, f, now, pick);
    LocalKeyIsReporter(inet, f);
    var r := Step(inet, db, f, now, pick);
    if f.direction.FlowUnknown? {
      InsertProcessKeeps(db, inet(f.local.addr), Pgid(f), Pname(f), now);
    } else {
      hide Step, Legal, LocalKey, Cmdb.Valid, Cmdb.Extends;
      WitnessedIsReported(inet, r.db, f, r.id);
    }
    hide Step, Legal, LocalKey, IsReporter, Cmdb.Valid, Cmdb.Extends;
    FreshIsReporter(inet, r.db, f, now);
  }

  lemma FreshIsReporter(inet: InetParser, db: Cmdb, f: FlowRecord, now: int)
    requires Legal(inet, f) && Freshness.Fresh(db, LocalKey(inet, f), now)
    ensures exists p :: ReporterRow(inet, db, f, now, p)
  {
    LocalKeyIsReporter(inet, f);
    hide Legal, LocalKey, IsReporter;
    var p :| p in db.processes.rows && db.processes.rows[p].key == LocalKey(inet, f) && db.processes.rows[p].cols.updated == now;
    assert ReporterRow(inet, db, f, now, p);
  }

  /** After a commit the tables hold, for each flow that has no loopback address, its reporter with
      the commit's time, and for each directed one a row with that time that joins it to its peer. */
  lemma CommitReports(inet: InetParser, db: Cmdb, b: Batch, i: nat)
    requires db.Valid() && Commits(inet, db, b) && i < |b.requests| && !OnLoopback(b.requests[i].flow)
    ensures var db', f := Apply(inet, db, b), b.requests[i].flow;
      && db'.Valid()
      && (exists p :: ReporterRow(inet, db', f, b.now, p))
      && (!f.direction.FlowUnknown? ==>
            exists id :: ReportedRow(inet, db', f, id) && db'.flows.rows[id].cols.updated == b.now)
  {
    var db', f := Apply(inet, db, b), b.requests[i].flow;
    assert !Loopback(f) && db' == Fold(inet, db, b.requests, b.now).db;
    hide Fold, Apply, Commits, Cmdb.Valid, Cmdb.Extends, Loopback, Legal, LocalKey, Witnessed, OnLoopback, Freshness.Fresh, ReporterRow, ReportedRow;
    FoldKeeps(inet, db, b.requests, b.now);
    Freshness.FoldFresh(inet, db, b.requests, b.now, i);
    FreshIsReporter(inet, db', f, b.now);
    if !f.direction.FlowUnknown? {
      var id := Queries.FoldStamps(inet, db, b.requests, b.now, i);
      WitnessedIsReported(inet, db', f, id);
    }
  }

  /* ----- What is accepted ----- */

  ghost predicate Acceptable(inet: InetParser, f: FlowRecord) {
    || OnLoopback(f)
    || (&& inet(f.local.addr).Some?
        && (f.process.Some? ==>
              && 0 <= f.process.value.pgid <= 2147483647
              && forall j :: 50 <= j < |f.process.value.name| ==> f.process.value.name[j] == ' ')
        && (!f.direction.FlowUnknown? ==>
              && inet(f.peer.addr).Some? && 1 <= f.connections <= 2147483647
              && var port := ParseInt32(if f.direction.FlowActive? then f.peer.port else f.local.port);
              port.Some? && 1 <= port.value))
  }

  lemma AcceptableIffAccepted(inet: InetParser, f: FlowRecord)
    ensures Acceptable(inet, f) <==> Accepted(inet, f)
  {
    hide ParseInt32;
  }

  /** A batch commits exactly when each flow has a loopback address or values the columns hold. */
  lemma CommitsIffAllAcceptable(inet: InetParser, db: Cmdb, b: Batch)
    requires db.Valid()
    ensures Commits(inet, db, b) <==> forall i :: 0 <= i < |b.requests| ==> Acceptable(inet, b.requests[i].flow)
  {
    forall i | 0 <= i < |b.requests|
      ensures Acceptable(inet, b.requests[i].flow) <==> Accepted(inet, b.requests[i].flow)
    {
      AcceptableIffAccepted(inet, b.requests[i].flow);
    }
    hide Acceptable, Accepted, Commits, Cmdb.Valid;
    CommitsIffAllAccepted(inet, db, b);
  }

  /** The CHECK constraints and column sizes of every state of every run, in numbers. */
  lemma RunChecks(inet: InetParser, bs: seq<Batch>)
    ensures var db := Run(inet, bs);
      && (forall p :: p in db.processes.rows ==>
            0 <= db.processes.rows[p].key.pgid <= 2147483647 && |db.processes.rows[p].key.pname| <= 50)
      && (forall n :: n in db.passive.rows ==> 1 <= db.passive.rows[n].key.port <= 2147483647)
      && (forall f :: f in db.flows.rows ==> 1 <= db.flows.rows[f].cols.connections <= 2147483647)
  {
    RunValid(inet, bs);
    hide Run;
  }
}

/** The source of a passive flow is found by the peer's address and the flow's own port, but not
    by the flow's host. When that gives the wrong process, and exactly when it cannot. */
module Misattribution {
  import opened Options
  import opened Text
  import opened Inet
  import opened Probe
  import opened Tables
  import opened Store
  import opened Invariant
  import opened Attribution
  import Connectivity
  import Provenance

  /** A flow row of db goes from a to that port on the address `here`. */
  ghost predicate SeenTalkingTo(db: Cmdb, a: nat, port: int, here: Inet)
    requires db.Valid()
  {
    a in db.active.rows &&
    exists id :: id in db.flows.rows && db.flows.rows[id].key.source == a &&
      Listens(db, db.flows.rows[id].key.destination, port, here)
  }

  /** With this pick, f's source is the peer's unknown process or a node that had been seen talking
      to this very host and port. */
  ghost predicate SourceIsSure(inet: InetParser, db: Cmdb, f: FlowRecord, now: int, pick: Pick)
    requires db.Valid() && Legal(inet, f) && !Loopback(f) && f.direction.FlowPassive?
  {
    PeerOfWrite(inet, db, f, now, pick);
    var db', source := Step(inet, db, f, now, pick).db, WrittenKey(inet, db, f, now, pick).source;
    || db'.ActiveProcess(source) == ProcessKey(inet(f.peer.addr).value, 0, "")
    || SeenTalkingTo(db, source, ParseInt32(f.local.port).value, inet(f.local.addr).value)
  }

  /** Every node on the peer's address that was seen talking to f's port anywhere is the unknown
      process or was seen talking to it here. */
  ghost predicate NoneElsewhere(inet: InetParser, db: Cmdb, f: FlowRecord)
    requires db.Valid() && Legal(inet, f) && f.direction.FlowPassive?
  {
    var addr, port := inet(f.peer.addr).value, ParseInt32(f.local.port).value;
    forall a :: SeenTalking(db, a, port) && db.ActiveProcess(a).ipv4 == addr ==>
      db.ActiveProcess(a) == ProcessKey(addr, 0, "") || SeenTalkingTo(db, a, port, inet(f.local.addr).value)
  }

  lemma SureSource(inet: InetParser, db: Cmdb, f: FlowRecord, now: int, pick: Pick)
    requires db.Valid() && Legal(inet, f) && !Loopback(f) && f.direction.FlowPassive? && NoneElsewhere(inet, db, f)
    ensures SourceIsSure(inet, db, f, now, pick)
  {
    PeerOfWrite(inet, db, f, now, pick);
    StepKeeps(inet, db, f, now, pick);
    var addr, port := inet(f.peer.addr).value, ParseInt32(f.local.port).value;
    hide Step, Legal, Cmdb.Extends, EligibleActive;
    var s := EligibleActive(db, port, addr);
    if s != {} {
      SeenIsEligible(db, pick(s), port, addr);
      ProcessKeyKept(db, Step(inet, db, f, now, pick).db, pick(s), 0);
    }
  }

  lemma UnsureSource(inet: InetParser, db: Cmdb, f: FlowRecord, now: int, a: nat)
    requires db.Valid() && Legal(inet, f) && !Loopback(f) && f.direction.FlowPassive?
    requires var addr, port := inet(f.peer.addr).value, ParseInt32(f.local.port).value;
      && SeenTalking(db, a, port) && db.ActiveProcess(a).ipv4 == addr
      && db.ActiveProcess(a) != ProcessKey(addr, 0, "") && !SeenTalkingTo(db, a, port, inet(f.local.addr).value)
    ensures !SourceIsSure(inet, db, f, now, Returned(a))
  {
    PeerOfWrite(inet, db, f, now, Returned(a));
    StepKeeps(inet, db, f, now, Returned(a));
    var addr, port := inet(f.peer.addr).value, ParseInt32(f.local.port).value;
    hide Step, Legal, Cmdb.Extends, EligibleActive;
    SeenIsEligible(db, a, port, addr);
    ProcessKeyKept(db, Step(inet, db, f, now, Returned(a)).db, a, 0);
  }

  /** A passive flow's source is sure, whichever row the find returns, exactly when no process on
      the peer's address but the unknown one was seen on the same port of other hosts only. */
  lemma SourceIsSureIff(inet: InetParser, db: Cmdb, f: FlowRecord, now: int)
    requires db.Valid() && Legal(inet, f) && !Loopback(f) && f.direction.FlowPassive?
    ensures (forall pick :: SourceIsSure(inet, db, f, now, pick)) <==> NoneElsewhere(inet, db, f)
  {
    var addr, port := inet(f.peer.addr).value, ParseInt32(f.local.port).value;
    hide Step, Legal, Cmdb.Valid, SourceIsSure, SeenTalking, SeenTalkingTo;
    if NoneElsewhere(inet, db, f) {
      forall pick: Pick ensures SourceIsSure(inet, db, f, now, pick) {
        SureSource(inet, db, f, now, pick);
      }
    } else {
      var a :| SeenTalking(db, a, port) && db.ActiveProcess(a).ipv4 == addr &&
        !(db.ActiveProcess(a) == ProcessKey(addr, 0, "") || SeenTalkingTo(db, a, port, inet(f.local.addr).value));
      UnsureSource(inet, db, f, now, a);
    }
  }

  /* ----- A run that goes wrong ----- */

  /** g is an active flow of f's peer to f's port on another host, by a process with a name. */
  ghost predicate SamePortElsewhere(inet: InetParser, g: FlowRecord, f: FlowRecord) {
    && Legal(inet, g) && Legal(inet, f) && !Loopback(g) && !Loopback(f)
    && g.direction.FlowActive? && f.direction.FlowPassive?
    && inet(g.local.addr) == inet(f.peer.addr) && inet(g.peer.addr) != inet(f.local.addr)
    && ParseInt32(g.peer.port) == ParseInt32(f.local.port)
    && Pname(g) != ""
  }

  lemma OnlyCreated(db: Cmdb, db': Cmdb, id: nat, local: nat)
    requires db.active.rows == map[] && Connectivity.Created(db, db', id, local)
    ensures id in db'.flows.rows && forall a :: a in db'.active.rows ==> a == db'.flows.rows[id].key.source
  {
  }

  lemma OnlyWritten(t: Table<FlowKey, FlowCols>, k: FlowKey, connections: int, now: int)
    requires t.Valid() && t.rows == map[]
    ensures WriteFlow(t, k, connections, now).rows.Keys == {t.UpsertId(k)}
    ensures WriteFlow(t, k, connections, now).rows[t.UpsertId(k)].key == k
  {
    WriteFlowKeeps(t, k, connections, now);
  }

  lemma FirstFlowAlone(inet: InetParser, db: Cmdb, g: FlowRecord, now: int, pick: Pick)
    requires db.Valid() && db.active.rows == map[] && db.flows.rows == map[]
    requires Legal(inet, g) && !Loopback(g) && g.direction.FlowActive?
    ensures var r := Step(inet, db, g, now, pick);
      && r.Done? && r.db.Valid() && r.db.flows.rows.Keys == {r.id}
      && Witnessed(inet, r.db, g, r.db.flows.rows[r.id].key)
      && forall a :: a in r.db.active.rows ==> a == r.db.flows.rows[r.id].key.source
  {
    hide Step, Witnessed, Legal, LocalKey, WriteFlow, Cmdb.Valid, Cmdb.Extends, Loopback, Connectivity.Created;
    StepKeeps(inet, db, g, now, pick);
    Provenance.StepFlows(inet, db, g, now, pick);
    Connectivity.StepCreates(inet, db, g, now, pick);
    var r := Step(inet, db, g, now, pick);
    var local :| local in r.db.processes.rows && r.db.processes.rows[local].key == LocalKey(inet, g) &&
      Connectivity.Created(db, r.db, r.id, local);
    OnlyCreated(db, r.db, r.id, local);
    FlowsValid(db);
    OnlyWritten(db.flows, r.db.flows.rows[r.id].key, g.connections, now);
  }

  lemma FlowsValid(db: Cmdb)
    requires db.Valid()
    ensures db.flows.Valid()
  {
  }

  /** In a state whose only row is g's, f's flow is drawn from g's process. */
  lemma WrongSource(inet: InetParser, db: Cmdb, g: FlowRecord, f: FlowRecord, id: nat, now: int, pick: Pick)
    requires db.Valid() && SamePortElsewhere(inet, g, f)
    requires db.flows.rows.Keys == {id} && Witnessed(inet, db, g, db.flows.rows[id].key)
    requires forall a :: a in db.active.rows ==> a == db.flows.rows[id].key.source
    ensures var db', source := Step(inet, db, f, now, pick).db, WrittenKey(inet, db, f, now, pick).source;
      && db'.Valid() && source in db'.active.rows && db'.ActiveProcess(source) == LocalKey(inet, g)
      && !SeenTalkingTo(db, source, ParseInt32(f.local.port).value, inet(f.local.addr).value)
      && !SourceIsSure(inet, db, f, now, pick)
  {
    var addr, port := inet(f.peer.addr).value, ParseInt32(f.local.port).value;
    OnlyRowElsewhere(inet, db, g, f, id);
    hide Step, Legal, Witnessed, Loopback, ParseInt32;
    SourceWasSeen(inet, db, f, now, pick);
    StepKeeps(inet, db, f, now, pick);
    ProcessKeyKept(db, Step(inet, db, f, now, pick).db, db.flows.rows[id].key.source, 0);
  }

  lemma OnlyRowElsewhere(inet: InetParser, db: Cmdb, g: FlowRecord, f: FlowRecord, id: nat)
    requires db.Valid() && SamePortElsewhere(inet, g, f)
    requires db.flows.rows.Keys == {id} && Witnessed(inet, db, g, db.flows.rows[id].key)
    ensures var source, port := db.flows.rows[id].key.source, ParseInt32(f.local.port).value;
      && SeenTalking(db, source, port) && db.ActiveProcess(source) == LocalKey(inet, g)
      && db.ActiveProcess(source).ipv4 == inet(f.peer.addr).value && db.ActiveProcess(source).pname != ""
      && !SeenTalkingTo(db, source, port, inet(f.local.addr).value)
  {
    assert id in db.flows.rows;
    NameStays(Pname(g));
  }

  lemma NameStays(pname: string)
    requires pname != "" && Varchar(pname).Some?
    ensures Varchar(pname).value != ""
  {
  }

  lemma FoldOne(inet: InetParser, db: Cmdb, q: Request, now: int)
    ensures Fold(inet, db, [q], now) == Step(inet, db, q.flow, now, q.pick)
  {
    hide Step;
    assert [q][..0] == [];
  }

  lemma RunOne(inet: InetParser, b: Batch)
    ensures Run(inet, [b]) == Apply(inet, EmptyCmdb(), b)
  {
    hide Apply;
    var none: seq<Batch> := [];
    assert [b][..0] == none;
    assert ApplyAll(inet, EmptyCmdb(), none) == EmptyCmdb();
  }

  /** From the empty tables, once g is committed, f's flow is attributed to a process that was
      never seen talking to f's host, whichever rows the finds return. */
  lemma RunMisattributes(inet: InetParser, g: FlowRecord, f: FlowRecord, q: Pick, before: int, now: int, pick: Pick)
    requires SamePortElsewhere(inet, g, f)
    ensures var b := Batch(before, [Request(g, q)]);
      var db, db' := Run(inet, [b]), Step(inet, Run(inet, [b]), f, now, pick).db;
      && Commits(inet, EmptyCmdb(), b) && db.Valid() && db'.Valid()
      && var source := WrittenKey(inet, db, f, now, pick).source;
      && source in db'.active.rows && db'.ActiveProcess(source) == LocalKey(inet, g)
      && !SeenTalkingTo(db, source, ParseInt32(f.local.port).value, inet(f.local.addr).value)
      && !SourceIsSure(inet, db, f, now, pick)
  {
    var start, b := EmptyCmdb(), Batch(before, [Request(g, q)]);
    FirstFlowAlone(inet, start, g, before, q);
    FoldOne(inet, start, Request(g, q), before);
    RunOne(inet, b);
    hide Step, Run, Fold, Legal, Witnessed, Loopback, Cmdb.Valid, SourceIsSure, SeenTalkingTo;
    WrongSource(inet, Run(inet, [b]), g, f, Step(inet, start, g, before, q).id, now, pick);
  }

  /** Two such reports: host 10.0.0.1 talks to port 80 of 10.0.0.2, and 10.0.0.3 is talked to
      from 10.0.0.1 on its port 80. */
  const TO_ANOTHER_HOST := FlowRecord(FlowActive, AddrPort("", "10.0.0.1", "many"), AddrPort("", "10.0.0.2", "80"), 1,
                                      Some(Process("curl", 7)))
  const TO_THIS_HOST := FlowRecord(FlowPassive, AddrPort("", "10.0.0.3", "80"), AddrPort("", "10.0.0.1", "many"), 1,
                                   Some(Process("nginx", 9)))

  lemma SuchReports(inet: InetParser)
    requires forall ip :: inet(DottedQuad(ip)) == Some(V4(ip))
    ensures SamePortElsewhere(inet, TO_ANOTHER_HOST, TO_THIS_HOST)
  {
    Port80();
    hide ParseInt32, DottedQuad;
    ParsedHost(inet, 1);
    ParsedHost(inet, 2);
    ParsedHost(inet, 3);
    assert "10.0.0." + [Digit(1)] == "10.0.0.1" && "10.0.0." + [Digit(2)] == "10.0.0.2" && "10.0.0." + [Digit(3)] == "10.0.0.3";
    assert IPv4(10, 0, 0, 2) != IPv4(10, 0, 0, 3);
  }

  lemma Port80()
    ensures ParseInt32("80") == Some(80)
  {
    ParseInt32OfDecimal(80);
    assert Decimal(80) == "80";
  }

  lemma ParsedHost(inet: InetParser, d: nat)
    requires d < 10 && forall ip :: inet(DottedQuad(ip)) == Some(V4(ip))
    ensures inet("10.0.0." + [Digit(d)]) == Some(V4(IPv4(10, 0, 0, d)))
  {
    TextOfHost(d);
    hide DottedQuad;
  }

  lemma TextOfHost(d: nat)
    requires d < 10
    ensures DottedQuad(IPv4(10, 0, 0, d)) == "10.0.0." + [Digit(d)]
  {
    assert Decimal(10) == Decimal(1) + [Digit(0)] == "10";
    assert Decimal(0) == "0" && Decimal(d) == [Digit(d)];
    var octets := ["10", "0", "0", [Digit(d)]];
    assert Octets(IPv4(10, 0, 0, d)) == octets;
    assert octets[1..] == ["0", "0", [Digit(d)]] && octets[1..][1..] == ["0", [Digit(d)]] && octets[1..][1..][1..] == [[Digit(d)]];
    assert Joined([[Digit(d)]], '.') == [Digit(d)];
    assert Joined(["0", [Digit(d)]], '.') == "0." + [Digit(d)];
    assert Joined(["0", "0", [Digit(d)]], '.') == "0.0." + [Digit(d)];
  }
}

/** The DB object of db/db.go: the methods that write the CMDB and the ones that query it,
    proved against the functions of Store and Queries. */
module Database {
  import opened Options
  import opened Text
  import opened Inet
  import opened Probe
  import opened Tables
  import opened Store
  import opened Invariant
  import opened Queries
  import Saturation

  datatype Result<T> = Ok(value: T) | Err(error: SqlError)

  function ErrorOf<T>(r: Result<T>): Option<SqlError> {
    if r.Ok? then None else Some(r.error)
  }

  ghost function Outcome(e: Exec): Result<nat> {
    if e.Done? then Ok(e.id) else Err(e.error)
  }

  function AsIPv4(ip: NetIP): Option<IPv4> {
    if |ip| == 4 then Some(IPv4(ip[0], ip[1], ip[2], ip[3])) else None
  }

  class FindFlowsCond {
    var addrs: array<NetIP>
    var since: int
    var until: Option<int>

    constructor (addrs: array<NetIP>, since: int, until: Option<int>)
      ensures this.addrs == addrs && this.since == since && this.until == until
    {
      this.addrs, this.since, this.until := addrs, since, until;
    }
  }

  function WantedOf(ips: seq<NetIP>): Wanted {
    seq(|ips|, i requires 0 <= i < |ips| => AsIPv4(ips[i]))
  }

  lemma To4Bytes(addr: NetIP, ip: IPv4)
    ensures AsIPv4(To4(addr)) == Some(ip) <==>
      || addr == [ip.a, ip.b, ip.c, ip.d]
      || addr == [0, 0, 0, 0, 0, 0, 0, 0, 0, 0, 255, 255, ip.a, ip.b, ip.c, ip.d]
  {
    if Mapped(addr) {
      assert addr == [0, 0, 0, 0, 0, 0, 0, 0, 0, 0, 255, 255, addr[12], addr[13], addr[14], addr[15]];
    }
  }

  lemma WantedFromTo4(addrs: seq<NetIP>, short: seq<NetIP>)
    requires |short| == |addrs| && forall i :: 0 <= i < |addrs| ==> short[i] == To4(addrs[i])
    ensures WantedFrom(addrs, WantedOf(short))
  {
    forall ip ensures Some(ip) in WantedOf(short) <==> AsksFor(addrs, ip) {
      forall i | 0 <= i < |addrs|
        ensures WantedOf(short)[i] == Some(ip) <==>
          || addrs[i] == [ip.a, ip.b, ip.c, ip.d]
          || addrs[i] == [0, 0, 0, 0, 0, 0, 0, 0, 0, 0, 255, 255, ip.a, ip.b, ip.c, ip.d]
      {
        To4Bytes(addrs[i], ip);
      }
    }
  }

  method Conflict<K(==), V>(t: Table<K, V>, k: K) returns (id: Option<nat>)
    requires t.Valid()
    ensures id.Some? <==> t.Has(k)
    ensures id.Some? ==> id.value == t.Id(k)
  {
    if found :| found in t.rows && t.rows[found].key == k {
      id := Some(found);
    } else {
      id := None;
    }
  }

  class DB {
    const inet: InetParser
    var processes: Table<ProcessKey, Stamps>
    var active: Table<nat, ()>
    var passive: Table<PassiveKey, ()>
    var flows: Table<FlowKey, FlowCols>

    /** CreateSchema on an empty database. */
    constructor (inet: InetParser)
      ensures this.inet == inet && State() == EmptyCmdb() && State().Valid()
    {
      this.inet := inet;
      processes, active, passive, flows := Table(map[], 1), Table(map[], 1), Table(map[], 1), Table(map[], 1);
    }

    function State(): Cmdb
      reads this
    {
      Cmdb(processes, active, passive, flows)
    }

    method InsertProcess(ipv4: Option<Inet>, pgid: int, pname: string, now: int) returns (r: Result<nat>)
      requires State().Valid()
      modifies this
      ensures var e := Store.InsertProcess(old(State()), ipv4, pgid, pname, now);
        State() == e.db && r == Outcome(e)
    {
      if ipv4.None? || !(-INT32_MAX - 1 <= pgid <= INT32_MAX) {
        return Err(BadParameter);
      }
      var id, stored := processes.next, Varchar(pname);
      if stored.None? || pgid < 0 {
        processes := processes.(next := id + 1);
        return Err(if stored.None? then ValueTooLong else CheckViolation);
      }
      var k := ProcessKey(ipv4.value, pgid, stored.value);
      var conflict := Conflict(processes, k);
      var cols := Stamps(now, now);
      if conflict.Some? {
        id := conflict.value;
        cols := processes.rows[id].cols.(updated := now);
      }
      processes := Table(processes.rows[id := Row(k, cols)], processes.next + 1);
      r := Ok(id);
    }

    method InsertActiveNode(process: nat) returns (r: Result<nat>)
      requires State().Valid()
      modifies this
      ensures var e := Store.InsertActiveNode(old(State()), process);
        State() == e.db && r == Outcome(e)
    {
      var id := active.next;
      if process !in processes.rows {
        active := active.(next := id + 1);
        return Err(ForeignKeyViolation);
      }
      var conflict := Conflict(active, process);
      if conflict.Some? {
        id := conflict.value;
      }
      active := Table(active.rows[id := Row(process, ())], active.next + 1);
      r := Ok(id);
    }

    method InsertPassiveNode(process: nat, port: Option<int>) returns (r: Result<nat>)
      requires State().Valid()
      modifies this
      ensures var e := Store.InsertPassiveNode(old(State()), process, port);
        State() == e.db && r == Outcome(e)
    {
      if port.None? {
        return Err(BadParameter);
      }
      var id := passive.next;
      if port.value <= 0 || process !in processes.rows {
        passive := passive.(next := id + 1);
        return Err(if port.value <= 0 then CheckViolation else ForeignKeyViolation);
      }
      var k := PassiveKey(process, port.value);
      var conflict := Conflict(passive, k);
      if conflict.Some? {
        id := conflict.value;
      }
      passive := Table(passive.rows[id := Row(k, ())], passive.next + 1);
      r := Ok(id);
    }

    method InsertFlow(source: nat, destination: nat, connections: int, now: int) returns (r: Result<nat>)
      requires State().Valid()
      modifies this
      ensures var e := Store.InsertFlow(old(State()), source, destination, connections, now);
        State() == e.db && r == Outcome(e)
    {
      if !(-INT32_MAX - 1 <= connections <= INT32_MAX) {
        return Err(BadParameter);
      }
      var id := flows.next;
      if connections <= 0 || source !in active.rows || destination !in passive.rows {
        flows := flows.(next := id + 1);
        return Err(if connections <= 0 then CheckViolation else ForeignKeyViolation);
      }
      var k := FlowKey(source, destination);
      var conflict := Conflict(flows, k);
      var cols := FlowCols(connections, now, now);
      if conflict.Some? {
        id := conflict.value;
        cols := flows.rows[id].cols.(connections := connections, updated := now);
      }
      flows := Table(flows.rows[id := Row(k, cols)], flows.next + 1);
      r := Ok(id);
    }

    /** The find returns any eligible row; pick is the choice it made. */
    method PeerActive(port: Option<int>, addr: Option<Inet>, now: int) returns (r: Result<nat>, ghost pick: Pick)
      requires State().Valid()
      modifies this
      ensures var e := Store.PeerActive(old(State()), port, addr, now, pick);
        State() == e.db && r == Outcome(e)
    {
      pick := Returned(0);
      if port.None? || addr.None? {
        return Err(BadParameter), pick;
      }
      var db := State();
      if a :| a in active.rows && NodeOn(db, active.rows[a].key, addr.value) && TalksTo(db, a, port.value) {
        assert a in EligibleActive(db, port.value, addr.value);
        return Ok(a), Returned(a);
      }
      InsertProcessKeeps(db, addr, 0, "", now);
      r := InsertProcess(addr, 0, "", now);
      if r.Ok? {
        r := InsertActiveNode(r.value);
      }
    }

    method PeerPassive(addr: Option<Inet>, port: Option<int>, now: int) returns (r: Result<nat>, ghost pick: Pick)
      requires State().Valid()
      modifies this
      ensures var e := Store.PeerPassive(old(State()), addr, port, now, pick);
        State() == e.db && r == Outcome(e)
    {
      pick := Returned(0);
      if port.None? || addr.None? {
        return Err(BadParameter), pick;
      }
      var db := State();
      if n :| n in passive.rows && NodeOn(db, passive.rows[n].key.process, addr.value) && passive.rows[n].key.port == port.value {
        assert n in EligiblePassive(db, addr.value, port.value);
        return Ok(n), Returned(n);
      }
      InsertProcessKeeps(db, addr, 0, "", now);
      r := InsertProcess(addr, 0, "", now);
      if r.Ok? {
        r := InsertPassiveNode(r.value, port);
      }
    }

    method WritePassive(process: nat, f: FlowRecord, now: int) returns (r: Result<nat>, ghost pick: Pick)
      requires State().Valid() && process in processes.rows
      modifies this
      ensures var e := StepPassive(inet, old(State()), process, f, now, pick);
        State() == e.db && r == Outcome(e)
    {
      pick := Returned(0);
      var port := ParseInt32(f.local.port);
      InsertPassiveNodeKeeps(State(), process, port);
      r := InsertPassiveNode(process, port);
      if r.Ok? {
        var local := r.value;
        r, pick := PeerActive(port, inet(f.peer.addr), now);
        if r.Ok? {
          PeerActiveKeeps(Store.InsertPassiveNode(old(State()), process, port).db, port, inet(f.peer.addr), now, pick);
          r := InsertFlow(r.value, local, f.connections, now);
        }
      }
    }

    method WriteActive(process: nat, f: FlowRecord, now: int) returns (r: Result<nat>, ghost pick: Pick)
      requires State().Valid() && process in processes.rows
      modifies this
      ensures var e := StepActive(inet, old(State()), process, f, now, pick);
        State() == e.db && r == Outcome(e)
    {
      pick := Returned(0);
      InsertActiveNodeKeeps(State(), process);
      r := InsertActiveNode(process);
      if r.Ok? {
        var local := r.value;
        r, pick := PeerPassive(inet(f.peer.addr), ParseInt32(f.peer.port), now);
        if r.Ok? {
          PeerPassiveKeeps(Store.InsertActiveNode(old(State()), process).db, inet(f.peer.addr), ParseInt32(f.peer.port), now, pick);
          r := InsertFlow(local, r.value, f.connections, now);
        }
      }
    }

    /** One turn of the loop. */
    method WriteOne(f: FlowRecord, now: int) returns (r: Result<nat>, ghost pick: Pick)
      requires State().Valid()
      modifies this
      ensures var e := Step(inet, old(State()), f, now, pick);
        State() == e.db && r == Outcome(e)
    {
      pick := Returned(0);
      if f.local.addr == "127.0.0.1" || f.local.addr == "::1" || f.peer.addr == "127.0.0.1" || f.peer.addr == "::1" {
        return Ok(0), pick;
      }
      var pgid, pname := 0, "";
      if f.process.Some? {
        pgid, pname := f.process.value.pgid, f.process.value.name;
      }
      InsertProcessKeeps(State(), inet(f.local.addr), pgid, pname, now);
      r := InsertProcess(inet(f.local.addr), pgid, pname, now);
      if r.Ok? {
        if f.direction == FlowPassive {
          r, pick := WritePassive(r.value, f, now);
        } else if f.direction == FlowActive {
          r, pick := WriteActive(r.value, f, now);
        }
      }
    }

    method Rollback(saved: Cmdb)
      modifies this
      ensures State() == old(State()).RolledBack(saved)
    {
      processes, active := Table(saved.processes.rows, processes.next), Table(saved.active.rows, active.next);
      passive, flows := Table(saved.passive.rows, passive.next), Table(saved.flows.rows, flows.next);
    }

    /** One transaction at time now; the error is the first failing statement's. The requests are
        the flows with the row choices the server made for them. */
    method InsertOrUpdateHostFlows(hostFlows: seq<HostFlow>, now: int)
      returns (err: Option<SqlError>, ghost requests: seq<Request>)
      requires State().Valid()
      modifies this
      ensures AreRequests(requests, hostFlows)
      ensures State() == Apply(inet, old(State()), Batch(now, requests)) && State().Valid()
      ensures err.None? <==> Commits(inet, old(State()), Batch(now, requests))
    {
      requests, err := [], None;
      ghost var start := State();
      NothingWritten(inet, start, now);
      if |hostFlows| < 1 {
        return;
      }
      hide Fold, Written, Commits, Apply, Cmdb.Valid;
      var saved := State();
      for i := 0 to |hostFlows|
        invariant AreRequests(requests, hostFlows[..i]) && State().Valid()
        invariant Written(inet, saved, requests, now, State(), None)
      {
        var failure, q := WriteNext(saved, requests, hostFlows[i], now);
        requests := requests + [q];
        if failure.Some? {
          requests := Abort(saved, requests, hostFlows, now, failure);
          return failure, requests;
        }
      }
      AllWritten(inet, start, requests, now, State());
    }

    method WriteNext(ghost saved: Cmdb, ghost requests: seq<Request>, flow: HostFlow, now: int)
      returns (failure: Option<SqlError>, ghost q: Request)
      requires saved.Valid() && State().Valid() && Written(inet, saved, requests, now, State(), None)
      modifies this
      ensures q.flow == flow.Record()
      ensures State().Valid() && Written(inet, saved, requests + [q], now, State(), failure)
    {
      var r, pick := WriteOne(flow.Record(), now);
      q, failure := Request(flow.Record(), pick), ErrorOf(r);
      StepDone(inet, saved, requests, q, now);
    }

    /** ROLLBACK after the last of the requests has failed. */
    method Abort(saved: Cmdb, ghost requests: seq<Request>, ghost hostFlows: seq<HostFlow>, now: int, ghost failure: Option<SqlError>)
      returns (ghost all: seq<Request>)
      requires saved.Valid() && failure.Some? && Written(inet, saved, requests, now, State(), failure)
      requires 0 < |requests| <= |hostFlows| && AreRequests(requests, hostFlows[..|requests|])
      modifies this
      ensures AreRequests(all, hostFlows) && State().Valid()
      ensures State() == Apply(inet, saved, Batch(now, all)) && !Commits(inet, saved, Batch(now, all))
    {
      all := WithRest(requests, hostFlows);
      FailedFold(inet, saved, all, now, |requests| - 1);
      CommitsIffAllAccepted(inet, saved, Batch(now, all));
      Rollback(saved);
    }

    /** The query, and the loop over its rows. */
    method Select(side: Side, wanted: Wanted, since: int, until: int) returns (result: map<string, seq<Flow>>)
      requires State().Valid()
      ensures var rows := Qualifying(State(), side, wanted, since, until);
        AllV4(State(), side, rows) && LatestPerGroup(State(), side, rows, result)
    {
      var db, rows := State(), Qualifying(State(), side, wanted, since, until);
      var answer := DistinctOn(GroupColumn(db, side, rows), StampColumn(db, rows));
      DistinctOnAnswers(db, side, rows, answer);
      var entries := RowsOf(db, side, answer);
      result := CollectRows(entries);
      FindIsLatestPerGroup(db, side, rows, answer, entries);
    }

    /** FindActiveFlows and FindPassiveFlows; now is the clock. */
    method FindFlows(side: Side, cond: FindFlowsCond, now: int) returns (result: map<string, seq<Flow>>)
      requires State().Valid()
      modifies cond, cond.addrs
      ensures cond.addrs == old(cond.addrs) && cond.since == old(cond.since)
      ensures old(cond.addrs.Length) == 0 ==> result == map[]
      ensures old(cond.addrs.Length) > 0 ==>
        && cond.until == Some(if old(cond.until).Some? then old(cond.until).value else now)
        && forall i :: 0 <= i < cond.addrs.Length ==> cond.addrs[i] == To4(old(cond.addrs[i]))
      ensures old(cond.addrs.Length) > 0 ==>
        var rows := Qualifying(State(), side, WantedOf(cond.addrs[..]), cond.since, cond.until.value);
        AllV4(State(), side, rows) && LatestPerGroup(State(), side, rows, result)
      ensures Answered(State(), side, old(cond.addrs[..]), old(cond.since), if old(cond.until).Some? then old(cond.until).value else now, result)
    {
      hide Qualifying, LatestPerGroup, AllV4, Answered, Cmdb.Valid, WantedOf;
      if cond.addrs.Length < 1 {
        assert cond.addrs[..] == [];
        NothingAsked(State(), side, cond.since, if cond.until.Some? then cond.until.value else now);
        return map[];
      }
      if cond.until.None? {
        cond.until := Some(now);
      }
      NormaliseAddrs(cond.addrs);
      result := Select(side, WantedOf(cond.addrs[..]), cond.since, cond.until.value);
      WantedFromTo4(old(cond.addrs[..]), cond.addrs[..]);
      AnsweredByLatest(State(), side, old(cond.addrs[..]), WantedOf(cond.addrs[..]), cond.since, cond.until.value, result);
    }
  }

  lemma NothingAsked(db: Cmdb, side: Side, since: int, until: int)
    requires db.Valid()
    ensures Answered(db, side, [], since, until, map[])
  {
  }

  /** The loop that replaces each address by its four bytes. */
  method NormaliseAddrs(addrs: array<NetIP>)
    modifies addrs
    ensures forall i :: 0 <= i < addrs.Length ==> addrs[i] == To4(old(addrs[i]))
  {
    for i := 0 to addrs.Length
      invariant forall j :: 0 <= j < i ==> addrs[j] == To4(old(addrs[j]))
      invariant forall j :: i <= j < addrs.Length ==> addrs[j] == old(addrs[j])
    {
      addrs[i] := To4(addrs[i]);
    }
  }

  function RowsOf(db: Cmdb, side: Side, answer: seq<nat>): (entries: seq<Entry>)
    requires db.Valid() && forall i :: 0 <= i < |answer| ==> IsV4(db, side, answer[i])
    ensures Scanned(db, side, answer, entries)
  {
    seq(|answer|, i requires 0 <= i < |answer| => Entry(KeyOf(db, side, answer[i]), FlowOf(db, answer[i])))
  }

  /** The loop over rows.Next(). */
  method CollectRows(entries: seq<Entry>) returns (result: map<string, seq<Flow>>)
    ensures result == Collected(entries)
  {
    result := map[];
    for i := 0 to |entries|
      invariant result == Collected(entries[..i])
    {
      var e := entries[i];
      assert entries[..i + 1][..i] == entries[..i];
      result := result[e.key := (if e.key in result then result[e.key] else []) + [e.flow]];
    }
    assert entries[..|entries|] == entries;
  }

  ghost predicate NewestBy(groups: map<nat, Group>, stamps: map<nat, int>, id: nat)
    requires groups.Keys == stamps.Keys && id in groups
  {
    forall j :: j in groups && groups[j] == groups[id] ==> stamps[j] <= stamps[id]
  }

  /** A latest row of id's group. */
  method Newest(groups: map<nat, Group>, stamps: map<nat, int>, id: nat) returns (best: nat)
    requires groups.Keys == stamps.Keys && id in groups
    ensures best in groups && groups[best] == groups[id] && NewestBy(groups, stamps, best)
  {
    best := id;
    var todo := groups.Keys;
    while todo != {}
      invariant todo <= groups.Keys && best in groups && groups[best] == groups[id]
      invariant forall j :: j in groups.Keys - todo && groups[j] == groups[id] ==> stamps[j] <= stamps[best]
      decreases |todo|
    {
      var j :| j in todo;
      if groups[j] == groups[id] && stamps[best] < stamps[j] {
        best := j;
      }
      todo := todo - {j};
    }
  }

  ghost predicate Shows(groups: map<nat, Group>, answer: seq<nat>, g: Group) {
    exists i :: 0 <= i < |answer| && answer[i] in groups && groups[answer[i]] == g
  }

  /** The server's side of the query, on the group and the stamp of each qualifying row. */
  method DistinctOn(groups: map<nat, Group>, stamps: map<nat, int>) returns (answer: seq<nat>)
    requires groups.Keys == stamps.Keys
    ensures forall i :: 0 <= i < |answer| ==> answer[i] in groups && NewestBy(groups, stamps, answer[i])
    ensures forall i, j :: 0 <= i < j < |answer| ==> groups[answer[i]] != groups[answer[j]]
    ensures forall id :: id in groups ==> Shows(groups, answer, groups[id])
  {
    answer := [];
    var left := groups.Keys;
    while left != {}
      invariant left <= groups.Keys
      invariant forall i :: 0 <= i < |answer| ==> answer[i] in groups && NewestBy(groups, stamps, answer[i])
      invariant forall i, j :: 0 <= i < j < |answer| ==> groups[answer[i]] != groups[answer[j]]
      invariant forall i, id :: 0 <= i < |answer| && id in left ==> groups[answer[i]] != groups[id]
      invariant forall id :: id in groups.Keys - left ==> Shows(groups, answer, groups[id])
      decreases |left|
    {
      var id :| id in left;
      var best := Newest(groups, stamps, id);
      ghost var earlier, before := answer, left;
      answer := answer + [best];
      left := set j | j in left && groups[j] != groups[id];
      assert answer[|earlier|] == best;
      forall g | Shows(groups, earlier, g) ensures Shows(groups, answer, g) {
        var i :| 0 <= i < |earlier| && earlier[i] in groups && groups[earlier[i]] == g;
        assert answer[i] == earlier[i];
      }
      assert left <= before - {id};
      Saturation.SubsetSize(left, before - {id});
    }
  }

  /** The two columns DISTINCT ON and ORDER BY look at. */
  function GroupColumn(db: Cmdb, side: Side, rows: set<nat>): map<nat, Group>
    requires db.Valid() && rows <= db.flows.rows.Keys
  {
    map id | id in rows :: GroupOf(db, side, id)
  }

  function StampColumn(db: Cmdb, rows: set<nat>): map<nat, int>
    requires rows <= db.flows.rows.Keys
  {
    map id | id in rows :: db.flows.rows[id].cols.updated
  }

  lemma ShownInColumn(db: Cmdb, side: Side, rows: set<nat>, answer: seq<nat>, id: nat)
    requires db.Valid() && rows <= db.flows.rows.Keys && id in rows
    requires Shows(GroupColumn(db, side, rows), answer, GroupOf(db, side, id))
    ensures Shown(db, side, answer, GroupOf(db, side, id))
  {
    hide Cmdb.Valid;
    var groups := GroupColumn(db, side, rows);
    var i :| 0 <= i < |answer| && answer[i] in groups && groups[answer[i]] == GroupOf(db, side, id);
    assert GroupOf(db, side, answer[i]) == GroupOf(db, side, id);
  }

  lemma NewestInColumns(db: Cmdb, side: Side, rows: set<nat>, id: nat)
    requires db.Valid() && rows <= db.flows.rows.Keys && id in rows
    requires NewestBy(GroupColumn(db, side, rows), StampColumn(db, rows), id)
    ensures Latest(db, side, rows, id)
  {
    hide Cmdb.Valid;
    forall j | j in rows && GroupOf(db, side, j) == GroupOf(db, side, id)
      ensures db.flows.rows[j].cols.updated <= db.flows.rows[id].cols.updated
    {
      assert GroupColumn(db, side, rows)[j] == GroupColumn(db, side, rows)[id];
    }
  }

  lemma DistinctOnAnswers(db: Cmdb, side: Side, rows: set<nat>, answer: seq<nat>)
    requires db.Valid() && rows <= db.flows.rows.Keys
    requires var groups, stamps := GroupColumn(db, side, rows), StampColumn(db, rows);
      && (forall i :: 0 <= i < |answer| ==> answer[i] in groups && NewestBy(groups, stamps, answer[i]))
      && (forall i, j :: 0 <= i < j < |answer| ==> groups[answer[i]] != groups[answer[j]])
      && (forall id :: id in groups ==> Shows(groups, answer, groups[id]))
    ensures Answers(db, side, rows, answer)
  {
    hide Cmdb.Valid, GroupOf, Shown, Shows, NewestBy, Latest;
    var groups := GroupColumn(db, side, rows);
    forall id | id in rows ensures Shown(db, side, answer, GroupOf(db, side, id)) {
      assert id in groups;
      ShownInColumn(db, side, rows, answer, id);
    }
    forall i | 0 <= i < |answer| ensures Latest(db, side, rows, answer[i]) {
      NewestInColumns(db, side, rows, answer[i]);
    }
  }

  lemma StepDone(inet: InetParser, db: Cmdb, rs: seq<Request>, q: Request, now: int)
    requires db.Valid() && Fold(inet, db, rs, now).Done?
    ensures var e := Step(inet, Fold(inet, db, rs, now).db, q.flow, now, q.pick);
      Fold(inet, db, rs + [q], now) == e && e.db.Valid()
  {
    hide Step, Cmdb.Valid, Cmdb.Extends;
    assert (rs + [q])[..|rs|] == rs;
    FoldKeeps(inet, db, rs, now);
    StepKeeps(inet, Fold(inet, db, rs, now).db, q.flow, now, q.pick);
  }

  /** db is where the transaction that began at saved stands after rs. */
  ghost predicate Written(inet: InetParser, saved: Cmdb, rs: seq<Request>, now: int, db: Cmdb, failure: Option<SqlError>) {
    Fold(inet, saved, rs, now).db == db && ErrorOf(Outcome(Fold(inet, saved, rs, now))) == failure
  }

  lemma NothingWritten(inet: InetParser, db: Cmdb, now: int)
    ensures Written(inet, db, [], now, db, None)
    ensures Commits(inet, db, Batch(now, [])) && Apply(inet, db, Batch(now, [])) == db
  {
  }

  lemma AllWritten(inet: InetParser, saved: Cmdb, rs: seq<Request>, now: int, db: Cmdb)
    requires Written(inet, saved, rs, now, db, None)
    ensures Commits(inet, saved, Batch(now, rs)) && Apply(inet, saved, Batch(now, rs)) == db
  {
  }

  /** The flows of a batch, each with some pick. */
  ghost predicate AreRequests(requests: seq<Request>, hostFlows: seq<HostFlow>)
    reads hostFlows
  {
    |requests| == |hostFlows| && forall i :: 0 <= i < |requests| ==> requests[i].flow == hostFlows[i].Record()
  }

  /** Flows that the transaction never got to may have any pick. */
  ghost function WithRest(rs: seq<Request>, hostFlows: seq<HostFlow>): (all: seq<Request>)
    requires |rs| <= |hostFlows| && AreRequests(rs, hostFlows[..|rs|])
    reads hostFlows
    ensures AreRequests(all, hostFlows) && all[..|rs|] == rs
    decreases |hostFlows| - |rs|
  {
    if |rs| == |hostFlows| then rs
    else WithRest(rs + [Request(hostFlows[|rs|].Record(), Returned(0))], hostFlows)
  }

  /** Once a flow fails, the rest of the batch is not looked at. */
  lemma {:induction false} FailedFold(inet: InetParser, db: Cmdb, rs: seq<Request>, now: int, i: nat)
    requires i < |rs| && Fold(inet, db, rs[..i + 1], now).Failed?
    ensures Fold(inet, db, rs, now) == Fold(inet, db, rs[..i + 1], now)
  {
    hide Step;
    var n := |rs| - 1;
    if i < n {
      assert rs[..n][..i + 1] == rs[..i + 1];
      FailedFold(inet, db, rs[..n], now, i);
    } else {
      assert rs[..i + 1] == rs;
    }
  }
}

/** The read side of the CMDB: FindPassiveFlows and FindActiveFlows of db/db.go. The two queries
    are the same join, filter and DISTINCT ON with the sides exchanged. */
module Queries {
  import opened Options
  import opened Text
  import opened Inet
  import opened Probe
  import opened Store
  import opened Invariant
  import Provenance

  /** The side of a flow whose address is asked for and whose process names the group. */
  datatype Side = ActiveSide | PassiveSide

  datatype Node = Node(ip: Inet, port: int, pgid: int, pname: string)

  datatype Flow = Flow(active: Node, passive: Node, connections: int)

  datatype Group = Group(ip: Inet, pname: string)

  /** An address of the condition, after To4: None stands for an address that is not IPv4. */
  type Wanted = seq<Option<IPv4>>

  function NearProcess(db: Cmdb, side: Side, id: nat): ProcessKey
    requires db.Valid() && id in db.flows.rows
  {
    var k := db.flows.rows[id].key;
    if side.ActiveSide? then db.ActiveProcess(k.source) else db.PassiveProcess(k.destination)
  }

  function GroupOf(db: Cmdb, side: Side, id: nat): Group
    requires db.Valid() && id in db.flows.rows
  {
    Group(NearProcess(db, side, id).ipv4, NearProcess(db, side, id).pname)
  }

  predicate Matches(addrs: Wanted, ip: Inet) {
    ip.V4? && Some(ip.ip) in addrs
  }

  /** The joined rows that pass both WHERE clauses, by flow id. */
  function Qualifying(db: Cmdb, side: Side, addrs: Wanted, since: int, until: int): set<nat>
    requires db.Valid()
  {
    set id | id in db.flows.rows && Matches(addrs, NearProcess(db, side, id).ipv4) &&
             since <= db.flows.rows[id].cols.updated <= until
  }

  /** No row of the same group is newer. */
  ghost predicate Latest(db: Cmdb, side: Side, rows: set<nat>, id: nat)
    requires db.Valid() && rows <= db.flows.rows.Keys && id in rows
  {
    forall j :: j in rows && GroupOf(db, side, j) == GroupOf(db, side, id) ==>
      db.flows.rows[j].cols.updated <= db.flows.rows[id].cols.updated
  }

  ghost predicate Shown(db: Cmdb, side: Side, answer: seq<nat>, g: Group)
    requires db.Valid()
  {
    exists i :: 0 <= i < |answer| && answer[i] in db.flows.rows && GroupOf(db, side, answer[i]) == g
  }

  /** SELECT DISTINCT ON (ip, pname) ... ORDER BY ip, pname, updated DESC: one row for each
      group, of the latest; between equally late rows the choice is the server's. */
  ghost predicate Answers(db: Cmdb, side: Side, rows: set<nat>, answer: seq<nat>)
    requires db.Valid() && rows <= db.flows.rows.Keys
  {
    && (forall i :: 0 <= i < |answer| ==> answer[i] in rows && Latest(db, side, rows, answer[i]))
    && (forall i, j :: 0 <= i < j < |answer| ==> GroupOf(db, side, answer[i]) != GroupOf(db, side, answer[j]))
    && (forall id :: id in rows ==> Shown(db, side, answer, GroupOf(db, side, id)))
  }

  /** The map key, "%s-%s" of the address and the process name. */
  function GroupKey(ip: IPv4, pname: string): string {
    Joined([DottedQuad(ip), pname], '-')
  }

  lemma GroupKeyInjective(ip: IPv4, pname: string, ip': IPv4, pname': string)
    ensures GroupKey(ip, pname) == GroupKey(ip', pname') <==> ip == ip' && pname == pname'
  {
    if GroupKey(ip, pname) == GroupKey(ip', pname') {
      JoinedDigits(Octets(ip));
      JoinedDigits(Octets(ip'));
      JoinedInjective([DottedQuad(ip), pname], [DottedQuad(ip'), pname'], '-');
      assert [DottedQuad(ip), pname][0] == [DottedQuad(ip'), pname'][0];
      assert [DottedQuad(ip), pname][1] == [DottedQuad(ip'), pname'][1];
      DottedQuadInjective(ip, ip');
    }
  }

  function FlowOf(db: Cmdb, id: nat): Flow
    requires db.Valid() && id in db.flows.rows
  {
    var k := db.flows.rows[id].key;
    var a, p := db.ActiveProcess(k.source), db.PassiveProcess(k.destination);
    Flow(Node(a.ipv4, 0, a.pgid, a.pname),
         Node(p.ipv4, db.passive.rows[k.destination].key.port, p.pgid, p.pname),
         db.flows.rows[id].cols.connections)
  }

  ghost predicate IsV4(db: Cmdb, side: Side, id: nat)
    requires db.Valid()
  {
    id in db.flows.rows && NearProcess(db, side, id).ipv4.V4?
  }

  function KeyOf(db: Cmdb, side: Side, id: nat): string
    requires db.Valid() && IsV4(db, side, id)
  {
    GroupKey(NearProcess(db, side, id).ipv4.ip, NearProcess(db, side, id).pname)
  }

  /** Rows qualify on IPv4 addresses only, whatever the column holds. */
  ghost predicate AllV4(db: Cmdb, side: Side, rows: set<nat>)
    requires db.Valid()
  {
    forall id :: id in rows ==> IsV4(db, side, id)
  }

  /** Each group of the qualifying rows has an entry, each entry is for a group, and it is a list
      of exactly one flow, a latest of its group. */
  ghost predicate LatestPerGroup(db: Cmdb, side: Side, rows: set<nat>, result: map<string, seq<Flow>>)
    requires db.Valid() && AllV4(db, side, rows)
  {
    && (forall id :: id in rows ==> KeyOf(db, side, id) in result)
    && (forall key :: key in result ==>
          exists id :: id in rows && KeyOf(db, side, id) == key && Latest(db, side, rows, id) &&
            result[key] == [FlowOf(db, id)])
  }

  datatype Entry = Entry(key: string, flow: Flow)

  /** What the loop over the answer's rows builds: each flow is appended under its key. */
  function Collected(entries: seq<Entry>): map<string, seq<Flow>> {
    if entries == [] then map[]
    else
      var n := |entries| - 1;
      var m, e := Collected(entries[..n]), entries[n];
      m[e.key := (if e.key in m then m[e.key] else []) + [e.flow]]
  }

  lemma CollectedOneMore(front: seq<Entry>, e: Entry)
    ensures var m := Collected(front);
      Collected(front + [e]) == m[e.key := (if e.key in m then m[e.key] else []) + [e.flow]]
  {
    assert (front + [e])[..|front|] == front;
  }

  /** m lists exactly the entries, each alone under its key. */
  ghost predicate ListsEach(entries: seq<Entry>, m: map<string, seq<Flow>>) {
    && (forall i :: 0 <= i < |entries| ==> entries[i].key in m && m[entries[i].key] == [entries[i].flow])
    && (forall key :: key in m ==> exists i :: 0 <= i < |entries| && entries[i].key == key)
  }

  lemma ListsOneMore(front: seq<Entry>, m: map<string, seq<Flow>>, e: Entry)
    requires ListsEach(front, m) && forall i :: 0 <= i < |front| ==> front[i].key != e.key
    ensures e.key !in m && ListsEach(front + [e], m[e.key := [e.flow]])
  {
    var entries, more := front + [e], m[e.key := [e.flow]];
    assert entries[|front|] == e && forall i :: 0 <= i < |front| ==> entries[i] == front[i];
    forall key | key in more ensures exists i :: 0 <= i < |entries| && entries[i].key == key {
      if key != e.key {
        var i :| 0 <= i < |front| && front[i].key == key;
        assert entries[i].key == key;
      }
    }
  }

  lemma {:induction false} CollectedDistinct(entries: seq<Entry>)
    requires forall i, j :: 0 <= i < j < |entries| ==> entries[i].key != entries[j].key
    ensures ListsEach(entries, Collected(entries))
  {
    if entries != [] {
      hide ListsEach, Collected;
      var n := |entries| - 1;
      var front, e := entries[..n], entries[n];
      assert entries == front + [e];
      CollectedDistinct(front);
      CollectedOneMore(front, e);
      ListsOneMore(front, Collected(front), e);
      assert [] + [e.flow] == [e.flow];
    }
  }

  /** entries is the answer, row by row. */
  ghost predicate Scanned(db: Cmdb, side: Side, answer: seq<nat>, entries: seq<Entry>)
    requires db.Valid() && forall i :: 0 <= i < |answer| ==> IsV4(db, side, answer[i])
  {
    && |entries| == |answer|
    && forall i :: 0 <= i < |answer| ==>
         entries[i].key == KeyOf(db, side, answer[i]) && entries[i].flow == FlowOf(db, answer[i])
  }

  lemma SameKeySameGroup(db: Cmdb, side: Side, i: nat, j: nat)
    requires db.Valid() && IsV4(db, side, i) && IsV4(db, side, j)
    ensures KeyOf(db, side, i) == KeyOf(db, side, j) <==> GroupOf(db, side, i) == GroupOf(db, side, j)
  {
    var p, q := NearProcess(db, side, i), NearProcess(db, side, j);
    GroupKeyInjective(p.ipv4.ip, p.pname, q.ipv4.ip, q.pname);
  }

  lemma AnswerFor(db: Cmdb, side: Side, rows: set<nat>, answer: seq<nat>, id: nat) returns (i: nat)
    requires db.Valid() && rows <= db.flows.rows.Keys && Answers(db, side, rows, answer) && id in rows
    ensures i < |answer| && answer[i] in rows && GroupOf(db, side, answer[i]) == GroupOf(db, side, id)
  {
    assert Shown(db, side, answer, GroupOf(db, side, id));
    i :| 0 <= i < |answer| && answer[i] in db.flows.rows && GroupOf(db, side, answer[i]) == GroupOf(db, side, id);
  }

  lemma AnswerKeysDistinct(db: Cmdb, side: Side, rows: set<nat>, answer: seq<nat>, entries: seq<Entry>)
    requires db.Valid() && AllV4(db, side, rows) && rows <= db.flows.rows.Keys && Answers(db, side, rows, answer)
    requires forall i :: 0 <= i < |answer| ==> IsV4(db, side, answer[i])
    requires Scanned(db, side, answer, entries)
    ensures forall i, j :: 0 <= i < j < |entries| ==> entries[i].key != entries[j].key
  {
    forall i, j | 0 <= i < j < |entries| ensures entries[i].key != entries[j].key {
      hide GroupOf, KeyOf, Cmdb.Valid, IsV4;
      SameKeySameGroup(db, side, answer[i], answer[j]);
    }
  }

  lemma EveryGroupShown(db: Cmdb, side: Side, rows: set<nat>, answer: seq<nat>, entries: seq<Entry>, id: nat)
    requires db.Valid() && AllV4(db, side, rows) && rows <= db.flows.rows.Keys && Answers(db, side, rows, answer)
    requires forall i :: 0 <= i < |answer| ==> IsV4(db, side, answer[i])
    requires Scanned(db, side, answer, entries)
    requires id in rows
    ensures IsV4(db, side, id) && KeyOf(db, side, id) in Collected(entries)
  {
    AnswerKeysDistinct(db, side, rows, answer, entries);
    CollectedDistinct(entries);
    var i := AnswerFor(db, side, rows, answer, id);
    hide Cmdb.Valid, GroupOf, KeyOf, IsV4, Answers;
    SameKeySameGroup(db, side, answer[i], id);
    assert entries[i].key in Collected(entries);
  }

  lemma EveryEntryLatest(db: Cmdb, side: Side, rows: set<nat>, answer: seq<nat>, entries: seq<Entry>, key: string)
    returns (id: nat)
    requires db.Valid() && AllV4(db, side, rows) && rows <= db.flows.rows.Keys && Answers(db, side, rows, answer)
    requires forall i :: 0 <= i < |answer| ==> IsV4(db, side, answer[i])
    requires Scanned(db, side, answer, entries)
    requires key in Collected(entries)
    ensures id in rows && IsV4(db, side, id) && KeyOf(db, side, id) == key && Latest(db, side, rows, id)
    ensures Collected(entries)[key] == [FlowOf(db, id)]
  {
    AnswerKeysDistinct(db, side, rows, answer, entries);
    CollectedDistinct(entries);
    hide Cmdb.Valid, GroupOf, KeyOf, FlowOf, IsV4, Latest;
    var i :| 0 <= i < |entries| && entries[i].key == key;
    id := answer[i];
  }

  /** However the server orders the groups and breaks ties, the finds return latest-per-group. */
  lemma FindIsLatestPerGroup(db: Cmdb, side: Side, rows: set<nat>, answer: seq<nat>, entries: seq<Entry>)
    requires db.Valid() && AllV4(db, side, rows) && rows <= db.flows.rows.Keys && Answers(db, side, rows, answer)
    requires forall i :: 0 <= i < |answer| ==> IsV4(db, side, answer[i])
    requires Scanned(db, side, answer, entries)
    ensures LatestPerGroup(db, side, rows, Collected(entries))
  {
    var result := Collected(entries);
    forall id | id in rows ensures KeyOf(db, side, id) in result {
      EveryGroupShown(db, side, rows, answer, entries, id);
    }
    hide Cmdb.Valid, KeyOf, FlowOf, IsV4, Latest, Answers, Scanned;
    forall key | key in result
      ensures exists id :: id in rows && KeyOf(db, side, id) == key && Latest(db, side, rows, id) && result[key] == [FlowOf(db, id)]
    {
      var id := EveryEntryLatest(db, side, rows, answer, entries, key);
    }
  }

  /** The flow a find shows for a row is the one its reporter described. */
  lemma FlowOfWitnessed(inet: InetParser, db: Cmdb, f: FlowRecord, id: nat)
    requires db.Valid() && id in db.flows.rows && Witnessed(inet, db, f, db.flows.rows[id].key)
    ensures var shown, peer, pname := FlowOf(db, id), inet(f.peer.addr).value, Varchar(Pname(f)).value;
      && shown.connections == db.flows.rows[id].cols.connections && shown.active.port == 0
      && if f.direction.FlowActive? then
           && shown.active == Node(inet(f.local.addr).value, 0, Pgid(f), pname)
           && shown.passive.ip == peer && shown.passive.port == ParseInt32(f.peer.port).value
         else
           && shown.passive == Node(inet(f.local.addr).value, ParseInt32(f.local.port).value, Pgid(f), pname)
           && shown.active.ip == peer
  {
  }

  /* ----- What a find answers, on its arguments ----- */

  /** ip is asked for: as four bytes, or mapped into sixteen. */
  ghost predicate AsksFor(addrs: seq<NetIP>, ip: IPv4) {
    exists i :: 0 <= i < |addrs| &&
      (|| addrs[i] == [ip.a, ip.b, ip.c, ip.d]
       || addrs[i] == [0, 0, 0, 0, 0, 0, 0, 0, 0, 0, 255, 255, ip.a, ip.b, ip.c, ip.d])
  }

  /** Row id was updated in the asked time, and its process on the asked side, key, has an asked
      address, ip. */
  ghost predicate Asked(db: Cmdb, side: Side, addrs: seq<NetIP>, since: int, until: int, id: nat, key: ProcessKey, ip: IPv4)
    requires db.Valid()
  {
    && id in db.flows.rows && since <= db.flows.rows[id].cols.updated <= until
    && key == (match side
               case ActiveSide => db.ActiveProcess(db.flows.rows[id].key.source)
               case PassiveSide => db.PassiveProcess(db.flows.rows[id].key.destination))
    && key.ipv4 == V4(ip) && AsksFor(addrs, ip)
  }

  /** Row id is a latest of the asked rows of its address and process name, and `shown` shows it. */
  ghost predicate ShowsLatest(db: Cmdb, side: Side, addrs: seq<NetIP>, since: int, until: int, text: string, shown: seq<Flow>, id: nat)
    requires db.Valid()
  {
    exists key: ProcessKey, ip ::
      && Asked(db, side, addrs, since, until, id, key, ip)
      && text == DottedQuad(ip) + "-" + key.pname
      && (forall j, other :: Asked(db, side, addrs, since, until, j, other, ip) && other.pname == key.pname ==>
            db.flows.rows[j].cols.updated <= db.flows.rows[id].cols.updated)
      && var a, n := db.flows.rows[id].key.source, db.flows.rows[id].key.destination;
      shown == [Flow(Node(db.ActiveProcess(a).ipv4, 0, db.ActiveProcess(a).pgid, db.ActiveProcess(a).pname),
                     Node(db.PassiveProcess(n).ipv4, db.passive.rows[n].key.port, db.PassiveProcess(n).pgid, db.PassiveProcess(n).pname),
                     db.flows.rows[id].cols.connections)]
  }

  /** Every entry shows an asked row, a latest of its group; every asked row's group has an entry. */
  ghost predicate Answered(db: Cmdb, side: Side, addrs: seq<NetIP>, since: int, until: int, result: map<string, seq<Flow>>)
    requires db.Valid()
  {
    && (forall text :: text in result ==> exists id :: ShowsLatest(db, side, addrs, since, until, text, result[text], id))
    && (forall id, key, ip :: Asked(db, side, addrs, since, until, id, key, ip) ==> DottedQuad(ip) + "-" + key.pname in result)
  }

  /** wanted is what To4 leaves of addrs. */
  ghost predicate WantedFrom(addrs: seq<NetIP>, wanted: Wanted) {
    forall ip :: Some(ip) in wanted <==> AsksFor(addrs, ip)
  }

  lemma QualifyingIsAsked(db: Cmdb, side: Side, addrs: seq<NetIP>, wanted: Wanted, since: int, until: int, id: nat)
    requires db.Valid() && WantedFrom(addrs, wanted)
    ensures id in Qualifying(db, side, wanted, since, until) <==>
      exists key, ip :: Asked(db, side, addrs, since, until, id, key, ip)
    ensures id in Qualifying(db, side, wanted, since, until) ==>
      IsV4(db, side, id) && Asked(db, side, addrs, since, until, id, NearProcess(db, side, id), NearProcess(db, side, id).ipv4.ip)
    ensures forall key, ip :: Asked(db, side, addrs, since, until, id, key, ip) ==>
      id in Qualifying(db, side, wanted, since, until) && key == NearProcess(db, side, id) && key.ipv4 == V4(ip)
  {
    hide Cmdb.Valid, AsksFor, Cmdb.ActiveProcess, Cmdb.PassiveProcess;
    if id in Qualifying(db, side, wanted, since, until) {
      assert Asked(db, side, addrs, since, until, id, NearProcess(db, side, id), NearProcess(db, side, id).ipv4.ip);
    }
  }

  lemma GroupKeyText(ip: IPv4, pname: string)
    ensures GroupKey(ip, pname) == DottedQuad(ip) + "-" + pname
  {
    var parts := [DottedQuad(ip), pname];
    assert parts[1..] == [pname] && Joined(parts[1..], '-') == pname;
    assert Joined(parts, '-') == parts[0] + ['-'] + Joined(parts[1..], '-');
  }

  lemma LatestShows(db: Cmdb, side: Side, addrs: seq<NetIP>, wanted: Wanted, since: int, until: int, id: nat)
    requires db.Valid() && WantedFrom(addrs, wanted)
    requires var rows := Qualifying(db, side, wanted, since, until); id in rows && Latest(db, side, rows, id)
    ensures IsV4(db, side, id) && ShowsLatest(db, side, addrs, since, until, KeyOf(db, side, id), [FlowOf(db, id)], id)
  {
    var near := NearProcess(db, side, id);
    QualifyingIsAsked(db, side, addrs, wanted, since, until, id);
    var ip := near.ipv4.ip;
    GroupKeyText(ip, near.pname);
    forall j, other: ProcessKey | Asked(db, side, addrs, since, until, j, other, ip) && other.pname == near.pname
      ensures db.flows.rows[j].cols.updated <= db.flows.rows[id].cols.updated
    {
      QualifyingIsAsked(db, side, addrs, wanted, since, until, j);
      assert GroupOf(db, side, j) == GroupOf(db, side, id);
    }
    hide Asked, Cmdb.Valid, NearProcess, FlowOf, GroupKey, AsksFor;
    assert Asked(db, side, addrs, since, until, id, near, ip);
  }

  lemma AnsweredByLatest(db: Cmdb, side: Side, addrs: seq<NetIP>, wanted: Wanted, since: int, until: int, result: map<string, seq<Flow>>)
    requires db.Valid() && WantedFrom(addrs, wanted)
    requires var rows := Qualifying(db, side, wanted, since, until);
      AllV4(db, side, rows) && LatestPerGroup(db, side, rows, result)
    ensures Answered(db, side, addrs, since, until, result)
  {
    var rows := Qualifying(db, side, wanted, since, until);
    hide Cmdb.Valid, Qualifying, Asked, ShowsLatest, KeyOf, FlowOf, Latest, NearProcess, WantedFrom, IsV4, GroupKey, DottedQuad;
    forall text | text in result
      ensures exists id :: ShowsLatest(db, side, addrs, since, until, text, result[text], id)
    {
      var id :| id in rows && KeyOf(db, side, id) == text && Latest(db, side, rows, id) && result[text] == [FlowOf(db, id)];
      LatestShows(db, side, addrs, wanted, since, until, id);
    }
    forall id, key: ProcessKey, ip | Asked(db, side, addrs, since, until, id, key, ip)
      ensures DottedQuad(ip) + "-" + key.pname in result
    {
      AskedHasKey(db, side, addrs, wanted, since, until, id, key, ip);
    }
  }

  lemma AskedHasKey(db: Cmdb, side: Side, addrs: seq<NetIP>, wanted: Wanted, since: int, until: int, id: nat, key: ProcessKey, ip: IPv4)
    requires db.Valid() && WantedFrom(addrs, wanted) && Asked(db, side, addrs, since, until, id, key, ip)
    ensures id in Qualifying(db, side, wanted, since, until) && IsV4(db, side, id)
    ensures KeyOf(db, side, id) == DottedQuad(ip) + "-" + key.pname
  {
    QualifyingIsAsked(db, side, addrs, wanted, since, until, id);
    KeyOfText(db, side, id, ip);
  }

  lemma KeyOfText(db: Cmdb, side: Side, id: nat, ip: IPv4)
    requires db.Valid() && IsV4(db, side, id) && NearProcess(db, side, id).ipv4 == V4(ip)
    ensures KeyOf(db, side, id) == DottedQuad(ip) + "-" + NearProcess(db, side, id).pname
  {
    GroupKeyText(ip, NearProcess(db, side, id).pname);
  }

  /* ----- Read your writes ----- */

  /** f's row, stamped with the time of the batch being applied. */
  ghost predicate Stamped(inet: InetParser, db: Cmdb, f: FlowRecord, now: int, id: nat)
    requires db.Valid()
  {
    id in db.flows.rows && Witnessed(inet, db, f, db.flows.rows[id].key) && db.flows.rows[id].cols.updated == now
  }

  lemma StampedLater(inet: InetParser, db: Cmdb, f: FlowRecord, now: int, id: nat, q: Request)
    requires db.Valid() && Stamped(inet, db, f, now, id) && Step(inet, db, q.flow, now, q.pick).Done?
    ensures var db' := Step(inet, db, q.flow, now, q.pick).db;
      db'.Valid() && Stamped(inet, db', f, now, id)
  {
    var r := Step(inet, db, q.flow, now, q.pick);
    StepKeeps(inet, db, q.flow, now, q.pick);
    Provenance.StepFlows(inet, db, q.flow, now, q.pick);
    hide Step, WriteFlow;
    Provenance.WitnessedLater(inet, db, r.db, f, db.flows.rows[id].key);
    if r.db.flows != db.flows {
      WriteFlowKeeps(db.flows, r.db.flows.rows[r.id].key, q.flow.connections, now);
    }
  }

  lemma StampedNow(inet: InetParser, db: Cmdb, q: Request, now: int)
    requires db.Valid() && Step(inet, db, q.flow, now, q.pick).Done? && !Loopback(q.flow) && !q.flow.direction.FlowUnknown?
    ensures var r := Step(inet, db, q.flow, now, q.pick);
      r.db.Valid() && Stamped(inet, r.db, q.flow, now, r.id)
  {
    StepKeeps(inet, db, q.flow, now, q.pick);
    Provenance.StepFlows(inet, db, q.flow, now, q.pick);
    var r := Step(inet, db, q.flow, now, q.pick);
    hide Step, WriteFlow;
    WriteFlowKeeps(db.flows, r.db.flows.rows[r.id].key, q.flow.connections, now);
  }

  lemma {:induction false} FoldStamps(inet: InetParser, db: Cmdb, rs: seq<Request>, now: int, i: nat) returns (id: nat)
    requires db.Valid() && Fold(inet, db, rs, now).Done? && i < |rs|
    requires !Loopback(rs[i].flow) && !rs[i].flow.direction.FlowUnknown?
    ensures var db' := Fold(inet, db, rs, now).db;
      db'.Valid() && Stamped(inet, db', rs[i].flow, now, id)
  {
    hide Cmdb.Valid, Witnessed, Step, Legal;
    var n := |rs| - 1;
    FoldKeeps(inet, db, rs[..n], now);
    var before := Fold(inet, db, rs[..n], now).db;
    if i < n {
      id := FoldStamps(inet, db, rs[..n], now, i);
      StampedLater(inet, before, rs[i].flow, now, id, rs[n]);
    } else {
      StampedNow(inet, before, rs[n], now);
      id := Step(inet, before, rs[n].flow, now, rs[n].pick).id;
    }
  }

  function SideOf(f: FlowRecord): Side {
    if f.direction.FlowActive? then ActiveSide else PassiveSide
  }

  /** After a batch commits, a find over its time that asks for a flow's local address has a
      group for the flow's process, showing one flow that is at least as recent. */
  lemma ReadYourWrites(inet: InetParser, db: Cmdb, b: Batch, i: nat, ip: IPv4, addrs: Wanted, since: int, until: int,
                       db': Cmdb, f: FlowRecord, result: map<string, seq<Flow>>) returns (shown: nat)
    requires db.Valid() && Commits(inet, db, b) && db' == Apply(inet, db, b) && db'.Valid()
    requires i < |b.requests| && f == b.requests[i].flow && !Loopback(f) && !f.direction.FlowUnknown?
    requires inet(f.local.addr) == Some(V4(ip)) && Some(ip) in addrs && since <= b.now <= until
    requires LatestPerGroup(db', SideOf(f), Qualifying(db', SideOf(f), addrs, since, until), result)
    ensures Varchar(Pname(f)).Some? && GroupKey(ip, Varchar(Pname(f)).value) in result
    ensures shown in db'.flows.rows && db'.flows.rows[shown].cols.updated >= b.now
    ensures result[GroupKey(ip, Varchar(Pname(f)).value)] == [FlowOf(db', shown)]
    ensures GroupOf(db', SideOf(f), shown) == Group(V4(ip), Varchar(Pname(f)).value)
  {
    var side := SideOf(f);
    var rows := Qualifying(db', side, addrs, since, until);
    assert rows <= db'.flows.rows.Keys;
    assert Fold(inet, db, b.requests, b.now).Done? && db' == Fold(inet, db, b.requests, b.now).db;
    hide *;
    var id := FoldStamps(inet, db, b.requests, b.now, i);
    StampedQualifies(inet, db', f, b.now, id, ip, addrs, since, until);
    shown := EntryOf(db', side, rows, result, id);
  }

  /** The entry of a qualifying row's group shows a row of the group that is no older. */
  lemma EntryOf(db: Cmdb, side: Side, rows: set<nat>, result: map<string, seq<Flow>>, id: nat) returns (shown: nat)
    requires db.Valid() && AllV4(db, side, rows) && LatestPerGroup(db, side, rows, result)
    requires rows <= db.flows.rows.Keys && id in rows && IsV4(db, side, id)
    ensures KeyOf(db, side, id) in result && shown in rows && result[KeyOf(db, side, id)] == [FlowOf(db, shown)]
    ensures GroupOf(db, side, shown) == GroupOf(db, side, id)
    ensures db.flows.rows[shown].cols.updated >= db.flows.rows[id].cols.updated
  {
    hide Cmdb.Valid, NearProcess, KeyOf, GroupOf, GroupKey, FlowOf, IsV4;
    var key := KeyOf(db, side, id);
    shown :| shown in rows && KeyOf(db, side, shown) == key && Latest(db, side, rows, shown) && result[key] == [FlowOf(db, shown)];
    SameKeySameGroup(db, side, id, shown);
  }

  lemma StampedQualifies(inet: InetParser, db: Cmdb, f: FlowRecord, now: int, id: nat, ip: IPv4, addrs: Wanted, since: int, until: int)
    requires db.Valid() && Stamped(inet, db, f, now, id) && since <= now <= until
    requires inet(f.local.addr) == Some(V4(ip)) && Some(ip) in addrs
    ensures Varchar(Pname(f)).Some? && id in Qualifying(db, SideOf(f), addrs, since, until) && db.flows.rows[id].cols.updated == now
    ensures IsV4(db, SideOf(f), id) && KeyOf(db, SideOf(f), id) == GroupKey(ip, Varchar(Pname(f)).value)
    ensures GroupOf(db, SideOf(f), id) == Group(V4(ip), Varchar(Pname(f)).value)
  {
    assert NearProcess(db, SideOf(f), id) == LocalKey(inet, f);
  }
}

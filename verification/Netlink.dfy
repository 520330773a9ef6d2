/** From a list of TCP connections to host flows (probe/netlink/connections.go): the netlink
    builder, and the separately written procfs builder it falls back to. */
module Netlink {
  import opened Options
  import opened Text
  import opened Inet
  import opened Probe
  import opened PrivateIP

  const TCP_SYN_SENT := 2
  const TCP_SYN_RECV := 3
  const TCP_LISTEN := 10

  /** An inet_diag message of an IPv4 socket. */
  datatype Conn = Conn(src: IPv4, sport: nat, dst: IPv4, dport: nat, state: nat, inode: nat)

  /** What /proc/net/tcp tells about a socket. */
  datatype Addr = Addr(ip: string, port: nat)

  datatype ConnectionStat = ConnectionStat(laddr: Addr, raddr: Addr, status: nat)

  /** The owner of a socket, as far as flows need it. */
  datatype UserEnt = UserEnt(pname: string, pgrp: int)

  /** UserEnts by inode; None when processes were not asked for. */
  type UserEnts = Option<map<nat, UserEnt>>

  function Stat(c: Conn): ConnectionStat {
    ConnectionStat(Addr(DottedQuad(c.src), c.sport), Addr(DottedQuad(c.dst), c.dport), c.state)
  }

  function Stats(conns: seq<Conn>): seq<ConnectionStat> {
    seq(|conns|, i requires 0 <= i < |conns| => Stat(conns[i]))
  }

  /* ----- Listening ports ----- */

  predicate Wildcard(ip: string) {
    ip == "0.0.0.0" || ip == "127.0.0.1" || ip == "::"
  }

  predicate Listening(s: ConnectionStat) {
    s.status == TCP_LISTEN && Wildcard(s.laddr.ip)
  }

  ghost predicate ListensOn(stats: seq<ConnectionStat>, port: string) {
    exists i :: 0 <= i < |stats| && Listening(stats[i]) && Decimal(stats[i].laddr.port) == port
  }

  method FilterByLocalListeningPorts(stats: seq<ConnectionStat>) returns (ports: seq<string>)
    ensures forall p :: p in ports <==> ListensOn(stats, p)
  {
    ports := [];
    for i := 0 to |stats|
      invariant forall p :: p in ports <==> ListensOn(stats[..i], p)
    {
      ghost var before := ports;
      if stats[i].status == TCP_LISTEN {
        if stats[i].laddr.ip == "0.0.0.0" || stats[i].laddr.ip == "127.0.0.1" || stats[i].laddr.ip == "::" {
          ports := ports + [Decimal(stats[i].laddr.port)];
        }
      }
      ListensOnNext(stats, i, before, ports);
    }
    assert stats[..|stats|] == stats;
  }

  lemma ListensOnNext(stats: seq<ConnectionStat>, i: nat, before: seq<string>, ports: seq<string>)
    requires i < |stats|
    requires forall p :: p in before <==> ListensOn(stats[..i], p)
    requires ports == before + if Listening(stats[i]) then [Decimal(stats[i].laddr.port)] else []
    ensures forall p :: p in ports <==> ListensOn(stats[..i + 1], p)
  {
    forall p ensures p in ports <==> ListensOn(stats[..i + 1], p) {
      ListensOnStep(stats, i, p);
    }
  }

  /** The listening sockets, as the netlink builder selects them. */
  function ListeningConns(conns: seq<Conn>): seq<Conn> {
    if conns == [] then []
    else
      var n := |conns| - 1;
      ListeningConns(conns[..n]) + if Listening(Stat(conns[n])) then [conns[n]] else []
  }

  method NetlinkFilterByLocalListeningPorts(conns: seq<Conn>) returns (lconns: seq<Conn>)
    ensures lconns == ListeningConns(conns)
  {
    lconns := [];
    for i := 0 to |conns|
      invariant lconns == ListeningConns(conns[..i])
    {
      assert conns[..i + 1][..i] == conns[..i];
      if conns[i].state != TCP_LISTEN {
        continue;
      }
      var sip := DottedQuad(conns[i].src);
      if sip == "0.0.0.0" || sip == "127.0.0.1" || sip == "::" {
        lconns := lconns + [conns[i]];
      }
    }
    assert conns[..|conns|] == conns;
  }

  function Ports(lconns: seq<Conn>): seq<string> {
    seq(|lconns|, i requires 0 <= i < |lconns| => Decimal(lconns[i].sport))
  }

  /** Both builders find the same listening ports. */
  lemma {:induction false} SameListeningPorts(conns: seq<Conn>, port: string)
    ensures port in Ports(ListeningConns(conns)) <==> ListensOn(Stats(conns), port)
  {
    hide *;
    if conns == [] {
      NoPorts(port);
    } else {
      var n := |conns| - 1;
      SameListeningPorts(conns[..n], port);
      PortsOneMore(conns[..n], conns[n]);
      ListensOnOneMore(conns[..n], conns[n], port);
      assert conns == conns[..n] + [conns[n]];
    }
  }

  lemma NoPorts(port: string)
    ensures port !in Ports(ListeningConns([])) && !ListensOn(Stats([]), port)
  {
  }

  lemma ListensOnOneMore(front: seq<Conn>, c: Conn, port: string)
    ensures ListensOn(Stats(front + [c]), port) <==>
      ListensOn(Stats(front), port) || (Listening(Stat(c)) && Decimal(c.sport) == port)
  {
    var stats, n := Stats(front + [c]), |front|;
    assert stats[..n] == Stats(front) && stats[..n + 1] == stats && stats[n] == Stat(c);
    ListensOnStep(stats, n, port);
  }

  lemma PortsOneMore(front: seq<Conn>, c: Conn)
    ensures Ports(ListeningConns(front + [c])) == Ports(ListeningConns(front)) +
      if Listening(Stat(c)) then [Decimal(c.sport)] else []
  {
    hide *;
    ListeningOneMore(front, c);
    var before := ListeningConns(front);
    PortsAppend(before, c);
    assert before + [] == before;
  }

  lemma ListeningOneMore(front: seq<Conn>, c: Conn)
    ensures ListeningConns(front + [c]) == ListeningConns(front) + if Listening(Stat(c)) then [c] else []
  {
    hide Listening;
    assert (front + [c])[..|front|] == front;
  }

  lemma PortsAppend(lconns: seq<Conn>, c: Conn)
    ensures Ports(lconns + [c]) == Ports(lconns) + [Decimal(c.sport)]
  {
    hide Decimal;
  }

  lemma ListensOnStep(stats: seq<ConnectionStat>, i: nat, port: string)
    requires i < |stats|
    ensures ListensOn(stats[..i + 1], port) <==>
      ListensOn(stats[..i], port) || (Listening(stats[i]) && Decimal(stats[i].laddr.port) == port)
  {
    if ListensOn(stats[..i], port) {
      var j :| 0 <= j < i && Listening(stats[..i][j]) && Decimal(stats[..i][j].laddr.port) == port;
      assert stats[..i + 1][j] == stats[..i][j];
    }
    assert stats[..i + 1][i] == stats[i];
  }

  /* ----- The flow of a connection ----- */

  predicate Skipped(state: nat) {
    state == TCP_LISTEN || state == TCP_SYN_SENT || state == TCP_SYN_RECV
  }

  predicate Passes(filter: string, dst: IPv4) {
    if filter == "public" then !IsPrivate(dst) else if filter == "private" then IsPrivate(dst) else true
  }

  function Get<K, V>(m: map<K, V>, k: K): Option<V> {
    if k in m then Some(m[k]) else None
  }

  /** The owner of each listening port: that of the last socket listening on it. */
  function LportEnt(ents: UserEnts, lconns: seq<Conn>): map<string, Option<UserEnt>> {
    if lconns == [] || ents.None? then map[]
    else
      var n := |lconns| - 1;
      LportEnt(ents, lconns[..n])[Decimal(lconns[n].sport) := Get(ents.value, lconns[n].inode)]
  }

  function OwnerOf(ents: UserEnts, lports: map<string, Option<UserEnt>>, c: Conn, passive: bool): Option<UserEnt> {
    var ent := if ents.Some? && c.inode != 0 then Get(ents.value, c.inode) else None;
    if passive && ent.None? && Decimal(c.sport) in lports then lports[Decimal(c.sport)] else ent
  }

  function ProcessOf(ent: Option<UserEnt>): Option<Process> {
    if ent.Some? then Some(Process(ent.value.pname, ent.value.pgrp)) else None
  }

  /** A passive flow keeps its own port, an active flow the peer's. */
  function FlowShape(passive: bool, s: ConnectionStat): FlowRecord {
    if passive then
      FlowRecord(FlowPassive, AddrPort("", s.laddr.ip, Decimal(s.laddr.port)), AddrPort("", s.raddr.ip, "many"), 0, None)
    else
      FlowRecord(FlowActive, AddrPort("", s.laddr.ip, "many"), AddrPort("", s.raddr.ip, Decimal(s.raddr.port)), 0, None)
  }

  ghost function NetlinkFlow(all: seq<Conn>, ents: UserEnts, c: Conn): FlowRecord {
    var passive := ListensOn(Stats(all), Decimal(c.sport));
    FlowShape(passive, Stat(c)).(process := ProcessOf(OwnerOf(ents, LportEnt(ents, ListeningConns(all)), c, passive)))
  }

  /** The flows of the connections cs of a snapshot, in order; those of all when cs == all. */
  ghost function NetlinkFlows(all: seq<Conn>, ents: UserEnts, filter: string, cs: seq<Conn>): seq<FlowRecord> {
    if cs == [] then []
    else
      var n := |cs| - 1;
      NetlinkFlows(all, ents, filter, cs[..n]) + NetlinkEmits(all, ents, filter, cs[n])
  }

  ghost function NetlinkEmits(all: seq<Conn>, ents: UserEnts, filter: string, c: Conn): seq<FlowRecord> {
    if Skipped(c.state) || !Passes(filter, c.dst) then [] else [NetlinkFlow(all, ents, c)]
  }

  ghost function ProcfsFlows(all: seq<ConnectionStat>, cs: seq<ConnectionStat>): seq<FlowRecord> {
    if cs == [] then []
    else
      var n := |cs| - 1;
      ProcfsFlows(all, cs[..n]) + ProcfsEmits(all, cs[n])
  }

  ghost function ProcfsEmits(all: seq<ConnectionStat>, s: ConnectionStat): seq<FlowRecord> {
    if Skipped(s.status) then [] else [FlowShape(ListensOn(all, Decimal(s.laddr.port)), s)]
  }

  /* ----- The builders ----- */

  datatype GetHostFlowsOption = GetHostFlowsOption(numeric: bool, processes: bool, filter: string)

  function Resolved(m: map<string, FlowRecord>, resolve: string -> string): map<string, FlowRecord> {
    map k | k in m :: LookedUp(m[k], resolve)
  }

  /** What the netlink builder returns. */
  ghost function NetlinkResult(conns: seq<Conn>, ents: UserEnts, filter: string, numeric: bool, resolve: string -> string): map<string, FlowRecord> {
    var groups := Grouped(NetlinkFlows(conns, ents, filter, conns));
    if numeric then groups else Resolved(groups, resolve)
  }

  method ListeningPorts(ents: UserEnts, lconns: seq<Conn>) returns (ports: seq<string>, lportEnt: map<string, Option<UserEnt>>)
    ensures ports == Ports(lconns) && lportEnt == LportEnt(ents, lconns)
  {
    ports, lportEnt := [], map[];
    for i := 0 to |lconns|
      invariant ports == Ports(lconns[..i]) && lportEnt == LportEnt(ents, lconns[..i])
    {
      assert lconns[..i + 1][..i] == lconns[..i];
      var sport := Decimal(lconns[i].sport);
      ports := ports + [sport];
      if ents.Some? {
        lportEnt := lportEnt[sport := Get(ents.value, lconns[i].inode)];
      }
    }
    assert lconns[..|lconns|] == lconns;
  }

  lemma ObjectsDistinct(m: map<string, HostFlow>)
    requires KeyedByUniqKey(m)
    ensures forall k, k' :: k in m && k' in m && k != k' ==> m[k] != m[k']
  {
    hide UniqKey;
  }

  lemma ResolvedView(m: map<string, HostFlow>, before: map<string, FlowRecord>, resolve: string -> string)
    requires m.Keys == before.Keys && LookedUpBut(m, {}, before, resolve)
    ensures ViewOf(m) == Resolved(before, resolve)
  {
    hide LookedUp;
  }

  /** The entries of m were looked up, but those of todo. */
  ghost predicate LookedUpBut(m: map<string, HostFlow>, todo: set<string>, before: map<string, FlowRecord>, resolve: string -> string)
    requires m.Keys == before.Keys
    reads m.Values
  {
    forall k :: k in m ==> m[k].Record() == if k in todo then before[k] else LookedUp(before[k], resolve)
  }

  /** One turn of the loop. */
  method LookUpNext(m: map<string, HostFlow>, ghost todo: set<string>, k: string, ghost before: map<string, FlowRecord>, resolve: string -> string)
    requires m.Keys == before.Keys && LookedUpBut(m, todo, before, resolve) && k in todo && k in m
    requires forall j :: j in m && j != k ==> m[j] != m[k]
    modifies m[k]
    ensures LookedUpBut(m, todo - {k}, before, resolve)
  {
    hide LookedUp;
    m[k].SetLookupedName(resolve);
  }

  method ResolveNames(flows: HostFlows, resolve: string -> string)
    requires flows.Valid()
    modifies flows.flows.Values
    ensures flows.flows == old(flows.flows)
    ensures flows.View() == Resolved(old(flows.View()), resolve)
    ensures forall k :: k in flows.flows ==> Named(old(flows.flows[k].Record()), flows.flows[k].Record(), resolve)
  {
    var m := flows.flows;
    ObjectsDistinct(m);
    ghost var before := ViewOf(m);
    hide UniqKey, LookedUp, KeyedByUniqKey, Resolved, LookedUpBut, Named;
    NothingLookedUp(m, resolve);
    var todo := m.Keys;
    while todo != {}
      invariant todo <= m.Keys && flows.flows == m
      invariant LookedUpBut(m, todo, before, resolve)
    {
      var k :| k in todo;
      LookUpNext(m, todo, k, before, resolve);
      todo := todo - {k};
    }
    ResolvedView(m, before, resolve);
    AllNamed(m, before, resolve);
  }

  lemma AllNamed(m: map<string, HostFlow>, before: map<string, FlowRecord>, resolve: string -> string)
    requires m.Keys == before.Keys && LookedUpBut(m, {}, before, resolve)
    ensures forall k :: k in m ==> Named(before[k], m[k].Record(), resolve)
  {
  }

  lemma NothingLookedUp(m: map<string, HostFlow>, resolve: string -> string)
    ensures LookedUpBut(m, m.Keys, ViewOf(m), resolve)
  {
  }

  /** The flow of one connection that is not skipped. */
  method Classify(ghost conns: seq<Conn>, ents: UserEnts, ports: seq<string>, lportEnt: map<string, Option<UserEnt>>, conn: Conn)
    returns (f: FlowRecord)
    requires ports == Ports(ListeningConns(conns)) && lportEnt == LportEnt(ents, ListeningConns(conns))
    ensures f == NetlinkFlow(conns, ents, conn) && f.connections == 0
  {
    var ent := None;
    if ents.Some? && conn.inode != 0 {
      ent := Get(ents.value, conn.inode);
    }
    var lport, rport := Decimal(conn.sport), Decimal(conn.dport);
    SameListeningPorts(conns, lport);
    if lport in ports {
      if ent.None? && lport in lportEnt {
        ent := lportEnt[lport];
      }
      f := FlowRecord(FlowPassive, AddrPort("", DottedQuad(conn.src), lport), AddrPort("", DottedQuad(conn.dst), "many"), 0, ProcessOf(ent));
    } else {
      f := FlowRecord(FlowActive, AddrPort("", DottedQuad(conn.src), "many"), AddrPort("", DottedQuad(conn.dst), rport), 0, ProcessOf(ent));
    }
  }

  /** Insert of a new HostFlow object. */
  method InsertNew(flows: HostFlows, ghost fs: seq<FlowRecord>, f: FlowRecord)
    requires flows.Valid() && flows.View() == Grouped(fs) && f.connections == 0
    modifies flows, flows.flows.Values
    ensures flows.Valid() && flows.View() == Grouped(fs + [f])
    ensures fresh(flows.flows.Values - old(flows.flows.Values))
  {
    GroupedNext(fs, f);
    hide UniqKey, Grouped, Merge;
    var hf := new HostFlow(f.direction, f.local, f.peer, f.process);
    flows.Insert(hf);
  }

  /** Turn i of the netlink loop. */
  method AddConn(flows: HostFlows, ghost conns: seq<Conn>, ghost i: nat, ents: UserEnts, filter: string,
                 ports: seq<string>, lportEnt: map<string, Option<UserEnt>>, conn: Conn)
    requires i < |conns| && conn == conns[i]
    requires flows.Valid() && flows.View() == Grouped(NetlinkFlows(conns, ents, filter, conns[..i]))
    requires ports == Ports(ListeningConns(conns)) && lportEnt == LportEnt(ents, ListeningConns(conns))
    modifies flows, flows.flows.Values
    ensures flows.Valid() && flows.View() == Grouped(NetlinkFlows(conns, ents, filter, conns[..i + 1]))
    ensures fresh(flows.flows.Values - old(flows.flows.Values))
  {
    hide UniqKey, Grouped, NetlinkFlow, NetlinkFlows, PrivateNetIP, Ports, ListeningConns, LportEnt;
    NetlinkFlowsNext(conns, ents, filter, i);
    ghost var fs := NetlinkFlows(conns, ents, filter, conns[..i]);
    assert fs + [] == fs;
    if conn.state == TCP_LISTEN || conn.state == TCP_SYN_SENT || conn.state == TCP_SYN_RECV {
      return;
    }
    var private := IsPrivateIP(BytesOf(conn.dst));
    if (filter == "public" && private) || (filter == "private" && !private) {
      return;
    }
    var f := Classify(conns, ents, ports, lportEnt, conn);
    InsertNew(flows, fs, f);
  }

  method GroupConns(conns: seq<Conn>, ents: UserEnts, filter: string) returns (flows: HostFlows)
    ensures fresh(flows) && fresh(flows.flows.Values) && flows.Valid()
    ensures flows.View() == Grouped(NetlinkFlows(conns, ents, filter, conns))
  {
    assert Grouped(NetlinkFlows(conns, ents, filter, conns[..0])) == map[];
    hide UniqKey, Grouped, NetlinkFlows, ListeningConns, Ports, LportEnt;
    var lconns := NetlinkFilterByLocalListeningPorts(conns);
    var ports, lportEnt := ListeningPorts(ents, lconns);
    flows := new HostFlows();
    for i := 0 to |conns|
      invariant fresh(flows) && fresh(flows.flows.Values) && flows.Valid()
      invariant flows.View() == Grouped(NetlinkFlows(conns, ents, filter, conns[..i]))
    {
      AddConn(flows, conns, i, ents, filter, ports, lportEnt, conns[i]);
    }
    assert conns[..|conns|] == conns;
  }

  /** conns and userEnts are what the kernel reported; resolve is the reverse DNS lookup. */
  method GetHostFlowsByNetlink(conns: seq<Conn>, userEnts: map<nat, UserEnt>, opt: GetHostFlowsOption, resolve: string -> string)
    returns (flows: HostFlows)
    ensures fresh(flows) && fresh(flows.flows.Values)
    ensures flows.View() == NetlinkResult(conns, if opt.processes then Some(userEnts) else None, opt.filter, opt.numeric, resolve)
  {
    flows := GroupConns(conns, if opt.processes then Some(userEnts) else None, opt.filter);
    if !opt.numeric {
      ResolveNames(flows, resolve);
    }
  }

  lemma NetlinkFlowsNext(all: seq<Conn>, ents: UserEnts, filter: string, i: nat)
    requires i < |all|
    ensures NetlinkFlows(all, ents, filter, all[..i + 1]) == NetlinkFlows(all, ents, filter, all[..i]) +
      NetlinkEmits(all, ents, filter, all[i])
  {
    assert all[..i + 1][..i] == all[..i];
  }

  /** Turn i of the procfs loop. */
  method AddStat(flows: HostFlows, ghost conns: seq<ConnectionStat>, ghost i: nat, ports: seq<string>, conn: ConnectionStat)
    requires i < |conns| && conn == conns[i]
    requires flows.Valid() && flows.View() == Grouped(ProcfsFlows(conns, conns[..i]))
    requires forall p :: p in ports <==> ListensOn(conns, p)
    modifies flows, flows.flows.Values
    ensures flows.Valid() && flows.View() == Grouped(ProcfsFlows(conns, conns[..i + 1]))
    ensures fresh(flows.flows.Values - old(flows.flows.Values))
  {
    hide UniqKey, Grouped, FlowShape, ProcfsFlows;
    ProcfsFlowsNext(conns, i);
    ghost var fs := ProcfsFlows(conns, conns[..i]);
    assert fs + [] == fs;
    if conn.status == TCP_LISTEN || conn.status == TCP_SYN_SENT || conn.status == TCP_SYN_RECV {
      return;
    }
    var f := ClassifyStat(conns, ports, conn);
    InsertNew(flows, fs, f);
  }

  method GetHostFlowsByProcfs(conns: seq<ConnectionStat>) returns (flows: HostFlows)
    ensures fresh(flows) && fresh(flows.flows.Values) && flows.Valid()
    ensures flows.View() == Grouped(ProcfsFlows(conns, conns))
  {
    var ports := FilterByLocalListeningPorts(conns);
    flows := new HostFlows();
    for i := 0 to |conns|
      invariant fresh(flows) && fresh(flows.flows.Values) && flows.Valid()
      invariant flows.View() == Grouped(ProcfsFlows(conns, conns[..i]))
    {
      AddStat(flows, conns, i, ports, conns[i]);
    }
    assert conns[..|conns|] == conns;
  }

  lemma ProcfsFlowsNext(all: seq<ConnectionStat>, i: nat)
    requires i < |all|
    ensures ProcfsFlows(all, all[..i + 1]) == ProcfsFlows(all, all[..i]) +
      ProcfsEmits(all, all[i])
  {
    assert all[..i + 1][..i] == all[..i];
  }

  method ClassifyStat(ghost conns: seq<ConnectionStat>, ports: seq<string>, conn: ConnectionStat) returns (f: FlowRecord)
    requires forall p :: p in ports <==> ListensOn(conns, p)
    ensures f == FlowShape(ListensOn(conns, Decimal(conn.laddr.port)), conn) && f.connections == 0
  {
    var lport, rport := Decimal(conn.laddr.port), Decimal(conn.raddr.port);
    if lport in ports {
      f := FlowRecord(FlowPassive, AddrPort("", conn.laddr.ip, lport), AddrPort("", conn.raddr.ip, "many"), 0, None);
    } else {
      f := FlowRecord(FlowActive, AddrPort("", conn.laddr.ip, "many"), AddrPort("", conn.raddr.ip, rport), 0, None);
    }
  }
}

/** What the two listings say, stated on the sockets: which connections are listed, and for each
    entry its ends, its count and its process. */
module Entries {
  import opened Options
  import opened Text
  import opened Inet
  import opened PrivateIP
  import opened Probe
  import opened Netlink
  import opened Listing

  /* ----- Ports that listen ----- */

  /** A listening socket (state 10) on the wildcard or on the loopback address. */
  ghost predicate ListensAt(c: Conn, port: nat) {
    c.state == 10 && c.sport == port && (c.src == IPv4(0, 0, 0, 0) || c.src == IPv4(127, 0, 0, 1))
  }

  ghost predicate PortListens(conns: seq<Conn>, port: nat) {
    exists i :: 0 <= i < |conns| && ListensAt(conns[i], port)
  }

  ghost predicate StatListensAt(s: ConnectionStat, port: nat) {
    s.status == 10 && s.laddr.port == port && s.laddr.ip in ["0.0.0.0", "127.0.0.1", "::"]
  }

  ghost predicate StatPortListens(stats: seq<ConnectionStat>, port: nat) {
    exists i :: 0 <= i < |stats| && StatListensAt(stats[i], port)
  }

  lemma QuadText(ip: IPv4)
    ensures DottedQuad(ip) == Decimal(ip.a) + "." + (Decimal(ip.b) + "." + (Decimal(ip.c) + "." + Decimal(ip.d)))
  {
    var octets := Octets(ip);
    assert octets[1..] == [Decimal(ip.b), Decimal(ip.c), Decimal(ip.d)];
    assert octets[1..][1..] == [Decimal(ip.c), Decimal(ip.d)];
    assert octets[1..][1..][1..] == [Decimal(ip.d)];
    hide Decimal;
    assert Joined(octets[1..][1..][1..], '.') == Decimal(ip.d);
    assert Joined(octets[1..][1..], '.') == Decimal(ip.c) + "." + Decimal(ip.d);
    assert Joined(octets[1..], '.') == Decimal(ip.b) + "." + (Decimal(ip.c) + "." + Decimal(ip.d));
    assert Joined(octets, '.') == Decimal(ip.a) + "." + Joined(octets[1..], '.');
  }

  lemma SpecialTexts()
    ensures DottedQuad(IPv4(0, 0, 0, 0)) == "0.0.0.0" && DottedQuad(IPv4(127, 0, 0, 1)) == "127.0.0.1"
  {
    SmallDecimals();
    hide Decimal, DottedQuad;
    QuadText(IPv4(0, 0, 0, 0));
    QuadText(IPv4(127, 0, 0, 1));
  }

  lemma SmallDecimals()
    ensures Decimal(0) == "0" && Decimal(1) == "1" && Decimal(127) == "127"
  {
    assert Decimal(12) == Decimal(1) + "2";
    assert Decimal(127) == Decimal(12) + "7";
  }

  lemma SpecialAddresses(ip: IPv4)
    ensures DottedQuad(ip) == "0.0.0.0" <==> ip == IPv4(0, 0, 0, 0)
    ensures DottedQuad(ip) == "127.0.0.1" <==> ip == IPv4(127, 0, 0, 1)
    ensures DottedQuad(ip) != "::"
  {
    SpecialTexts();
    JoinedDigits(Octets(ip));
    hide DottedQuad, Octets, Joined;
    if DottedQuad(ip) == "0.0.0.0" {
      DottedQuadInjective(ip, IPv4(0, 0, 0, 0));
    }
    if DottedQuad(ip) == "127.0.0.1" {
      DottedQuadInjective(ip, IPv4(127, 0, 0, 1));
    }
    NotColons(ip);
  }

  lemma NotColons(ip: IPv4)
    ensures DottedQuad(ip) != "::"
  {
    JoinedDigits(Octets(ip));
    assert "::"[0] == ':';
  }

  lemma DecimalSame(m: nat, n: nat)
    ensures Decimal(m) == Decimal(n) <==> m == n
  {
    if Decimal(m) == Decimal(n) {
      DecimalInjective(m, n);
    }
  }

  /** A port listens exactly when a listening socket is on it, on one of the three addresses. */
  lemma StatPortMeaning(stats: seq<ConnectionStat>, port: nat)
    ensures ListensOn(stats, Decimal(port)) <==> StatPortListens(stats, port)
  {
    forall i | 0 <= i < |stats|
      ensures Listening(stats[i]) && Decimal(stats[i].laddr.port) == Decimal(port) <==> StatListensAt(stats[i], port)
    {
      DecimalSame(stats[i].laddr.port, port);
    }
    hide Listening, Decimal, StatListensAt;
  }

  lemma PortMeaning(conns: seq<Conn>, port: nat)
    ensures ListensOn(Stats(conns), Decimal(port)) <==> PortListens(conns, port)
  {
    StatPortMeaning(Stats(conns), port);
    forall i | 0 <= i < |conns| ensures StatListensAt(Stats(conns)[i], port) <==> ListensAt(conns[i], port) {
      StatListens(conns[i], port);
    }
    hide ListensOn, StatListensAt, ListensAt, Decimal;
  }

  lemma StatListens(c: Conn, port: nat)
    ensures StatListensAt(Stat(c), port) <==> ListensAt(c, port)
  {
    SpecialAddresses(c.src);
    hide DottedQuad;
  }

  /* ----- Which connections are listed ----- */

  predicate PrivateAddress(ip: IPv4) {
    ip.a == 127 || ip.a == 10 || (ip.a == 172 && 16 <= ip.b <= 31) || (ip.a == 192 && ip.b == 168)
  }

  /** Not listening and past the handshake (states 10, 2 and 3), with a peer the filter lets pass. */
  predicate Listed(filter: string, c: Conn) {
    && c.state != 2 && c.state != 3 && c.state != 10
    && (filter == "public" ==> !PrivateAddress(c.dst))
    && (filter == "private" ==> PrivateAddress(c.dst))
  }

  lemma ListedMeaning(filter: string, c: Conn)
    ensures Listed(filter, c) <==> !Skipped(c.state) && Passes(filter, c.dst)
  {
    PrefixesAreIntervals(BytesOf(c.dst));
    assert Shortest(BytesOf(c.dst)) == BytesOf(c.dst);
    hide PrivateV4, PrivateV6, Shortest;
  }

  /* ----- The flow of one connection ----- */

  /** f has these ends: the side that listens keeps its port, the other is "many". */
  predicate Describes(f: FlowRecord, passive: bool, lip: string, lport: nat, rip: string, rport: nat) {
    && f.local.addr == lip && f.peer.addr == rip
    && if passive then f.direction.FlowPassive? && f.local.port == Decimal(lport) && f.peer.port == "many"
       else f.direction.FlowActive? && f.local.port == "many" && f.peer.port == Decimal(rport)
  }

  predicate DescribesConn(f: FlowRecord, passive: bool, c: Conn) {
    Describes(f, passive, DottedQuad(c.src), c.sport, DottedQuad(c.dst), c.dport)
  }

  predicate Unnamed(f: FlowRecord) {
    f.local.name == "" && f.peer.name == "" && f.connections == 0
  }

  lemma ConnFlowEnds(conns: seq<Conn>, ents: UserEnts, c: Conn)
    ensures var f := NetlinkFlow(conns, ents, c);
      DescribesConn(f, PortListens(conns, c.sport), c) && Unnamed(f)
  {
    PortMeaning(conns, c.sport);
    hide ListensOn, PortListens, Stats, OwnerOf, LportEnt, ListeningConns, Decimal, DottedQuad;
  }

  lemma StatFlowEnds(stats: seq<ConnectionStat>, s: ConnectionStat)
    ensures var f := FlowShape(ListensOn(stats, Decimal(s.laddr.port)), s);
      && Describes(f, StatPortListens(stats, s.laddr.port), s.laddr.ip, s.laddr.port, s.raddr.ip, s.raddr.port)
      && Unnamed(f) && f.process.None?
  {
    StatPortMeaning(stats, s.laddr.port);
    hide ListensOn, StatPortListens, Decimal;
  }

  /* ----- The owner of one connection ----- */

  ghost predicate LastListener(conns: seq<Conn>, port: nat, i: nat) {
    && i < |conns| && ListensAt(conns[i], port)
    && forall j :: i < j < |conns| ==> !ListensAt(conns[j], port)
  }

  /** p is the name and group of the entry for inode, if there is one. */
  ghost predicate OwnerOfInode(ents: map<nat, UserEnt>, inode: nat, p: Option<Process>) {
    if inode in ents then p == Some(Process(ents[inode].pname, ents[inode].pgrp)) else p == None
  }

  /** The owner of c's own socket, if it is known; else, on a port that listens, the owner of the
      last socket that listens on it. */
  ghost predicate Owned(conns: seq<Conn>, ents: UserEnts, c: Conn, p: Option<Process>) {
    if ents.None? then p == None
    else if c.inode != 0 && c.inode in ents.value then OwnerOfInode(ents.value, c.inode, p)
    else if PortListens(conns, c.sport) then
      exists i: nat :: LastListener(conns, c.sport, i) && OwnerOfInode(ents.value, conns[i].inode, p)
    else p == None
  }

  lemma {:induction false} LastListenerExists(conns: seq<Conn>, port: nat) returns (i: nat)
    requires PortListens(conns, port)
    ensures LastListener(conns, port, i)
  {
    var n := |conns| - 1;
    hide ListensAt;
    if ListensAt(conns[n], port) {
      i := n;
    } else {
      var j :| 0 <= j < |conns| && ListensAt(conns[j], port);
      assert ListensAt(conns[..n][j], port);
      i := LastListenerExists(conns[..n], port);
      assert forall k :: i < k < n ==> !ListensAt(conns[..n][k], port);
    }
  }

  lemma LportEntOneMore(ents: UserEnts, lconns: seq<Conn>, c: Conn)
    requires ents.Some?
    ensures LportEnt(ents, lconns + [c]) == LportEnt(ents, lconns)[Decimal(c.sport) := Get(ents.value, c.inode)]
  {
    hide Decimal;
    assert (lconns + [c])[..|lconns|] == lconns;
  }

  lemma ListeningMeaning(c: Conn, port: nat)
    ensures ListensAt(c, port) <==> Listening(Stat(c)) && Decimal(c.sport) == Decimal(port)
  {
    StatListens(c, port);
    DecimalSame(c.sport, port);
    hide Decimal, DottedQuad;
  }

  lemma {:induction false} LportEntOfPort(conns: seq<Conn>, ents: UserEnts, port: nat, i: nat)
    requires ents.Some? && LastListener(conns, port, i)
    ensures var m := LportEnt(ents, ListeningConns(conns));
      Decimal(port) in m && m[Decimal(port)] == Get(ents.value, conns[i].inode)
  {
    hide ListensAt, Listening, LportEnt, ListeningConns, Decimal, Get;
    var n := |conns| - 1;
    var front, c := conns[..n], conns[n];
    assert conns == front + [c];
    ListeningOneMore(front, c);
    ListeningMeaning(c, port);
    LportEntOneMore(ents, ListeningConns(front), c);
    assert ListeningConns(front) + [] == ListeningConns(front);
    if i < n {
      assert forall j :: i < j < n ==> front[j] == conns[j];
      LportEntOfPort(front, ents, port, i);
    }
  }

  lemma ConnFlowOwner(conns: seq<Conn>, ents: UserEnts, c: Conn)
    ensures Owned(conns, ents, c, NetlinkFlow(conns, ents, c).process)
  {
    PortMeaning(conns, c.sport);
    if ents.Some? && PortListens(conns, c.sport) {
      var i := LastListenerExists(conns, c.sport);
      LportEntOfPort(conns, ents, c.sport, i);
    }
    hide LportEnt, ListeningConns, ListensOn, PortListens, LastListener, Decimal, Stats, DottedQuad;
  }

  lemma OwnedOnce(conns: seq<Conn>, ents: UserEnts, c: Conn, p: Option<Process>, q: Option<Process>)
    requires Owned(conns, ents, c, p) && Owned(conns, ents, c, q)
    ensures p == q
  {
    hide ListensAt, PortListens;
  }

  /* ----- The entries of the netlink listing ----- */

  /** c and d fall into one entry. */
  ghost predicate SameGroup(conns: seq<Conn>, c: Conn, d: Conn) {
    && c.src == d.src && c.dst == d.dst
    && PortListens(conns, c.sport) == PortListens(conns, d.sport)
    && if PortListens(conns, c.sport) then c.sport == d.sport else c.dport == d.dport
  }

  lemma SameKeySameGroup(conns: seq<Conn>, ents: UserEnts, c: Conn, d: Conn)
    ensures UniqKey(NetlinkFlow(conns, ents, c)) == UniqKey(NetlinkFlow(conns, ents, d)) <==> SameGroup(conns, c, d)
  {
    var p, q := ListensOn(Stats(conns), Decimal(c.sport)), ListensOn(Stats(conns), Decimal(d.sport));
    assert UniqKey(NetlinkFlow(conns, ents, c)) == UniqKey(FlowShape(p, Stat(c)));
    assert UniqKey(NetlinkFlow(conns, ents, d)) == UniqKey(FlowShape(q, Stat(d)));
    hide UniqKey, NetlinkFlow, FlowShape, ListensOn, PortListens, Stats, Decimal;
    PortMeaning(conns, c.sport);
    PortMeaning(conns, d.sport);
    KeyMeaning(p, c, q, d);
  }

  /** The listed connections of cs that fall into c's entry. */
  ghost function Members(conns: seq<Conn>, filter: string, cs: seq<Conn>, c: Conn): set<nat> {
    set i: nat | 0 <= i < |cs| && Listed(filter, cs[i]) && SameGroup(conns, c, cs[i])
  }

  lemma MembersOneMore(conns: seq<Conn>, filter: string, front: seq<Conn>, d: Conn, c: Conn)
    ensures var more := Members(conns, filter, front + [d], c);
      && more == Members(conns, filter, front, c) +
           (if Listed(filter, d) && SameGroup(conns, c, d) then {|front|} else {})
      && |more| == |Members(conns, filter, front, c)| + if Listed(filter, d) && SameGroup(conns, c, d) then 1 else 0
  {
    hide Listed, SameGroup;
    var m, more := Members(conns, filter, front, c), Members(conns, filter, front + [d], c);
    assert forall i: nat :: i < |front| ==> (front + [d])[i] == front[i];
    assert more == m + if Listed(filter, d) && SameGroup(conns, c, d) then {|front|} else {};
    assert |front| !in m;
  }

  /** The process of the group of c among the flows of cs, if there is one. */
  ghost function ProcessSoFar(conns: seq<Conn>, ents: UserEnts, filter: string, cs: seq<Conn>, c: Conn): Option<Process> {
    var m, k := Grouped(NetlinkFlows(conns, ents, filter, cs)), UniqKey(NetlinkFlow(conns, ents, c));
    if k in m then m[k].process else None
  }

  /** p is the owner of the first of these connections that has one. */
  ghost predicate FirstOwner(conns: seq<Conn>, ents: UserEnts, cs: seq<Conn>, members: set<nat>, p: Option<Process>) {
    if p.None? then forall i :: i in members && i < |cs| ==> Owned(conns, ents, cs[i], None)
    else exists i :: i in members && i < |cs| && Owned(conns, ents, cs[i], p) &&
           forall j :: j in members && j < i ==> Owned(conns, ents, cs[j], None)
  }

  lemma GroupOneMore(fs: seq<FlowRecord>, f: FlowRecord, k: string)
    ensures Occurrences(fs + [f], k) == Occurrences(fs, k) + if UniqKey(f) == k then 1 else 0
    ensures var m, more := Grouped(fs), Grouped(fs + [f]);
      && (k in more <==> k in m || UniqKey(f) == k)
      && (k in more ==>
            more[k].process == (if k in m && (m[k].process.Some? || UniqKey(f) != k) then m[k].process else f.process))
  {
    GroupedNext(fs, f);
    assert (fs + [f])[..|fs|] == fs;
    hide UniqKey, Grouped;
  }

  lemma FirstOwnerKept(conns: seq<Conn>, ents: UserEnts, front: seq<Conn>, d: Conn, members: set<nat>, p: Option<Process>)
    requires FirstOwner(conns, ents, front, members, p) && forall i :: i in members ==> i < |front|
    ensures FirstOwner(conns, ents, front + [d], members, p)
  {
    hide Owned;
    assert forall i :: 0 <= i < |front| ==> (front + [d])[i] == front[i];
    if p.Some? {
      var i :| i in members && i < |front| && Owned(conns, ents, front[i], p) &&
        forall j :: j in members && j < i ==> Owned(conns, ents, front[j], None);
      assert Owned(conns, ents, (front + [d])[i], p);
    }
  }

  lemma FirstOwnerJoined(conns: seq<Conn>, ents: UserEnts, front: seq<Conn>, d: Conn, members: set<nat>, p: Option<Process>, q: Option<Process>)
    requires FirstOwner(conns, ents, front, members, p) && forall i :: i in members ==> i < |front|
    requires Owned(conns, ents, d, q)
    ensures FirstOwner(conns, ents, front + [d], members + {|front|}, if p.Some? then p else q)
  {
    hide Owned;
    var cs, n := front + [d], |front|;
    assert (forall i :: 0 <= i < n ==> cs[i] == front[i]) && cs[n] == d;
    if p.Some? {
      var i :| i in members && i < n && Owned(conns, ents, front[i], p) &&
        forall j :: j in members && j < i ==> Owned(conns, ents, front[j], None);
      assert i in members + {n} && Owned(conns, ents, cs[i], p);
    } else if q.Some? {
      assert n in members + {n} && Owned(conns, ents, cs[n], q);
    }
  }

  /** Counts and processes, connection by connection. */
  lemma {:induction false} GroupsUpTo(conns: seq<Conn>, ents: UserEnts, filter: string, cs: seq<Conn>, c: Conn)
    ensures var members := Members(conns, filter, cs, c);
      && Occurrences(NetlinkFlows(conns, ents, filter, cs), UniqKey(NetlinkFlow(conns, ents, c))) == |members|
      && FirstOwner(conns, ents, cs, members, ProcessSoFar(conns, ents, filter, cs, c))
  {
    hide *;
    if cs == [] {
      NoGroups(conns, ents, filter, c);
    } else {
      var n := |cs| - 1;
      GroupsUpTo(conns, ents, filter, cs[..n], c);
      GroupsOneMore(conns, ents, filter, cs[..n], cs[n], c);
      assert cs == cs[..n] + [cs[n]];
    }
  }

  lemma NoGroups(conns: seq<Conn>, ents: UserEnts, filter: string, c: Conn)
    ensures var members := Members(conns, filter, [], c);
      && Occurrences(NetlinkFlows(conns, ents, filter, []), UniqKey(NetlinkFlow(conns, ents, c))) == |members|
      && FirstOwner(conns, ents, [], members, ProcessSoFar(conns, ents, filter, [], c))
  {
    hide UniqKey, NetlinkFlow;
    assert Members(conns, filter, [], c) == {};
  }

  lemma MembersBelow(conns: seq<Conn>, filter: string, cs: seq<Conn>, c: Conn)
    ensures forall i :: i in Members(conns, filter, cs, c) ==> i < |cs|
  {
    hide Listed, SameGroup;
  }

  lemma GroupsOneMore(conns: seq<Conn>, ents: UserEnts, filter: string, front: seq<Conn>, d: Conn, c: Conn)
    requires var members := Members(conns, filter, front, c);
      && Occurrences(NetlinkFlows(conns, ents, filter, front), UniqKey(NetlinkFlow(conns, ents, c))) == |members|
      && FirstOwner(conns, ents, front, members, ProcessSoFar(conns, ents, filter, front, c))
    ensures var members := Members(conns, filter, front + [d], c);
      && Occurrences(NetlinkFlows(conns, ents, filter, front + [d]), UniqKey(NetlinkFlow(conns, ents, c))) == |members|
      && FirstOwner(conns, ents, front + [d], members, ProcessSoFar(conns, ents, filter, front + [d], c))
  {
    hide UniqKey, NetlinkFlow, NetlinkFlows, Grouped, Occurrences, Members, FirstOwner, Owned, SameGroup, Listed, Skipped, Passes;
    var fs, f, k := NetlinkFlows(conns, ents, filter, front), NetlinkFlow(conns, ents, d), UniqKey(NetlinkFlow(conns, ents, c));
    var members, p := Members(conns, filter, front, c), ProcessSoFar(conns, ents, filter, front, c);
    FlowsOfOneMore(conns, ents, filter, front, d);
    ListedMeaning(filter, d);
    SameKeySameGroup(conns, ents, d, c);
    SameGroupSymmetric(conns, c, d);
    MembersOneMore(conns, filter, front, d, c);
    MembersBelow(conns, filter, front, c);
    GroupOneMore(fs, f, k);
    ConnFlowOwner(conns, ents, d);
    assert members + {} == members;
    if Listed(filter, d) && SameGroup(conns, c, d) {
      FirstOwnerJoined(conns, ents, front, d, members, p, f.process);
    } else {
      FirstOwnerKept(conns, ents, front, d, members, p);
    }
  }

  lemma SameGroupSymmetric(conns: seq<Conn>, c: Conn, d: Conn)
    ensures SameGroup(conns, c, d) <==> SameGroup(conns, d, c)
  {
    hide PortListens;
  }

  /** The key under which a connection is listed. */
  ghost function ConnKey(conns: seq<Conn>, c: Conn): string {
    if PortListens(conns, c.sport) then
      "passive-" + (DottedQuad(c.src) + ":" + Decimal(c.sport) + "-" + (DottedQuad(c.dst) + ":many"))
    else
      "active-" + (DottedQuad(c.src) + ":many-" + (DottedQuad(c.dst) + ":" + Decimal(c.dport)))
  }

  lemma QuadPlain(ip: IPv4)
    ensures !Bracketed(DottedQuad(ip))
  {
    JoinedDigits(Octets(ip));
  }

  lemma ConnFlowKey(conns: seq<Conn>, ents: UserEnts, c: Conn)
    ensures UniqKey(NetlinkFlow(conns, ents, c)) == ConnKey(conns, c)
  {
    var f := NetlinkFlow(conns, ents, c);
    ConnFlowEnds(conns, ents, c);
    UniqKeyText(f);
    QuadPlain(c.src);
    QuadPlain(c.dst);
    hide UniqKey, NetlinkFlow, PortListens, DottedQuad, Decimal, Bracketed;
    var src, dst, sport, dport := DottedQuad(c.src), DottedQuad(c.dst), Decimal(c.sport), Decimal(c.dport);
    assert src + ":" + "many" + "-" == src + ":many-" && dst + ":" + "many" == dst + ":many";
    if PortListens(conns, c.sport) {
      assert "passive" + "-" + (src + ":" + sport + "-" + (dst + ":many")) == "passive-" + (src + ":" + sport + "-" + (dst + ":many"));
    } else {
      assert "active" + "-" + (src + ":" + "many" + "-" + (dst + ":" + dport)) == "active-" + (src + ":many-" + (dst + ":" + dport));
    }
  }

  /** f is the entry of c: c's ends, named by their own addresses unless `numeric`; as many
      connections as are listed in c's group, and the first owner of one of them. */
  ghost predicate EntryOfConn(conns: seq<Conn>, ents: UserEnts, filter: string, numeric: bool, resolve: string -> string, c: Conn, f: FlowRecord) {
    && DescribesConn(f, PortListens(conns, c.sport), c)
    && f.local.name == (if numeric then "" else resolve(DottedQuad(c.src)))
    && f.peer.name == (if numeric then "" else resolve(DottedQuad(c.dst)))
    && f.connections == |Members(conns, filter, conns, c)|
    && FirstOwner(conns, ents, conns, Members(conns, filter, conns, c), f.process)
  }

  lemma {:induction false} FlowOfListed(conns: seq<Conn>, ents: UserEnts, filter: string, cs: seq<Conn>, i: nat) returns (j: nat)
    requires i < |cs| && Listed(filter, cs[i])
    ensures j < |NetlinkFlows(conns, ents, filter, cs)| && NetlinkFlows(conns, ents, filter, cs)[j] == NetlinkFlow(conns, ents, cs[i])
  {
    hide NetlinkFlow, NetlinkFlows, Listed, Skipped, Passes;
    var n := |cs| - 1;
    FlowsOfOneMore(conns, ents, filter, cs[..n], cs[n]);
    ListedMeaning(filter, cs[n]);
    assert cs == cs[..n] + [cs[n]];
    if i < n {
      j := FlowOfListed(conns, ents, filter, cs[..n], i);
    } else {
      j := |NetlinkFlows(conns, ents, filter, cs[..n])|;
    }
  }

  lemma {:induction false} ListedOfFlow(conns: seq<Conn>, ents: UserEnts, filter: string, cs: seq<Conn>, j: nat) returns (i: nat)
    requires j < |NetlinkFlows(conns, ents, filter, cs)|
    ensures i < |cs| && Listed(filter, cs[i]) && NetlinkFlows(conns, ents, filter, cs)[j] == NetlinkFlow(conns, ents, cs[i])
  {
    hide NetlinkFlow, Listed, Skipped, Passes;
    var n := |cs| - 1;
    FlowsOfOneMore(conns, ents, filter, cs[..n], cs[n]);
    ListedMeaning(filter, cs[n]);
    assert cs == cs[..n] + [cs[n]];
    hide NetlinkFlows;
    if j < |NetlinkFlows(conns, ents, filter, cs[..n])| {
      i := ListedOfFlow(conns, ents, filter, cs[..n], j);
    } else {
      i := n;
    }
  }

  lemma GroupOfConn(conns: seq<Conn>, ents: UserEnts, filter: string, k: string) returns (c: Conn)
    requires k in Grouped(NetlinkFlows(conns, ents, filter, conns))
    ensures c in conns && Listed(filter, c) && k == ConnKey(conns, c)
    ensures EntryOfConn(conns, ents, filter, true, s => s, c, Grouped(NetlinkFlows(conns, ents, filter, conns))[k])
  {
    hide UniqKey, NetlinkFlow, NetlinkFlows, Grouped, Occurrences, Members, FirstOwner, Listed, PortListens, DottedQuad, Decimal, FirstProcess;
    var fs := NetlinkFlows(conns, ents, filter, conns);
    var j := GroupedMeaning(fs, k);
    var i := ListedOfFlow(conns, ents, filter, conns, j);
    c := conns[i];
    ConnFlowKey(conns, ents, c);
    ConnFlowEnds(conns, ents, c);
    GroupsUpTo(conns, ents, filter, conns, c);
  }

  lemma NamedEntry(conns: seq<Conn>, ents: UserEnts, filter: string, resolve: string -> string, c: Conn, f: FlowRecord)
    requires EntryOfConn(conns, ents, filter, true, s => s, c, f)
    ensures EntryOfConn(conns, ents, filter, true, resolve, c, f)
    ensures EntryOfConn(conns, ents, filter, false, resolve, c, LookedUp(f, resolve))
  {
    hide Members, FirstOwner, PortListens, DottedQuad, Decimal;
  }

  /** What the netlink builder returns: an entry under the key of each listed connection, and no
      other entry. */
  lemma NetlinkEntries(conns: seq<Conn>, ents: UserEnts, filter: string, numeric: bool, resolve: string -> string)
    ensures var m := NetlinkResult(conns, ents, filter, numeric, resolve);
      && (forall i :: 0 <= i < |conns| && Listed(filter, conns[i]) ==> ConnKey(conns, conns[i]) in m)
      && forall k :: k in m ==>
           exists c :: c in conns && Listed(filter, c) && k == ConnKey(conns, c) &&
             EntryOfConn(conns, ents, filter, numeric, resolve, c, m[k])
  {
    hide UniqKey, NetlinkFlow, NetlinkFlows, Grouped, Listed, ConnKey, EntryOfConn, LookedUp;
    var fs, m := NetlinkFlows(conns, ents, filter, conns), NetlinkResult(conns, ents, filter, numeric, resolve);
    forall i | 0 <= i < |conns| && Listed(filter, conns[i]) ensures ConnKey(conns, conns[i]) in m {
      var j := FlowOfListed(conns, ents, filter, conns, i);
      ConnFlowKey(conns, ents, conns[i]);
      GroupedKeys(fs, ConnKey(conns, conns[i]));
    }
    forall k | k in m
      ensures exists c ::
        c in conns && Listed(filter, c) && k == ConnKey(conns, c) && EntryOfConn(conns, ents, filter, numeric, resolve, c, m[k])
    {
      var c := GroupOfConn(conns, ents, filter, k);
      NamedEntry(conns, ents, filter, resolve, c, Grouped(fs)[k]);
    }
  }

  /* ----- The entries of the fallback ----- */

  predicate StatListed(s: ConnectionStat) {
    s.status != 2 && s.status != 3 && s.status != 10
  }

  ghost function StatKey(stats: seq<ConnectionStat>, s: ConnectionStat): string {
    if StatPortListens(stats, s.laddr.port) then
      "passive-" + (JoinHostPort(s.laddr.ip, Decimal(s.laddr.port)) + "-" + JoinHostPort(s.raddr.ip, "many"))
    else
      "active-" + (JoinHostPort(s.laddr.ip, "many") + "-" + JoinHostPort(s.raddr.ip, Decimal(s.raddr.port)))
  }

  ghost function StatFlow(stats: seq<ConnectionStat>, s: ConnectionStat): FlowRecord {
    FlowShape(ListensOn(stats, Decimal(s.laddr.port)), s)
  }

  lemma StatFlowKey(stats: seq<ConnectionStat>, s: ConnectionStat)
    ensures UniqKey(StatFlow(stats, s)) == StatKey(stats, s)
  {
    var f := StatFlow(stats, s);
    StatFlowEnds(stats, s);
    assert Describes(f, StatPortListens(stats, s.laddr.port), s.laddr.ip, s.laddr.port, s.raddr.ip, s.raddr.port) && Unnamed(f);
    UniqKeyText(f);
    hide UniqKey, StatFlow, StatPortListens, Decimal, JoinHostPort;
    assert "passive" + "-" == "passive-" && "active" + "-" == "active-";
  }

  ghost function StatMembers(stats: seq<ConnectionStat>, cs: seq<ConnectionStat>, k: string): set<nat> {
    set i: nat | 0 <= i < |cs| && StatListed(cs[i]) && StatKey(stats, cs[i]) == k
  }

  lemma StatMembersOneMore(stats: seq<ConnectionStat>, front: seq<ConnectionStat>, d: ConnectionStat, k: string)
    ensures |StatMembers(stats, front + [d], k)| ==
      |StatMembers(stats, front, k)| + if StatListed(d) && StatKey(stats, d) == k then 1 else 0
  {
    hide StatListed, StatKey;
    var m, more := StatMembers(stats, front, k), StatMembers(stats, front + [d], k);
    assert forall i: nat :: i < |front| ==> (front + [d])[i] == front[i];
    assert more == m + if StatListed(d) && StatKey(stats, d) == k then {|front|} else {};
    assert |front| !in m;
  }

  lemma ProcfsOneMore(stats: seq<ConnectionStat>, front: seq<ConnectionStat>, d: ConnectionStat)
    ensures ProcfsFlows(stats, front + [d]) == if StatListed(d) then ProcfsFlows(stats, front) + [StatFlow(stats, d)] else ProcfsFlows(stats, front)
  {
    hide FlowShape, ListensOn;
    assert (front + [d])[..|front|] == front;
  }

  ghost predicate FlowListed(stats: seq<ConnectionStat>, cs: seq<ConnectionStat>, f: FlowRecord) {
    exists i :: 0 <= i < |cs| && StatListed(cs[i]) && f == StatFlow(stats, cs[i])
  }

  ghost predicate FromListed(stats: seq<ConnectionStat>, cs: seq<ConnectionStat>, fs: seq<FlowRecord>) {
    forall j :: 0 <= j < |fs| ==> FlowListed(stats, cs, fs[j])
  }

  lemma FlowListedLater(stats: seq<ConnectionStat>, front: seq<ConnectionStat>, d: ConnectionStat, f: FlowRecord)
    requires FlowListed(stats, front, f)
    ensures FlowListed(stats, front + [d], f)
  {
    hide StatListed, StatFlow;
    var i :| 0 <= i < |front| && StatListed(front[i]) && f == StatFlow(stats, front[i]);
    assert (front + [d])[i] == front[i];
  }

  lemma FromListedOneMore(stats: seq<ConnectionStat>, front: seq<ConnectionStat>, d: ConnectionStat, fs: seq<FlowRecord>)
    requires FromListed(stats, front, fs)
    ensures FromListed(stats, front + [d], fs)
    ensures StatListed(d) ==> FromListed(stats, front + [d], fs + [StatFlow(stats, d)])
  {
    hide StatListed, StatFlow;
    assert StatListed(d) ==> FlowListed(stats, front + [d], StatFlow(stats, d)) by {
      assert (front + [d])[|front|] == d;
    }
    hide FlowListed;
    forall j | 0 <= j < |fs| ensures FlowListed(stats, front + [d], fs[j]) {
      FlowListedLater(stats, front, d, fs[j]);
    }
  }

  /** The flows of cs: each of a listed connection; as many of key k as are listed with that key. */
  lemma {:induction false} ProcfsUpTo(stats: seq<ConnectionStat>, cs: seq<ConnectionStat>, k: string)
    ensures var fs := ProcfsFlows(stats, cs);
      && Occurrences(fs, k) == |StatMembers(stats, cs, k)|
      && FromListed(stats, cs, fs)
  {
    hide *;
    if cs == [] {
      NoStats(stats, k);
    } else {
      var n := |cs| - 1;
      var front, d := cs[..n], cs[n];
      assert cs == front + [d];
      ProcfsUpTo(stats, front, k);
      ProcfsOneMore(stats, front, d);
      StatMembersOneMore(stats, front, d, k);
      StatFlowKey(stats, d);
      GroupOneMore(ProcfsFlows(stats, front), StatFlow(stats, d), k);
      FromListedOneMore(stats, front, d, ProcfsFlows(stats, front));
    }
  }

  lemma NoStats(stats: seq<ConnectionStat>, k: string)
    ensures ProcfsFlows(stats, []) == [] && Occurrences([], k) == 0 && StatMembers(stats, [], k) == {}
    ensures FromListed(stats, [], [])
  {
  }

  ghost predicate EntryOfStat(stats: seq<ConnectionStat>, s: ConnectionStat, f: FlowRecord) {
    && Describes(f, StatPortListens(stats, s.laddr.port), s.laddr.ip, s.laddr.port, s.raddr.ip, s.raddr.port)
    && f.local.name == "" && f.peer.name == "" && f.process == None
    && f.connections == |StatMembers(stats, stats, StatKey(stats, s))|
  }

  /** What the fallback returns: likewise, without names and processes, and without a filter. */
  lemma ProcfsEntries(stats: seq<ConnectionStat>)
    ensures var m := Grouped(ProcfsFlows(stats, stats));
      && (forall i :: 0 <= i < |stats| && StatListed(stats[i]) ==> StatKey(stats, stats[i]) in m)
      && forall k :: k in m ==>
           exists s :: s in stats && StatListed(s) && k == StatKey(stats, s) && EntryOfStat(stats, s, m[k])
  {
    hide UniqKey, ProcfsFlows, Grouped, Occurrences, StatListed, StatKey, StatFlow, StatMembers, EntryOfStat;
    var fs, m := ProcfsFlows(stats, stats), Grouped(ProcfsFlows(stats, stats));
    forall i | 0 <= i < |stats| && StatListed(stats[i]) ensures StatKey(stats, stats[i]) in m {
      var k := StatKey(stats, stats[i]);
      ProcfsUpTo(stats, stats, k);
      MemberListed(stats, i);
      GroupedKeys(fs, k);
    }
    forall k | k in m
      ensures exists s :: s in stats && StatListed(s) && k == StatKey(stats, s) && EntryOfStat(stats, s, m[k])
    {
      var s := GroupOfStat(stats, k);
    }
  }

  lemma MemberListed(stats: seq<ConnectionStat>, i: nat)
    requires i < |stats| && StatListed(stats[i])
    ensures |StatMembers(stats, stats, StatKey(stats, stats[i]))| > 0
  {
    hide StatListed, StatKey;
    assert i in StatMembers(stats, stats, StatKey(stats, stats[i]));
  }

  lemma GroupOfStat(stats: seq<ConnectionStat>, k: string) returns (s: ConnectionStat)
    requires k in Grouped(ProcfsFlows(stats, stats))
    ensures s in stats && StatListed(s) && k == StatKey(stats, s) && EntryOfStat(stats, s, Grouped(ProcfsFlows(stats, stats))[k])
  {
    hide UniqKey, ProcfsFlows, Grouped, Occurrences, StatListed, StatMembers, StatPortListens, Decimal;
    var fs := ProcfsFlows(stats, stats);
    var j := GroupedMeaning(fs, k);
    ProcfsUpTo(stats, stats, k);
    assert FlowListed(stats, stats, fs[j]);
    var i :| 0 <= i < |stats| && StatListed(stats[i]) && fs[j] == StatFlow(stats, stats[i]);
    s := stats[i];
    StatFlowKey(stats, s);
    StatFlowEnds(stats, s);
    NoProcesses(stats, k);
  }

  lemma NoProcesses(stats: seq<ConnectionStat>, k: string)
    requires k in Grouped(ProcfsFlows(stats, stats))
    ensures Grouped(ProcfsFlows(stats, stats))[k].process == None
  {
    hide UniqKey, ProcfsFlows, Grouped, Occurrences, StatListed, StatKey;
    var fs := ProcfsFlows(stats, stats);
    var j := GroupedMeaning(fs, k);
    ProcfsUpTo(stats, stats, k);
    forall j | 0 <= j < |fs| ensures fs[j].process.None? {
      assert FlowListed(stats, stats, fs[j]);
    }
  }
}

/** What the two builders promise together: the fallback reports the same flows, and the public
    and the private list are the two parts of the full one. */
module Listing {
  import opened Options
  import opened Text
  import opened Inet
  import opened PrivateIP
  import opened Probe
  import opened Netlink

  /* ----- The fallback ----- */

  function WithoutProcess(f: FlowRecord): FlowRecord {
    f.(process := None)
  }

  function WithoutNames(f: FlowRecord): FlowRecord {
    f.(local := f.local.(name := ""), peer := f.peer.(name := ""), process := None)
  }

  /** The same flows, processes and looked-up names aside. */
  ghost predicate SameButNames(m: map<string, FlowRecord>, m': map<string, FlowRecord>) {
    m.Keys == m'.Keys && forall k :: k in m ==> WithoutNames(m[k]) == WithoutNames(m'[k])
  }

  /** The same flows, processes aside. */
  ghost predicate SameFlows(m: map<string, FlowRecord>, m': map<string, FlowRecord>) {
    m.Keys == m'.Keys && forall k :: k in m ==> WithoutProcess(m[k]) == WithoutProcess(m'[k])
  }

  ghost predicate SameButProcess(a: seq<FlowRecord>, b: seq<FlowRecord>) {
    |a| == |b| && forall i :: 0 <= i < |a| ==> WithoutProcess(a[i]) == WithoutProcess(b[i])
  }

  lemma MergeSameFlows(m: map<string, FlowRecord>, m': map<string, FlowRecord>, f: FlowRecord, f': FlowRecord)
    requires SameFlows(m, m') && WithoutProcess(f) == WithoutProcess(f')
    ensures SameFlows(Merge(m, f), Merge(m', f'))
  {
    assert UniqKey(f) == UniqKey(WithoutProcess(f)) == UniqKey(f');
    hide UniqKey;
  }

  lemma {:induction false} GroupedSameFlows(a: seq<FlowRecord>, b: seq<FlowRecord>)
    requires SameButProcess(a, b)
    ensures SameFlows(Grouped(a), Grouped(b))
  {
    if a != [] {
      var n := |a| - 1;
      GroupedSameFlows(a[..n], b[..n]);
      MergeSameFlows(Grouped(a[..n]), Grouped(b[..n]), a[n], b[n]);
    }
  }

  lemma SameButProcessOneMore(a: seq<FlowRecord>, b: seq<FlowRecord>, f: FlowRecord, f': FlowRecord)
    requires SameButProcess(a, b) && WithoutProcess(f) == WithoutProcess(f')
    ensures SameButProcess(a + [f], b + [f'])
  {
  }

  ghost predicate SameBuilt(all: seq<Conn>, ents: UserEnts, filter: string, cs: seq<Conn>) {
    SameButProcess(NetlinkFlows(all, ents, filter, cs), ProcfsFlows(Stats(all), Stats(cs)))
  }

  lemma NothingBuilt(all: seq<Conn>, ents: UserEnts, filter: string)
    ensures SameBuilt(all, ents, filter, [])
  {
    assert NetlinkFlows(all, ents, filter, []) == [];
  }

  lemma SameBuiltOneMore(all: seq<Conn>, ents: UserEnts, filter: string, front: seq<Conn>, c: Conn)
    requires SameBuilt(all, ents, filter, front) && (!Skipped(c.state) ==> Passes(filter, c.dst))
    ensures SameBuilt(all, ents, filter, front + [c])
  {
    hide NetlinkFlow, FlowShape, ListensOn, Passes, NetlinkFlows, ProcfsFlows, Stats, SameButProcess, WithoutProcess;
    FlowsOfOneMore(all, ents, filter, front, c);
    StatsOfOneMore(Stats(all), front, c);
    var a, b := NetlinkFlows(all, ents, filter, front), ProcfsFlows(Stats(all), Stats(front));
    assert b + [] == b;
    NetlinkFlowShape(all, ents, c);
    SameButProcessOneMore(a, b, NetlinkFlow(all, ents, c), FlowShape(ListensOn(Stats(all), Decimal(c.sport)), Stat(c)));
  }

  lemma {:induction false} BuildersSameFlows(all: seq<Conn>, ents: UserEnts, filter: string, cs: seq<Conn>)
    requires forall i :: 0 <= i < |cs| && !Skipped(cs[i].state) ==> Passes(filter, cs[i].dst)
    ensures SameBuilt(all, ents, filter, cs)
  {
    hide *;
    if cs == [] {
      NothingBuilt(all, ents, filter);
    } else {
      var n := |cs| - 1;
      BuildersSameFlows(all, ents, filter, cs[..n]);
      SameBuiltOneMore(all, ents, filter, cs[..n], cs[n]);
      assert cs == cs[..n] + [cs[n]];
    }
  }

  lemma FlowsOfOneMore(all: seq<Conn>, ents: UserEnts, filter: string, front: seq<Conn>, c: Conn)
    ensures NetlinkFlows(all, ents, filter, front + [c]) ==
      if Skipped(c.state) || !Passes(filter, c.dst) then NetlinkFlows(all, ents, filter, front)
      else NetlinkFlows(all, ents, filter, front) + [NetlinkFlow(all, ents, c)]
  {
    assert (front + [c])[..|front|] == front;
  }

  lemma StatsOfOneMore(stats: seq<ConnectionStat>, front: seq<Conn>, c: Conn)
    ensures ProcfsFlows(stats, Stats(front + [c])) == ProcfsFlows(stats, Stats(front)) +
      if Skipped(c.state) then [] else [FlowShape(ListensOn(stats, Decimal(c.sport)), Stat(c))]
  {
    assert Stats(front + [c]) == Stats(front) + [Stat(c)];
    assert Stats(front + [c])[..|front|] == Stats(front);
  }

  lemma NetlinkFlowShape(all: seq<Conn>, ents: UserEnts, c: Conn)
    ensures var shape := FlowShape(ListensOn(Stats(all), Decimal(c.sport)), Stat(c));
      WithoutProcess(NetlinkFlow(all, ents, c)) == WithoutProcess(shape)
  {
  }

  /** How many connections become part of a flow. */
  function Surviving(filter: string, cs: seq<Conn>): nat {
    if cs == [] then 0
    else
      var n := |cs| - 1;
      Surviving(filter, cs[..n]) + if Skipped(cs[n].state) || !Passes(filter, cs[n].dst) then 0 else 1
  }

  lemma {:induction false} FlowsAreSurvivors(all: seq<Conn>, ents: UserEnts, filter: string, cs: seq<Conn>)
    ensures AllFresh(NetlinkFlows(all, ents, filter, cs))
    ensures |NetlinkFlows(all, ents, filter, cs)| == Surviving(filter, cs)
  {
    if cs != [] {
      FlowsAreSurvivors(all, ents, filter, cs[..|cs| - 1]);
    }
  }

  /** The counts of a list add up to the connections that were not skipped and pass the filter. */
  lemma TotalIsSurviving(conns: seq<Conn>, ents: UserEnts, filter: string)
    ensures Total(Grouped(NetlinkFlows(conns, ents, filter, conns))) == Surviving(filter, conns)
  {
    FlowsAreSurvivors(conns, ents, filter, conns);
    GroupedTotal(NetlinkFlows(conns, ents, filter, conns));
  }

  lemma {:induction false} FilterLoses(filter: string, cs: seq<Conn>)
    ensures Surviving(filter, cs) <= Surviving("all", cs)
    ensures Surviving(filter, cs) == Surviving("all", cs) <==>
      forall i :: 0 <= i < |cs| && !Skipped(cs[i].state) ==> Passes(filter, cs[i].dst)
  {
    if cs != [] {
      var n := |cs| - 1;
      FilterLoses(filter, cs[..n]);
      assert forall i :: 0 <= i < n ==> cs[..n][i] == cs[i];
    }
  }

  lemma {:induction false} SameFlowsSameTotal(m: map<string, FlowRecord>, m': map<string, FlowRecord>)
    requires SameButNames(m, m')
    ensures Total(m) == Total(m')
    decreases |m|
  {
    if m == map[] {
      assert m' == map[];
    } else {
      var k :| k in m;
      TotalWithout(m, k);
      TotalWithout(m', k);
      assert WithoutNames(m[k]) == WithoutNames(m'[k]);
      SameFlowsSameTotal(m - {k}, m' - {k});
    }
  }

  lemma SameFlowsSameButNames(m: map<string, FlowRecord>, m': map<string, FlowRecord>)
    requires SameFlows(m, m')
    ensures SameButNames(m, m')
  {
    forall k | k in m ensures WithoutNames(m[k]) == WithoutNames(m'[k]) {
      assert WithoutNames(m[k]) == WithoutNames(WithoutProcess(m[k]));
    }
  }

  /** Name lookup changes names only. */
  lemma ResolvedSameButNames(m: map<string, FlowRecord>, resolve: string -> string, m': map<string, FlowRecord>)
    ensures SameButNames(Resolved(m, resolve), m') <==> SameButNames(m, m')
  {
    assert forall k :: k in m ==> WithoutNames(Resolved(m, resolve)[k]) == WithoutNames(m[k]);
  }

  /** The filter would drop no connection that is listed. */
  ghost predicate FilterDropsNone(filter: string, conns: seq<Conn>) {
    forall i :: 0 <= i < |conns| && !Skipped(conns[i].state) ==> Passes(filter, conns[i].dst)
  }

  lemma GroupsAgree(conns: seq<Conn>, ents: UserEnts, filter: string)
    requires FilterDropsNone(filter, conns)
    ensures SameFlows(Grouped(NetlinkFlows(conns, ents, filter, conns)), Grouped(ProcfsFlows(Stats(conns), Stats(conns))))
  {
    BuildersSameFlows(conns, ents, filter, conns);
    GroupedSameFlows(NetlinkFlows(conns, ents, filter, conns), ProcfsFlows(Stats(conns), Stats(conns)));
  }

  lemma GroupsDiffer(conns: seq<Conn>, ents: UserEnts, filter: string)
    requires !FilterDropsNone(filter, conns)
    ensures !SameButNames(Grouped(NetlinkFlows(conns, ents, filter, conns)), Grouped(ProcfsFlows(Stats(conns), Stats(conns))))
  {
    FilterLoses(filter, conns);
    assert FilterDropsNone("all", conns);
    TotalIsSurviving(conns, ents, "all");
    TotalIsSurviving(conns, ents, filter);
    hide *;
    var m, all, m' := Grouped(NetlinkFlows(conns, ents, filter, conns)), Grouped(NetlinkFlows(conns, ents, "all", conns)),
      Grouped(ProcfsFlows(Stats(conns), Stats(conns)));
    GroupsAgree(conns, ents, "all");
    SameFlowsSameButNames(all, m');
    SameFlowsSameTotal(all, m');
    if SameButNames(m, m') {
      SameFlowsSameTotal(m, m');
    }
  }

  /** The fallback ignores the options. It gives what the netlink builder would have returned,
      names looked up or not, with equal directions, addresses, ports and counts, exactly when the
      filter would have dropped no connection. Without name lookup the names are equal too. */
  lemma FallbackAgrees(conns: seq<Conn>, ents: UserEnts, filter: string, numeric: bool, resolve: string -> string)
    ensures var listed, fallback := NetlinkResult(conns, ents, filter, numeric, resolve), Grouped(ProcfsFlows(Stats(conns), Stats(conns)));
      && (SameButNames(listed, fallback) <==> FilterDropsNone(filter, conns))
      && (numeric ==> (SameFlows(listed, fallback) <==> FilterDropsNone(filter, conns)))
  {
    var m, m' := Grouped(NetlinkFlows(conns, ents, filter, conns)), Grouped(ProcfsFlows(Stats(conns), Stats(conns)));
    hide Grouped, NetlinkFlows, ProcfsFlows, SameFlows, SameButNames, FilterDropsNone, Resolved, Stats;
    ResolvedSameButNames(m, resolve, m');
    if FilterDropsNone(filter, conns) {
      GroupsAgree(conns, ents, filter);
      SameFlowsSameButNames(m, m');
    } else {
      GroupsDiffer(conns, ents, filter);
      if SameFlows(m, m') {
        SameFlowsSameButNames(m, m');
      }
    }
  }

  /* ----- The filters ----- */

  lemma DecimalHasNo(n: nat, c: char)
    requires !IsDigit(c)
    ensures c !in Decimal(n)
  {
  }

  lemma ShapeIsPlain(passive: bool, c: Conn)
    ensures var f := FlowShape(passive, Stat(c)); PlainEndpoint(f.local) && PlainEndpoint(f.peer)
  {
    JoinedDigits(Octets(c.src));
    JoinedDigits(Octets(c.dst));
    DecimalHasNo(c.sport, '-');
    DecimalHasNo(c.dport, '-');
  }

  /** What a group is: connections share a key exactly when they have the same direction, the same
      two addresses, and the same port on the side that listens. */
  lemma KeyMeaning(p: bool, c: Conn, p': bool, c': Conn)
    ensures UniqKey(FlowShape(p, Stat(c))) == UniqKey(FlowShape(p', Stat(c'))) <==>
      p == p' && c.src == c'.src && c.dst == c'.dst && if p then c.sport == c'.sport else c.dport == c'.dport
  {
    var f, f' := FlowShape(p, Stat(c)), FlowShape(p', Stat(c'));
    ShapeIsPlain(p, c);
    ShapeIsPlain(p', c');
    UniqKeyInjective(f, f');
    hide UniqKey, DottedQuad, Decimal, PlainEndpoint;
    if SameIdentity(f, f') {
      DottedQuadInjective(c.src, c'.src);
      DottedQuadInjective(c.dst, c'.dst);
      if p {
        DecimalInjective(c.sport, c'.sport);
      } else {
        DecimalInjective(c.dport, c'.dport);
      }
    }
  }

  /** Every flow of a list comes from a connection that passes the filter. */
  lemma {:induction false} FlowHasConn(all: seq<Conn>, ents: UserEnts, filter: string, cs: seq<Conn>, i: nat)
    returns (passive: bool, c: Conn)
    requires i < |NetlinkFlows(all, ents, filter, cs)|
    ensures UniqKey(NetlinkFlows(all, ents, filter, cs)[i]) == UniqKey(FlowShape(passive, Stat(c)))
    ensures Passes(filter, c.dst)
  {
    hide KeyText;
    var n := |cs| - 1;
    var front := NetlinkFlows(all, ents, filter, cs[..n]);
    if i < |front| {
      passive, c := FlowHasConn(all, ents, filter, cs[..n], i);
    } else {
      passive, c := ListensOn(Stats(all), Decimal(cs[n].sport)), cs[n];
    }
  }

  /** No key of one list can come from a connection of the other kind. */
  lemma KindsApart(all: seq<Conn>, ents: UserEnts, filter: string, cs: seq<Conn>, f: FlowRecord, passive: bool, c: Conn)
    requires UniqKey(f) == UniqKey(FlowShape(passive, Stat(c))) && !Passes(filter, c.dst)
    ensures UniqKey(f) !in Grouped(NetlinkFlows(all, ents, filter, cs))
  {
    hide KeyText;
    var fs, k := NetlinkFlows(all, ents, filter, cs), UniqKey(f);
    GroupedKeys(fs, k);
    if k in Grouped(fs) {
      var i :| 0 <= i < |fs| && UniqKey(fs[i]) == k;
      var p, d := FlowHasConn(all, ents, filter, cs, i);
      KeyMeaning(p, d, passive, c);
    }
  }

  ghost predicate DisjointUnion(a: map<string, FlowRecord>, p: map<string, FlowRecord>, q: map<string, FlowRecord>) {
    p.Keys !! q.Keys && a == p + q
  }

  lemma MergeLeft(a: map<string, FlowRecord>, p: map<string, FlowRecord>, q: map<string, FlowRecord>, f: FlowRecord)
    requires DisjointUnion(a, p, q) && UniqKey(f) !in q
    ensures DisjointUnion(Merge(a, f), Merge(p, f), q)
  {
    hide UniqKey;
    assert forall k :: k in Merge(a, f) ==> k in Merge(p, f) + q && Merge(a, f)[k] == (Merge(p, f) + q)[k];
  }

  lemma MergeRight(a: map<string, FlowRecord>, p: map<string, FlowRecord>, q: map<string, FlowRecord>, f: FlowRecord)
    requires DisjointUnion(a, p, q) && UniqKey(f) !in p
    ensures DisjointUnion(Merge(a, f), p, Merge(q, f))
  {
    hide UniqKey;
    assert a == q + p;
    assert forall k :: k in Merge(a, f) ==> k in p + Merge(q, f) && Merge(a, f)[k] == (p + Merge(q, f))[k];
  }

  ghost predicate Partitioned(all: seq<Conn>, ents: UserEnts, cs: seq<Conn>) {
    DisjointUnion(Grouped(NetlinkFlows(all, ents, "all", cs)),
                  Grouped(NetlinkFlows(all, ents, "public", cs)), Grouped(NetlinkFlows(all, ents, "private", cs)))
  }

  lemma NothingGrouped(all: seq<Conn>, ents: UserEnts, filter: string)
    ensures Grouped(NetlinkFlows(all, ents, filter, [])) == map[]
  {
  }

  lemma NothingPartitioned(all: seq<Conn>, ents: UserEnts)
    ensures Partitioned(all, ents, [])
  {
    hide Grouped, NetlinkFlows;
    NothingGrouped(all, ents, "all");
    NothingGrouped(all, ents, "public");
    NothingGrouped(all, ents, "private");
  }

  lemma {:induction false} PartitionUpTo(all: seq<Conn>, ents: UserEnts, cs: seq<Conn>)
    ensures Partitioned(all, ents, cs)
  {
    hide *;
    if cs == [] {
      NothingPartitioned(all, ents);
    } else {
      var n := |cs| - 1;
      PartitionUpTo(all, ents, cs[..n]);
      PartitionStep(all, ents, cs[..n], cs[n]);
      assert cs == cs[..n] + [cs[n]];
    }
  }

  lemma PartitionStep(all: seq<Conn>, ents: UserEnts, front: seq<Conn>, c: Conn)
    requires Partitioned(all, ents, front)
    ensures Partitioned(all, ents, front + [c])
  {
    var f, passive := NetlinkFlow(all, ents, c), ListensOn(Stats(all), Decimal(c.sport));
    assert UniqKey(f) == UniqKey(FlowShape(passive, Stat(c)));
    hide UniqKey, NetlinkFlow, FlowShape, Grouped, Merge, DisjointUnion, IsPrivate, NetlinkFlows;
    FlowsOfOneMore(all, ents, "all", front, c);
    FlowsOfOneMore(all, ents, "public", front, c);
    FlowsOfOneMore(all, ents, "private", front, c);
    var a, p, q := NetlinkFlows(all, ents, "all", front), NetlinkFlows(all, ents, "public", front), NetlinkFlows(all, ents, "private", front);
    GroupedNext(a, f);
    GroupedNext(p, f);
    GroupedNext(q, f);
    if !Skipped(c.state) {
      if IsPrivate(c.dst) {
        KindsApart(all, ents, "public", front, f, passive, c);
        MergeRight(Grouped(a), Grouped(p), Grouped(q), f);
      } else {
        KindsApart(all, ents, "private", front, f, passive, c);
        MergeLeft(Grouped(a), Grouped(p), Grouped(q), f);
      }
    }
  }

  /** The full list is the disjoint union of the public and the private list, with the same
      counts and processes. */
  lemma FiltersPartition(conns: seq<Conn>, ents: UserEnts)
    ensures DisjointUnion(Grouped(NetlinkFlows(conns, ents, "all", conns)),
                          Grouped(NetlinkFlows(conns, ents, "public", conns)), Grouped(NetlinkFlows(conns, ents, "private", conns)))
  {
    PartitionUpTo(conns, ents, conns);
  }
}

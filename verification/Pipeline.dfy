/** The stages put together: what aggregation produces, the schema accepts; and the fallback,
    fed with the kernel's own text, lists what netlink would have listed. */
module Pipeline {
  import opened Options
  import opened Text
  import opened Inet
  import opened Probe
  import opened Store
  import opened Invariant
  import opened Saturation
  import opened Database
  import opened Streaming
  import opened Netlink
  import opened Listing
  import opened Procfs

  /* ----- Aggregation and the schema ----- */

  lemma {:induction false} OccurrencesBounded(fs: seq<FlowRecord>, k: string)
    ensures Occurrences(fs, k) <= |fs|
  {
    if fs != [] {
      hide UniqKey;
      OccurrencesBounded(fs[..|fs| - 1], k);
    }
  }

  /** Events whose addresses, ports, process group and process name are legal. */
  ghost predicate Reportable(inet: InetParser, fs: seq<FlowRecord>) {
    forall i :: 0 <= i < |fs| ==> Legal(inet, Identity(fs[i]))
  }

  /** The group of a key passes every CHECK: its count is at least one and its process, if any,
      came with one of its flows. */
  lemma {:induction false} GroupLegal(inet: InetParser, fs: seq<FlowRecord>, k: string)
    requires AllFresh(fs) && Reportable(inet, fs) && |fs| <= INT32_MAX && k in Grouped(fs)
    ensures Legal(inet, Grouped(fs)[k])
  {
    hide KeyText;
    var i := GroupedMeaning(fs, k);
    GroupedKeys(fs, k);
    OccurrencesBounded(fs, k);
    var r := Grouped(fs)[k];
    assert Legal(inet, Identity(fs[i]));
    if r.process.Some? {
      var w :| 0 <= w < |fs| && UniqKey(fs[w]) == k && fs[w].process == r.process;
      assert Legal(inet, Identity(fs[w]));
    }
  }

  /** Looked-up names do not reach the database. */
  lemma NamesIrrelevant(inet: InetParser, f: FlowRecord, resolve: string -> string)
    ensures Legal(inet, LookedUp(f, resolve)) <==> Legal(inet, f)
  {
  }

  /** A batch of groups of legal events always commits, in whatever state the tables are. */
  lemma {:induction false} GroupsCommit(inet: InetParser, db: Cmdb, fs: seq<FlowRecord>, b: Batch)
    requires db.Valid() && AllFresh(fs) && Reportable(inet, fs) && |fs| <= INT32_MAX
    requires forall j :: 0 <= j < |b.requests| ==>
      var f := b.requests[j].flow; UniqKey(f) in Grouped(fs) && Grouped(fs)[UniqKey(f)] == f
    ensures Commits(inet, db, b)
  {
    forall j | 0 <= j < |b.requests| ensures Accepted(inet, b.requests[j].flow) {
      GroupLegal(inet, fs, UniqKey(b.requests[j].flow));
    }
    hide *;
    CommitsIffAllAccepted(inet, db, b);
  }

  /** Connections in the states that are listed, with the ports TCP allows; owners that the
      schema can hold; and a parser that reads dotted quads. */
  ghost predicate LegalSnapshot(inet: InetParser, conns: seq<Conn>, ents: UserEnts) {
    && (forall ip :: inet(DottedQuad(ip)).Some?)
    && (forall i :: 0 <= i < |conns| && !Skipped(conns[i].state) ==> 0 < conns[i].sport < 0x10000 && 0 < conns[i].dport < 0x10000)
    && (ents.Some? ==> forall i :: i in ents.value ==> LegalEnt(ents.value[i]))
  }

  predicate LegalEnt(e: UserEnt) {
    LegalPgid(e.pgrp) && |e.pname| <= PNAME_MAX
  }

  lemma {:induction false} LportEntLegal(ents: UserEnts, lconns: seq<Conn>, port: string)
    requires ents.Some? ==> forall i :: i in ents.value ==> LegalEnt(ents.value[i])
    ensures var m := LportEnt(ents, lconns); port in m && m[port].Some? ==> LegalEnt(m[port].value)
  {
    if lconns != [] && ents.Some? {
      LportEntLegal(ents, lconns[..|lconns| - 1], port);
    }
  }

  lemma ShapeLegal(inet: InetParser, conns: seq<Conn>, ents: UserEnts, c: Conn)
    requires LegalSnapshot(inet, conns, ents) && 0 < c.sport < 0x10000 && 0 < c.dport < 0x10000
    ensures Legal(inet, Identity(NetlinkFlow(conns, ents, c)))
  {
    ParseInt32OfDecimal(c.sport);
    ParseInt32OfDecimal(c.dport);
    LportEntLegal(ents, ListeningConns(conns), Decimal(c.sport));
    hide LportEnt, ListeningConns, ListensOn, ParseInt32, DottedQuad, Decimal;
  }

  lemma ReportableAppend(inet: InetParser, fs: seq<FlowRecord>, f: FlowRecord)
    requires Reportable(inet, fs) && Legal(inet, Identity(f))
    ensures Reportable(inet, fs + [f])
  {
    hide Legal;
  }

  lemma EmitsReportable(inet: InetParser, conns: seq<Conn>, ents: UserEnts, filter: string, fs: seq<FlowRecord>, i: nat)
    requires LegalSnapshot(inet, conns, ents) && i < |conns| && Reportable(inet, fs)
    ensures Reportable(inet, fs + NetlinkEmits(conns, ents, filter, conns[i])) && |NetlinkEmits(conns, ents, filter, conns[i])| <= 1
  {
    if !Skipped(conns[i].state) {
      ShapeLegal(inet, conns, ents, conns[i]);
      hide NetlinkFlow, Legal, LegalSnapshot, Reportable;
      ReportableAppend(inet, fs, NetlinkFlow(conns, ents, conns[i]));
    }
    assert fs + [] == fs;
  }

  lemma {:induction false} SnapshotReportable(inet: InetParser, conns: seq<Conn>, ents: UserEnts, filter: string, n: nat)
    requires LegalSnapshot(inet, conns, ents) && n <= |conns|
    ensures Reportable(inet, NetlinkFlows(conns, ents, filter, conns[..n])) && |NetlinkFlows(conns, ents, filter, conns[..n])| <= n
  {
    hide *;
    if n == 0 {
      NothingReportable(inet, conns, ents, filter);
    } else {
      SnapshotReportable(inet, conns, ents, filter, n - 1);
      NetlinkFlowsNext(conns, ents, filter, n - 1);
      EmitsReportable(inet, conns, ents, filter, NetlinkFlows(conns, ents, filter, conns[..n - 1]), n - 1);
    }
  }

  lemma NothingReportable(inet: InetParser, conns: seq<Conn>, ents: UserEnts, filter: string)
    ensures NetlinkFlows(conns, ents, filter, conns[..0]) == []
    ensures Reportable(inet, [])
  {
  }

  /** A polled batch of groups, with or without looked-up names, always commits. */
  lemma ScanCommits(inet: InetParser, db: Cmdb, conns: seq<Conn>, ents: UserEnts, filter: string, resolve: string -> string, b: Batch)
    requires db.Valid() && LegalSnapshot(inet, conns, ents) && |conns| <= INT32_MAX
    requires var groups := Grouped(NetlinkFlows(conns, ents, filter, conns));
      forall j :: 0 <= j < |b.requests| ==>
        b.requests[j].flow in groups.Values || b.requests[j].flow in Resolved(groups, resolve).Values
    ensures Commits(inet, db, b)
  {
    var fs := NetlinkFlows(conns, ents, filter, conns);
    assert conns[..|conns|] == conns;
    SnapshotReportable(inet, conns, ents, filter, |conns|);
    FlowsAreSurvivors(conns, ents, filter, conns);
    forall j | 0 <= j < |b.requests| ensures Accepted(inet, b.requests[j].flow) {
      GroupOrNamedLegal(inet, fs, b.requests[j].flow, resolve);
    }
    hide *;
    CommitsIffAllAccepted(inet, db, b);
  }

  lemma GroupOrNamedLegal(inet: InetParser, fs: seq<FlowRecord>, f: FlowRecord, resolve: string -> string)
    requires AllFresh(fs) && Reportable(inet, fs) && |fs| <= INT32_MAX
    requires f in Grouped(fs).Values || f in Resolved(Grouped(fs), resolve).Values
    ensures Legal(inet, f)
  {
    hide Legal, Reportable, AllFresh;
    if f in Grouped(fs).Values {
      var k :| k in Grouped(fs) && Grouped(fs)[k] == f;
      GroupLegal(inet, fs, k);
    } else {
      var k :| k in Grouped(fs) && LookedUp(Grouped(fs)[k], resolve) == f;
      GroupLegal(inet, fs, k);
      NamesIrrelevant(inet, Grouped(fs)[k], resolve);
    }
  }

  /** One tick of the streaming agent: drain, group, store. */
  method AggregatorTick(db: DB, buffer: FlowChannel, now: int) returns (err: Option<SqlError>, ghost requests: seq<Request>)
    requires db.State().Valid() && |buffer.items| <= FLOW_BUFFER_SIZE
    requires AllFresh(RecordsOf(buffer.items)) && Reportable(db.inet, RecordsOf(buffer.items))
    modifies db, buffer, buffer.items
    ensures err.None? && buffer.items == []
    ensures db.State().Valid() && db.State() == Apply(db.inet, old(db.State()), Batch(now, requests))
  {
    ghost var fs := RecordsOf(buffer.items);
    var flows := Aggregate(buffer);
    err, requests := db.InsertOrUpdateHostFlows(flows, now);
    GroupsCommit(db.inet, old(db.State()), fs, Batch(now, requests));
  }

  /* ----- The fallback and the kernel's text ----- */

  /** The flows the fallback reports from the text of /proc/net/tcp are, processes and looked-up
      names aside, those netlink returns without a filter. */
  lemma FallbackFromText(header: string, ls: seq<KernelLine>, ents: UserEnts, numeric: bool, resolve: string -> string,
                         other: seq<byte> -> string)
    requires '\n' !in header
    ensures var conns, stats := ConnsOf(ls), ParseLines(Split(FileText(header, ls), '\n')[1..], other);
      var listed, fallback := NetlinkResult(conns, ents, "all", numeric, resolve), Grouped(ProcfsFlows(stats, stats));
      SameButNames(listed, fallback) && (numeric ==> SameFlows(listed, fallback))
  {
    var conns := ConnsOf(ls);
    assert FilterDropsNone("all", conns);
    hide *;
    FileRoundTrip(header, ls, other);
    FallbackAgrees(conns, ents, "all", numeric, resolve);
  }
}

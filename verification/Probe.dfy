/** Host flows and their grouping by unique key (probe/probe.go). */
module Probe {
  import opened Options
  import opened Text

  datatype FlowDirection = FlowUnknown | FlowActive | FlowPassive

  datatype AddrPort = AddrPort(name: string, addr: string, port: string)

  datatype Process = Process(name: string, pgid: int)

  /** What the fields of a HostFlow object hold at one moment. */
  datatype FlowRecord = FlowRecord(
    direction: FlowDirection,
    local: AddrPort,
    peer: AddrPort,
    connections: int,
    process: Option<Process>)

  /* ----- Unique keys ----- */

  function DirectionText(d: FlowDirection): string {
    match d
    case FlowActive => "active"
    case FlowPassive => "passive"
    case FlowUnknown => "unknown"
  }

  /** The host part that is printed: the looked-up name, or the address when there is none. */
  function Host(a: AddrPort): string {
    if a.name == "" then a.addr else a.name
  }

  predicate Bracketed(host: string) {
    ':' in host || '%' in host
  }

  /** net.JoinHostPort. */
  function JoinHostPort(host: string, port: string): string {
    if Bracketed(host) then "[" + host + "]:" + port else host + ":" + port
  }

  /** AddrPort.String. */
  function EndpointText(a: AddrPort): string {
    JoinHostPort(Host(a), a.port)
  }

  function KeyText(direction: FlowDirection, local: AddrPort, peer: AddrPort): string {
    Joined([DirectionText(direction), EndpointText(local), EndpointText(peer)], '-')
  }

  function UniqKey(f: FlowRecord): string {
    KeyText(f.direction, f.local, f.peer)
  }

  /** Every IP literal and every host name is of this form; '-' is allowed in a host. */
  predicate PlainHost(host: string) {
    if Bracketed(host) then ']' !in host else host == "" || host[0] != '['
  }

  predicate PlainEndpoint(a: AddrPort) {
    PlainHost(Host(a)) && '-' !in a.port
  }

  lemma EndpointTail(h: string, p: string, rest: string)
    requires PlainHost(h)
    ensures var s, tail := JoinHostPort(h, p) + "-" + rest, p + "-" + rest;
      && s != [] && (s[0] == '[' <==> Bracketed(h))
      && s == if Bracketed(h) then ("[" + h) + "]" + (":" + tail) else h + ":" + tail
  {
    if Bracketed(h) {
      BracketedTail(h, p, rest);
    } else {
      assert JoinHostPort(h, p) + "-" + rest == h + ":" + (p + "-" + rest);
    }
  }

  lemma BracketedTail(h: string, p: string, rest: string)
    ensures ("[" + h + "]:" + p) + "-" + rest == ("[" + h) + "]" + (":" + (p + "-" + rest))
  {
  }

  lemma DropFirst(h: string, tail: string)
    ensures ("[" + h)[1..] == h && (":" + tail)[1..] == tail
  {
  }

  lemma JoinHostPortInjective(h: string, p: string, rest: string, h': string, p': string, rest': string)
    requires PlainHost(h) && PlainHost(h') && '-' !in p && '-' !in p'
    requires JoinHostPort(h, p) + "-" + rest == JoinHostPort(h', p') + "-" + rest'
    ensures h == h' && p == p' && rest == rest'
  {
    var s := JoinHostPort(h, p) + "-" + rest;
    EndpointTail(h, p, rest);
    EndpointTail(h', p', rest');
    assert (s[0] == '[') == Bracketed(h) == Bracketed(h');
    var tail, tail' := p + "-" + rest, p' + "-" + rest';
    if Bracketed(h) {
      SplitUnique("[" + h, ":" + tail, "[" + h', ":" + tail', ']');
      DropFirst(h, tail);
      DropFirst(h', tail');
    } else {
      SplitUnique(h, tail, h', tail', ':');
    }
    SplitUnique(p, rest, p', rest', '-');
  }

  /** Two flows share a key exactly when they agree on direction, hosts and ports. */
  predicate SameIdentity(f: FlowRecord, g: FlowRecord) {
    && f.direction == g.direction
    && Host(f.local) == Host(g.local) && f.local.port == g.local.port
    && Host(f.peer) == Host(g.peer) && f.peer.port == g.peer.port
  }

  lemma JoinedThree(x: string, y: string, z: string)
    ensures Joined([x, y, z], '-') == x + "-" + (y + "-" + z)
  {
    assert [x, y, z][1..] == [y, z];
    assert [y, z][1..] == [z];
    assert Joined([y, z], '-') == y + "-" + Joined([z], '-');
  }

  lemma KeyParts(f: FlowRecord)
    ensures UniqKey(f) == DirectionText(f.direction) + "-" + (EndpointText(f.local) + "-" + EndpointText(f.peer))
  {
    JoinedThree(DirectionText(f.direction), EndpointText(f.local), EndpointText(f.peer));
  }

  /** The text of an endpoint: the name, or else the address, bracketed when it has a colon or a
      zone. */
  lemma EndpointParts(a: AddrPort)
    ensures var host := if a.name == "" then a.addr else a.name;
      EndpointText(a) == if ':' in host || '%' in host then "[" + host + "]:" + a.port else host + ":" + a.port
  {
  }

  /** The text of a key, part by part. */
  lemma UniqKeyText(f: FlowRecord)
    ensures UniqKey(f) ==
      (match f.direction case FlowActive => "active" case FlowPassive => "passive" case FlowUnknown => "unknown") + "-" +
      (JoinHostPort(if f.local.name == "" then f.local.addr else f.local.name, f.local.port) + "-" +
       JoinHostPort(if f.peer.name == "" then f.peer.addr else f.peer.name, f.peer.port))
  {
    KeyParts(f);
  }

  lemma UniqKeyInjective(f: FlowRecord, g: FlowRecord)
    requires PlainEndpoint(f.local) && PlainEndpoint(f.peer)
    requires PlainEndpoint(g.local) && PlainEndpoint(g.peer)
    ensures UniqKey(f) == UniqKey(g) <==> SameIdentity(f, g)
  {
    if UniqKey(f) == UniqKey(g) {
      KeyParts(f);
      KeyParts(g);
      var l, p, l', p' := EndpointText(f.local), EndpointText(f.peer), EndpointText(g.local), EndpointText(g.peer);
      SplitUnique(DirectionText(f.direction), l + "-" + p, DirectionText(g.direction), l' + "-" + p', '-');
      JoinHostPortInjective(Host(f.local), f.local.port, p, Host(g.local), g.local.port, p');
      assert p + "-" + "" == p' + "-" + "";
      JoinHostPortInjective(Host(f.peer), f.peer.port, "", Host(g.peer), g.peer.port, "");
    }
  }

  /* ----- Grouping: the specification ----- */

  /** One insertion: the first flow of a key stays, later ones count and may supply a process. */
  function Merge(m: map<string, FlowRecord>, f: FlowRecord): map<string, FlowRecord> {
    var k := UniqKey(f);
    if k in m then
      m[k := m[k].(connections := m[k].connections + 1,
                   process := if m[k].process.None? then f.process else m[k].process)]
    else
      m[k := f.(connections := f.connections + 1)]
  }

  function Grouped(fs: seq<FlowRecord>): map<string, FlowRecord> {
    if fs == [] then map[] else Merge(Grouped(fs[..|fs| - 1]), fs[|fs| - 1])
  }

  lemma GroupedNext(fs: seq<FlowRecord>, f: FlowRecord)
    ensures Grouped(fs + [f]) == Merge(Grouped(fs), f)
  {
    assert (fs + [f])[..|fs|] == fs;
  }

  function Occurrences(fs: seq<FlowRecord>, k: string): nat {
    if fs == [] then 0
    else Occurrences(fs[..|fs| - 1], k) + if UniqKey(fs[|fs| - 1]) == k then 1 else 0
  }

  ghost predicate FirstOf(fs: seq<FlowRecord>, k: string, i: nat) {
    && i < |fs| && UniqKey(fs[i]) == k
    && forall j :: 0 <= j < i ==> UniqKey(fs[j]) != k
  }

  /** p is the first process reported for key k, or None when no flow of that key has one. */
  ghost predicate FirstProcess(fs: seq<FlowRecord>, k: string, p: Option<Process>) {
    if p.None? then
      forall j :: 0 <= j < |fs| && UniqKey(fs[j]) == k ==> fs[j].process.None?
    else
      exists i :: 0 <= i < |fs| && UniqKey(fs[i]) == k && fs[i].process == p &&
        forall j :: 0 <= j < i && UniqKey(fs[j]) == k ==> fs[j].process.None?
  }

  lemma {:induction false} GroupedKeys(fs: seq<FlowRecord>, k: string)
    ensures k in Grouped(fs) <==> exists i :: 0 <= i < |fs| && UniqKey(fs[i]) == k
    ensures k in Grouped(fs) <==> Occurrences(fs, k) > 0
    ensures k in Grouped(fs) ==> UniqKey(Grouped(fs)[k]) == k
  {
    if fs != [] {
      var n := |fs| - 1;
      GroupedKeys(fs[..n], k);
      assert forall i :: 0 <= i < n ==> fs[..n][i] == fs[i];
      assert UniqKey(fs[n]) == k ==> k in Grouped(fs);
    }
  }

  lemma FirstProcessAppend(fs: seq<FlowRecord>, f: FlowRecord, k: string, p: Option<Process>)
    requires FirstProcess(fs, k, p)
    ensures FirstProcess(fs + [f], k, if p.Some? || UniqKey(f) != k then p else f.process)
  {
    hide KeyText;
    var gs := fs + [f];
    if p.Some? {
      var w :| 0 <= w < |fs| && UniqKey(fs[w]) == k && fs[w].process == p &&
        forall j :: 0 <= j < w && UniqKey(fs[j]) == k ==> fs[j].process.None?;
      assert UniqKey(gs[w]) == k && gs[w].process == p;
    } else if UniqKey(f) == k && f.process.Some? {
      assert UniqKey(gs[|fs|]) == k && gs[|fs|].process == f.process;
    }
  }

  /** The group of k is its first flow, with the occurrences of k added to the count it came
      with and the first process reported for k. */
  lemma {:induction false} GroupedMeaning(fs: seq<FlowRecord>, k: string) returns (i: nat)
    requires k in Grouped(fs)
    ensures FirstOf(fs, k, i)
    ensures var r := Grouped(fs)[k];
      && r == fs[i].(connections := fs[i].connections + Occurrences(fs, k), process := r.process)
      && FirstProcess(fs, k, r.process)
  {
    hide KeyText;
    var n := |fs| - 1;
    var before := fs[..n];
    assert fs == before + [fs[n]];
    GroupedKeys(before, k);
    if k in Grouped(before) {
      i := GroupedMeaning(before, k);
      FirstProcessAppend(before, fs[n], k, Grouped(before)[k].process);
    } else {
      i := n;
      FirstProcessAppend(before, fs[n], k, None);
    }
  }

  predicate AllFresh(fs: seq<FlowRecord>) {
    forall i :: 0 <= i < |fs| ==> fs[i].connections == 0
  }

  /** The count a result reports for a key. */
  function Count(m: map<string, FlowRecord>, k: string): int {
    if k in m then m[k].connections else 0
  }

  lemma {:induction false} FreshCount(fs: seq<FlowRecord>, k: string)
    requires AllFresh(fs)
    ensures Count(Grouped(fs), k) == Occurrences(fs, k)
  {
    GroupedKeys(fs, k);
    if k in Grouped(fs) {
      var _ := GroupedMeaning(fs, k);
    }
  }

  lemma {:induction false} OccurrencesAppend(a: seq<FlowRecord>, b: seq<FlowRecord>, k: string)
    ensures Occurrences(a + b, k) == Occurrences(a, k) + Occurrences(b, k)
  {
    hide UniqKey;
    if b == [] {
      assert a + b == a;
    } else {
      OccurrencesAppend(a, b[..|b| - 1], k);
      assert (a + b)[..|a + b| - 1] == a + b[..|b| - 1];
    }
  }

  /** Counts of consecutive chunks add up to the counts of the whole. */
  lemma ChunksAddUp(a: seq<FlowRecord>, b: seq<FlowRecord>, k: string)
    requires AllFresh(a) && AllFresh(b)
    ensures Count(Grouped(a + b), k) == Count(Grouped(a), k) + Count(Grouped(b), k)
  {
    FreshCount(a, k);
    FreshCount(b, k);
    FreshCount(a + b, k);
    OccurrencesAppend(a, b, k);
  }

  lemma PermutedSplit<T>(a: seq<T>, b: seq<T>) returns (j: nat)
    requires multiset(a) == multiset(b) && a != []
    ensures j < |b| && b[j] == a[|a| - 1]
    ensures b == b[..j] + [b[j]] + b[j + 1..]
    ensures multiset(a[..|a| - 1]) == multiset(b[..j] + b[j + 1..])
  {
    var n := |a| - 1;
    DropLast(a);
    assert a[n] in multiset(b);
    j :| 0 <= j < |b| && b[j] == a[n];
    DropAt(b, j);
  }

  lemma DropLast<T>(a: seq<T>)
    requires a != []
    ensures a[|a| - 1] in multiset(a) && multiset(a[..|a| - 1]) == multiset(a) - multiset{a[|a| - 1]}
  {
    assert a == a[..|a| - 1] + [a[|a| - 1]];
  }

  lemma DropAt<T>(b: seq<T>, j: nat)
    requires j < |b|
    ensures b == b[..j] + [b[j]] + b[j + 1..]
    ensures multiset(b[..j] + b[j + 1..]) == multiset(b) - multiset{b[j]}
  {
    assert b == b[..j] + [b[j]] + b[j + 1..];
  }

  lemma OccurrencesWithout(b: seq<FlowRecord>, x: FlowRecord, c: seq<FlowRecord>, k: string)
    ensures Occurrences(b + [x] + c, k) == Occurrences(b + c, k) + if UniqKey(x) == k then 1 else 0
  {
    OccurrencesAppend(b + [x], c, k);
    OccurrencesAppend(b, c, k);
    assert (b + [x])[..|b|] == b;
  }

  lemma {:induction false} OccurrencesPermuted(a: seq<FlowRecord>, b: seq<FlowRecord>, k: string)
    requires multiset(a) == multiset(b)
    ensures Occurrences(a, k) == Occurrences(b, k)
    decreases |a|
  {
    if a == [] {
      assert |multiset(b)| == 0;
    } else {
      var j := PermutedSplit(a, b);
      OccurrencesPermuted(a[..|a| - 1], b[..j] + b[j + 1..], k);
      OccurrencesWithout(b[..j], b[j], b[j + 1..], k);
    }
  }

  /** The order in which fresh flows arrive changes neither the keys nor the counts. */
  lemma OrderIrrelevant(a: seq<FlowRecord>, b: seq<FlowRecord>)
    requires multiset(a) == multiset(b) && AllFresh(a) && AllFresh(b)
    ensures Grouped(a).Keys == Grouped(b).Keys
    ensures forall k :: k in Grouped(a) ==> Grouped(a)[k].connections == Grouped(b)[k].connections
  {
    forall k
      ensures k in Grouped(a) <==> k in Grouped(b)
      ensures Count(Grouped(a), k) == Count(Grouped(b), k)
    {
      OccurrencesPermuted(a, b, k);
      GroupedKeys(a, k);
      GroupedKeys(b, k);
      FreshCount(a, k);
      FreshCount(b, k);
    }
    assert forall k :: k in Grouped(a) ==> Count(Grouped(a), k) == Count(Grouped(b), k);
  }

  /* ----- The sum of all counts ----- */

  ghost function Total(m: map<string, FlowRecord>): int {
    if m == map[] then 0
    else
      var k :| k in m;
      m[k].connections + Total(m - {k})
  }

  lemma {:induction false} TotalWithout(m: map<string, FlowRecord>, k: string)
    requires k in m
    ensures Total(m) == m[k].connections + Total(m - {k})
    decreases |m|
  {
    var k' :| k' in m && Total(m) == m[k'].connections + Total(m - {k'});
    if k' != k {
      TotalWithout(m - {k'}, k);
      TotalWithout(m - {k}, k');
      assert m - {k'} - {k} == m - {k} - {k'};
    }
  }

  lemma TotalMerge(m: map<string, FlowRecord>, f: FlowRecord)
    requires f.connections == 0
    ensures Total(Merge(m, f)) == Total(m) + 1
  {
    var k, m' := UniqKey(f), Merge(m, f);
    TotalWithout(m', k);
    assert m' - {k} == m - {k};
    if k in m {
      TotalWithout(m, k);
    } else {
      assert m - {k} == m;
    }
  }

  lemma {:induction false} GroupedTotal(fs: seq<FlowRecord>)
    requires AllFresh(fs)
    ensures Total(Grouped(fs)) == |fs|
  {
    if fs != [] {
      GroupedTotal(fs[..|fs| - 1]);
      TotalMerge(Grouped(fs[..|fs| - 1]), fs[|fs| - 1]);
    }
  }

  /* ----- The objects ----- */

  class HostFlow {
    const direction: FlowDirection
    var local: AddrPort
    var peer: AddrPort
    var connections: int
    var process: Option<Process>

    constructor (direction: FlowDirection, local: AddrPort, peer: AddrPort, process: Option<Process>)
      ensures Record() == FlowRecord(direction, local, peer, 0, process)
    {
      this.direction, this.local, this.peer := direction, local, peer;
      this.connections, this.process := 0, process;
    }

    function Record(): FlowRecord
      reads this
    {
      FlowRecord(direction, local, peer, connections, process)
    }

    /** resolve is the reverse DNS lookup; it returns the address itself when there is no name. */
    method SetLookupedName(resolve: string -> string)
      modifies this
      ensures Record() == LookedUp(old(Record()), resolve)
      ensures Named(old(Record()), Record(), resolve)
    {
      local := local.(name := resolve(local.addr));
      peer := peer.(name := resolve(peer.addr));
    }
  }

  /** g is f with each end named by its own address. */
  predicate Named(f: FlowRecord, g: FlowRecord, resolve: string -> string) {
    && g.local.name == resolve(f.local.addr) && g.local.addr == f.local.addr && g.local.port == f.local.port
    && g.peer.name == resolve(f.peer.addr) && g.peer.addr == f.peer.addr && g.peer.port == f.peer.port
    && g.direction == f.direction && g.connections == f.connections && g.process == f.process
  }

  function LookedUp(f: FlowRecord, resolve: string -> string): FlowRecord {
    f.(local := f.local.(name := resolve(f.local.addr)), peer := f.peer.(name := resolve(f.peer.addr)))
  }

  /** Every object is stored under its key; so no object is stored twice. */
  ghost predicate KeyedByUniqKey(m: map<string, HostFlow>)
    reads m.Values
  {
    forall k :: k in m ==> UniqKey(m[k].Record()) == k
  }

  ghost function ViewOf(m: map<string, HostFlow>): map<string, FlowRecord>
    reads m.Values
  {
    map k | k in m :: m[k].Record()
  }

  class HostFlows {
    var flows: map<string, HostFlow>

    constructor ()
      ensures Valid() && flows == map[]
    {
      flows := map[];
    }

    ghost predicate Valid()
      reads this, flows.Values
    {
      KeyedByUniqKey(flows)
    }

    ghost function View(): map<string, FlowRecord>
      reads this, flows.Values
    {
      ViewOf(flows)
    }

    /** Also right when flow is already in the map, under the key it has there. */
    method Insert(flow: HostFlow)
      requires Valid()
      modifies this, flow, flows.Values
      ensures Valid()
      ensures View() == Merge(old(View()), old(flow.Record()))
      ensures flows.Values <= old(flows.Values) + {flow}
    {
      hide KeyText;
      var key := UniqKey(flow.Record());
      if key !in flows {
        flows := flows[key := flow];
      } else {
        if flows[key].process.None? {
          flows[key].process := flow.process;
        }
      }
      flows[key].connections := flows[key].connections + 1;
    }
  }

  function RecordsOf(flows: seq<HostFlow>): seq<FlowRecord>
    reads flows
  {
    seq(|flows|, i requires 0 <= i < |flows| reads flows => flows[i].Record())
  }

  /** flows are the objects of the map, each key's once, in the order of keys. */
  ghost predicate Enumerates(m: map<string, HostFlow>, flows: seq<HostFlow>, keys: seq<string>) {
    && |flows| == |keys| == |m.Keys|
    && (forall i :: 0 <= i < |keys| ==> keys[i] in m && m[keys[i]] == flows[i])
    && (forall i, j :: 0 <= i < j < |keys| ==> keys[i] != keys[j])
  }

  /** The loop that converts a map into a slice; a Go map is ranged over in any order. */
  method ValuesOf(m: map<string, HostFlow>) returns (flows: seq<HostFlow>, ghost keys: seq<string>)
    ensures Enumerates(m, flows, keys)
  {
    flows, keys := [], [];
    var todo := m.Keys;
    while todo != {}
      invariant todo <= m.Keys && |flows| == |keys| && |keys| + |todo| == |m.Keys|
      invariant forall i :: 0 <= i < |keys| ==> keys[i] in m && keys[i] !in todo && m[keys[i]] == flows[i]
      invariant forall i, j :: 0 <= i < j < |keys| ==> keys[i] != keys[j]
    {
      var k :| k in todo;
      flows, keys := flows + [m[k]], keys + [k];
      todo := todo - {k};
    }
  }
}

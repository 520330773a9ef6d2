/** The streaming agent (agent/streaming/streaming.go): the aggregation of one drain, and the
    protocol between the tracer's callback and the aggregator. */
module Streaming {
  import opened Probe

  const FLOW_BUFFER_SIZE := 0xffff

  /* ----- aggregate, on the heap ----- */

  /** A channel of flow objects, as its only receiver sees it. */
  class FlowChannel {
    var items: seq<HostFlow>

    constructor ()
      ensures items == []
    {
      items := [];
    }

    method Receive() returns (flow: HostFlow)
      requires items != []
      modifies this
      ensures flow == old(items[0]) && items == old(items[1..])
    {
      flow := items[0];
      items := items[1..];
    }
  }

  /** What aggregating other flows may have done to an object that held f. */
  predicate GrownFrom(f: FlowRecord, g: FlowRecord) {
    && g.direction == f.direction && g.local == f.local && g.peer == f.peer
    && (g.process.None? ==> f.process.None?)
  }

  /** One turn of the loop of aggregate; slot is the one object it changes. */
  method Absorb(aggMap: map<string, HostFlow>, flow: HostFlow) returns (after: map<string, HostFlow>, ghost slot: HostFlow)
    requires KeyedByUniqKey(aggMap)
    modifies flow, aggMap.Values
    ensures KeyedByUniqKey(after) && ViewOf(after) == Merge(old(ViewOf(aggMap)), old(flow.Record()))
    ensures var k := old(UniqKey(flow.Record()));
      after == aggMap[k := slot] && slot == if k in aggMap then aggMap[k] else flow
    ensures GrownFrom(old(slot.Record()), slot.Record())
    ensures forall o: HostFlow :: old(allocated(o)) && o != slot ==> o.Record() == old(o.Record())
  {
    hide KeyText;
    after := aggMap;
    var key := UniqKey(flow.Record());
    if key !in after {
      after := after[key := flow];
    } else {
      if after[key].process.None? {
        after[key].process := flow.process;
      }
    }
    after[key].connections := after[key].connections + 1;
    slot := after[key];
  }

  predicate Held(m: map<string, HostFlow>, k: string, o: HostFlow) {
    k in m && m[k] == o
  }

  /** The objects all held recs; the first i of them have been aggregated. The same object may
      occur more than once. */
  ghost predicate Aggregated(all: seq<HostFlow>, recs: seq<FlowRecord>, i: nat, aggMap: map<string, HostFlow>)
    requires |all| == |recs| && i <= |all|
    reads all, aggMap.Values
  {
    && KeyedByUniqKey(aggMap) && ViewOf(aggMap) == Grouped(recs[..i])
    && (forall k :: k in aggMap ==> aggMap[k] in all)
    && (forall j :: 0 <= j < |all| ==> GrownFrom(recs[j], all[j].Record()))
    && (forall j :: 0 <= j < |all| ==> Held(aggMap, UniqKey(recs[j]), all[j]) || all[j].Record() == recs[j])
  }

  lemma GrownSameKey(f: FlowRecord, g: FlowRecord)
    requires GrownFrom(f, g)
    ensures UniqKey(f) == UniqKey(g)
  {
  }

  lemma GrownOn(f: FlowRecord, g: FlowRecord, h: FlowRecord)
    requires GrownFrom(f, g) && GrownFrom(g, h)
    ensures GrownFrom(f, h)
  {
  }

  /** An object that is already in the map merges like the record it once held. */
  lemma MergeAgain(m: map<string, HostFlow>, flow: HostFlow, f: FlowRecord)
    requires KeyedByUniqKey(m) && GrownFrom(f, flow.Record())
    requires Held(m, UniqKey(f), flow) || flow.Record() == f
    ensures Merge(ViewOf(m), flow.Record()) == Merge(ViewOf(m), f)
  {
    GrownSameKey(f, flow.Record());
    hide UniqKey;
  }

  method AbsorbNext(ghost all: seq<HostFlow>, ghost recs: seq<FlowRecord>, ghost i: nat, aggMap: map<string, HostFlow>, flow: HostFlow)
    returns (after: map<string, HostFlow>)
    requires |all| == |recs| && i < |all| && flow == all[i] && Aggregated(all, recs, i, aggMap)
    modifies all
    ensures Aggregated(all, recs, i + 1, after)
  {
    hide UniqKey, Merge, Grouped, GrownFrom;
    MergeAgain(aggMap, flow, recs[i]);
    GrownSameKey(recs[i], flow.Record());
    GroupedNext(recs[..i], recs[i]);
    assert recs[..i + 1] == recs[..i] + [recs[i]];
    ghost var slot;
    after, slot := Absorb(aggMap, flow);
    forall j | 0 <= j < |all|
      ensures GrownFrom(recs[j], all[j].Record())
      ensures Held(after, UniqKey(recs[j]), all[j]) || all[j].Record() == recs[j]
    {
      if all[j] == slot {
        GrownSameKey(recs[j], old(slot.Record()));
        GrownOn(recs[j], old(slot.Record()), slot.Record());
      } else {
        assert all[j].Record() == old(all[j].Record());
      }
    }
  }

  /** The flows of a list are the entries of m, each once, in some order. */
  ghost predicate Lists(flows: seq<HostFlow>, m: map<string, FlowRecord>)
    reads flows
  {
    && |flows| == |m|
    && (forall i :: 0 <= i < |flows| ==> UniqKey(flows[i].Record()) in m && m[UniqKey(flows[i].Record())] == flows[i].Record())
    && (forall i, j :: 0 <= i < j < |flows| ==> UniqKey(flows[i].Record()) != UniqKey(flows[j].Record()))
  }

  lemma ListsByKeys(aggMap: map<string, HostFlow>, flows: seq<HostFlow>, keys: seq<string>)
    requires KeyedByUniqKey(aggMap) && Enumerates(aggMap, flows, keys)
    ensures Lists(flows, ViewOf(aggMap))
  {
    hide UniqKey;
    assert ViewOf(aggMap).Keys == aggMap.Keys && |ViewOf(aggMap)| == |ViewOf(aggMap).Keys|;
    assert forall i :: 0 <= i < |keys| ==> UniqKey(flows[i].Record()) == keys[i];
  }

  method DrainOne(buffer: FlowChannel, ghost all: seq<HostFlow>, ghost recs: seq<FlowRecord>, ghost i: nat, aggMap: map<string, HostFlow>)
    returns (after: map<string, HostFlow>)
    requires |all| == |recs| && i < |all| && buffer.items == all[i..] && Aggregated(all, recs, i, aggMap)
    modifies buffer, all
    ensures buffer.items == all[i + 1..] && Aggregated(all, recs, i + 1, after)
  {
    hide UniqKey, Grouped, GrownFrom;
    var flow := buffer.Receive();
    after := AbsorbNext(all, recs, i, aggMap, flow);
  }

  lemma NothingAggregated(all: seq<HostFlow>, recs: seq<FlowRecord>)
    requires recs == RecordsOf(all)
    ensures Aggregated(all, recs, 0, map[])
  {
  }

  lemma AllAggregated(all: seq<HostFlow>, recs: seq<FlowRecord>, aggMap: map<string, HostFlow>)
    requires |all| == |recs| && Aggregated(all, recs, |all|, aggMap)
    ensures KeyedByUniqKey(aggMap) && ViewOf(aggMap) == Grouped(recs)
  {
    assert recs[..|recs|] == recs;
  }

  /** The loop of aggregate: as many receives as the channel held at the start. */
  method Drain(buffer: FlowChannel) returns (aggMap: map<string, HostFlow>)
    modifies buffer, buffer.items
    ensures buffer.items == [] && KeyedByUniqKey(aggMap)
    ensures ViewOf(aggMap) == Grouped(old(RecordsOf(buffer.items)))
  {
    var size := |buffer.items|;
    ghost var all, recs := buffer.items, RecordsOf(buffer.items);
    NothingAggregated(all, recs);
    aggMap := map[];
    hide Aggregated, UniqKey, Grouped, GrownFrom, ViewOf, KeyedByUniqKey;
    for i := 0 to size
      invariant buffer.items == all[i..] && |recs| == |all| == size
      invariant Aggregated(all, recs, i, aggMap)
    {
      aggMap := DrainOne(buffer, all, recs, i, aggMap);
    }
    AllAggregated(all, recs, aggMap);
  }

  /** The drained flows, grouped; no assumption that their objects are distinct. */
  method Aggregate(buffer: FlowChannel) returns (flows: seq<HostFlow>)
    modifies buffer, buffer.items
    ensures buffer.items == []
    ensures Lists(flows, Grouped(old(RecordsOf(buffer.items))))
  {
    var aggMap := Drain(buffer);
    ghost var keys;
    flows, keys := ValuesOf(aggMap);
    hide *;
    ListsByKeys(aggMap, flows, keys);
  }
}

/** scanFlows and flush of agent/polling/polling.go, run one after the other. */
module PollingAgent {
  import opened Options
  import opened Probe
  import opened Store
  import opened Database

  /** The channel of batches; its capacity is the matter of module Capacity. */
  class FlowBuffer {
    var items: seq<seq<HostFlow>>

    constructor ()
      ensures items == []
    {
      items := [];
    }

    method Send(batch: seq<HostFlow>)
      modifies this
      ensures items == old(items) + [batch]
    {
      items := items + [batch];
    }

    method Receive() returns (batch: seq<HostFlow>)
      requires items != []
      modifies this
      ensures batch == old(items[0]) && items == old(items[1..])
    {
      batch := items[0];
      items := items[1..];
    }
  }

  /** The channel a scan or a flush reports its error on. */
  class ErrorChannel {
    var items: seq<string>

    constructor ()
      ensures items == []
    {
      items := [];
    }

    method Send(message: string)
      modifies this
      ensures items == old(items) + [message]
    {
      items := items + [message];
    }
  }

  /** What GetHostFlows returns. */
  datatype ScanResult = Scanned(mapFlows: HostFlows) | ScanFailed(message: string) {

    /** The map that is ranged over; it is nil after an error. */
    function Flows(): map<string, HostFlow>
      reads if Scanned? then {mapFlows} else {}
    {
      if Scanned? then mapFlows.flows else map[]
    }
  }

  /** A failed scan reports its error and still sends a batch, an empty one. */
  method ScanFlows(scan: ScanResult, buffer: FlowBuffer, errChan: ErrorChannel) returns (ghost keys: seq<string>)
    modifies buffer, errChan
    ensures errChan.items == old(errChan.items) + if scan.ScanFailed? then [scan.message] else []
    ensures |buffer.items| == |old(buffer.items)| + 1 && old(buffer.items) <= buffer.items
    ensures Enumerates(scan.Flows(), buffer.items[|old(buffer.items)|], keys)
  {
    if scan.ScanFailed? {
      errChan.Send(scan.message);
    }
    var flows;
    flows, keys := ValuesOf(scan.Flows());
    buffer.Send(flows);
  }

  ghost predicate AllCommit(inet: InetParser, db: Cmdb, batches: seq<Batch>) {
    forall i :: 0 <= i < |batches| ==> Commits(inet, ApplyAll(inet, db, batches[..i]), batches[i])
  }

  lemma OneMoreBatch(inet: InetParser, db: Cmdb, batches: seq<Batch>, b: Batch)
    requires AllCommit(inet, db, batches)
    ensures (batches + [b])[..|batches|] == batches
    ensures ApplyAll(inet, db, batches + [b]) == Apply(inet, ApplyAll(inet, db, batches), b)
    ensures AllCommit(inet, db, batches + [b]) <==> Commits(inet, ApplyAll(inet, db, batches), b)
  {
    hide Apply, Commits;
    var more := batches + [b];
    assert more[..|batches|] == batches && more[|batches|] == b;
    assert forall i :: 0 <= i < |batches| ==> more[..i] == batches[..i];
  }

  function FlowsIn(requests: seq<Request>): seq<FlowRecord> {
    seq(|requests|, i requires 0 <= i < |requests| => requests[i].flow)
  }

  /** batches are transactions for the first batches of the channel, at the times of the clock. */
  ghost predicate AreBatches(batches: seq<Batch>, contents: seq<seq<FlowRecord>>, clock: seq<int>) {
    && |batches| <= |contents| == |clock|
    && forall i :: 0 <= i < |batches| ==> batches[i].now == clock[i] && FlowsIn(batches[i].requests) == contents[i]
  }

  /** Where a flush that began at start stands after the given transactions; all of them
      committed, unless the last one failed. */
  ghost predicate Stands(inet: InetParser, start: Cmdb, db: Cmdb, batches: seq<Batch>, failed: bool) {
    && db.Valid() && db == ApplyAll(inet, start, batches)
    && if failed then
         && batches != [] && AllCommit(inet, start, batches[..|batches| - 1])
         && !AllCommit(inet, start, batches)
       else AllCommit(inet, start, batches)
  }

  lemma StandsNext(inet: InetParser, start: Cmdb, db: Cmdb, batches: seq<Batch>, b: Batch)
    requires Stands(inet, start, db, batches, false) && Apply(inet, db, b).Valid()
    ensures Stands(inet, start, Apply(inet, db, b), batches + [b], !Commits(inet, db, b))
  {
    hide Apply, Commits, Cmdb.Valid, ApplyAll, AllCommit;
    OneMoreBatch(inet, start, batches, b);
  }

  /** One turn of the loop of flush. */
  method FlushNext(db: DB, buffer: FlowBuffer, now: int, ghost start: Cmdb, ghost batches: seq<Batch>)
    returns (failure: Option<SqlError>, ghost b: Batch)
    requires buffer.items != [] && Stands(db.inet, start, db.State(), batches, false)
    modifies db, buffer
    ensures buffer.items == old(buffer.items[1..]) && b.now == now && FlowsIn(b.requests) == old(RecordsOf(buffer.items[0]))
    ensures Stands(db.inet, start, db.State(), batches + [b], failure.Some?)
  {
    var flows := buffer.Receive();
    ghost var requests;
    failure, requests := db.InsertOrUpdateHostFlows(flows, now);
    b := Batch(now, requests);
    StandsNext(db.inet, start, old(db.State()), batches, b);
  }

  /** Takes what it saw in the channel, batch by batch, and stops behind the first batch that
      fails, which it drops. clock holds the transactions' times, contents what the batches hold. */
  method Flush(db: DB, buffer: FlowBuffer, clock: seq<int>, ghost contents: seq<seq<FlowRecord>>)
    returns (err: Option<SqlError>, ghost batches: seq<Batch>)
    requires db.State().Valid() && |clock| == |buffer.items| == |contents|
    requires forall i :: 0 <= i < |contents| ==> RecordsOf(buffer.items[i]) == contents[i]
    modifies db, buffer
    ensures AreBatches(batches, contents, clock)
    ensures buffer.items == old(buffer.items)[|batches|..]
    ensures Stands(db.inet, old(db.State()), db.State(), batches, err.Some?)
    ensures err.None? ==> |batches| == |clock|
  {
    ghost var start, items := db.State(), buffer.items;
    var size := |buffer.items|;
    batches := [];
    for i := 0 to size
      invariant |batches| == i && buffer.items == items[i..]
      invariant forall j :: 0 <= j < size ==> RecordsOf(items[j]) == contents[j]
      invariant AreBatches(batches, contents, clock)
      invariant Stands(db.inet, start, db.State(), batches, false)
    {
      ghost var b;
      err, b := FlushNext(db, buffer, clock[i], start, batches);
      batches := batches + [b];
      if err.Some? {
        return;
      }
    }
    err := None;
  }
}

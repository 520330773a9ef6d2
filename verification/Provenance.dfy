/** Every row of the flows table has a reason: a flow that some committed batch reported. */
module Provenance {
  import opened Options
  import opened Inet
  import opened Text
  import opened Probe
  import opened Store
  import opened Invariant

  /** A flow that was committed, when, and the flows row it wrote. */
  datatype Write = Write(flow: FlowRecord, now: int, key: FlowKey)

  ghost function StepWrites(inet: InetParser, db: Cmdb, q: Request, now: int): seq<Write> {
    var r := Step(inet, db, q.flow, now, q.pick);
    if r.Done? && !Loopback(q.flow) && !q.flow.direction.FlowUnknown? && r.id in r.db.flows.rows then
      [Write(q.flow, now, r.db.flows.rows[r.id].key)]
    else []
  }

  ghost function FoldWrites(inet: InetParser, db: Cmdb, rs: seq<Request>, now: int): seq<Write> {
    if rs == [] then []
    else
      var n := |rs| - 1;
      FoldWrites(inet, db, rs[..n], now) + StepWrites(inet, Fold(inet, db, rs[..n], now).db, rs[n], now)
  }

  /** All writes of a run in order; batches that fail write nothing. */
  ghost function History(inet: InetParser, bs: seq<Batch>): seq<Write> {
    if bs == [] then []
    else
      var n, db := |bs| - 1, Run(inet, bs[..|bs| - 1]);
      History(inet, bs[..n]) +
      if Commits(inet, db, bs[n]) then FoldWrites(inet, db, bs[n].requests, bs[n].now) else []
  }

  ghost function First(h: seq<Write>, k: FlowKey): Option<Write> {
    if h == [] then None
    else if First(h[..|h| - 1], k).Some? then First(h[..|h| - 1], k)
    else if h[|h| - 1].key == k then Some(h[|h| - 1]) else None
  }

  ghost function Last(h: seq<Write>, k: FlowKey): Option<Write> {
    if h == [] then None
    else if h[|h| - 1].key == k then Some(h[|h| - 1])
    else Last(h[..|h| - 1], k)
  }

  /** The flows table is what the writes h leave when the last writer of a row wins: the same
      rows, each with the count and time of its last write and the creation time of its first.
      Every write is still witnessed: its row joins the nodes the flow was about. */
  ghost predicate Explains(inet: InetParser, db: Cmdb, h: seq<Write>) {
    && db.Valid()
    && (forall id :: id in db.flows.rows ==>
          var first, last := First(h, db.flows.rows[id].key), Last(h, db.flows.rows[id].key);
          first.Some? && last.Some? &&
          db.flows.rows[id].cols == FlowCols(last.value.flow.connections, first.value.now, last.value.now))
    && (forall i :: 0 <= i < |h| ==> Witnessed(inet, db, h[i].flow, h[i].key))
  }

  /** Both nodes of a witnessed row keep their process and port for ever. */
  lemma WitnessedLater(inet: InetParser, db: Cmdb, db': Cmdb, f: FlowRecord, k: FlowKey)
    requires db.Valid() && Next(db, db') && Witnessed(inet, db, f, k)
    ensures Witnessed(inet, db', f, k)
  {
    hide Legal, LocalKey, ParseInt32, Loopback;
    var id := db.flows.Id(k);
    assert id in db'.flows.rows && db'.flows.rows[id].key == k;
  }

  lemma PeersWriteNoFlow(db: Cmdb, port: Option<int>, addr: Option<Inet>, now: int, pick: Pick)
    ensures PeerActive(db, port, addr, now, pick).db.flows == db.flows
    ensures PeerPassive(db, addr, port, now, pick).db.flows == db.flows
  {
    hide Varchar, EligibleActive, EligiblePassive;
  }

  lemma StepPassiveWrites(inet: InetParser, db: Cmdb, process: nat, f: FlowRecord, now: int, pick: Pick)
    requires db.Valid() && process in db.processes.rows
    ensures var r := StepPassive(inet, db, process, f, now, pick);
      r.Done? ==>
        && r.id in r.db.flows.rows
        && r.db.flows == WriteFlow(db.flows, r.db.flows.rows[r.id].key, f.connections, now)
  {
    StepPassiveKeeps(inet, db, process, f, now, pick);
    if StepPassive(inet, db, process, f, now, pick).Done? {
      hide Cmdb.Valid, Cmdb.Extends, PeerActive, WriteFlow, ParseInt32, NodeOn;
      var port := ParseInt32(f.local.port);
      var r1 := InsertPassiveNode(db, process, port);
      InsertPassiveNodeKeeps(db, process, port);
      hide InsertPassiveNode;
      PeersWriteNoFlow(r1.db, port, inet(f.peer.addr), now, pick);
      PeerActiveKeeps(r1.db, port, inet(f.peer.addr), now, pick);
      var r2 := PeerActive(r1.db, port, inet(f.peer.addr), now, pick);
      RowsStay(r1.db, r2.db);
      InsertFlowKeeps(r2.db, r2.id, r1.id, f.connections, now);
    }
  }

  lemma StepActiveWrites(inet: InetParser, db: Cmdb, process: nat, f: FlowRecord, now: int, pick: Pick)
    requires db.Valid() && process in db.processes.rows
    ensures var r := StepActive(inet, db, process, f, now, pick);
      r.Done? ==>
        && r.id in r.db.flows.rows
        && r.db.flows == WriteFlow(db.flows, r.db.flows.rows[r.id].key, f.connections, now)
  {
    StepActiveKeeps(inet, db, process, f, now, pick);
    if StepActive(inet, db, process, f, now, pick).Done? {
      var port := ParseInt32(f.peer.port);
      hide Cmdb.Valid, Cmdb.Extends, PeerPassive, WriteFlow, ParseInt32, NodeOn;
      var r1 := InsertActiveNode(db, process);
      InsertActiveNodeKeeps(db, process);
      hide InsertActiveNode;
      PeersWriteNoFlow(r1.db, port, inet(f.peer.addr), now, pick);
      PeerPassiveKeeps(r1.db, inet(f.peer.addr), port, now, pick);
      var r2 := PeerPassive(r1.db, inet(f.peer.addr), port, now, pick);
      RowsStay(r1.db, r2.db);
      InsertFlowKeeps(r2.db, r1.id, r2.id, f.connections, now);
    }
  }

  lemma StepFlows(inet: InetParser, db: Cmdb, f: FlowRecord, now: int, pick: Pick)
    requires db.Valid()
    ensures var r := Step(inet, db, f, now, pick);
      r.Done? ==>
        if Loopback(f) || f.direction.FlowUnknown? then r.db.flows == db.flows
        else r.id in r.db.flows.rows && r.db.flows == WriteFlow(db.flows, r.db.flows.rows[r.id].key, f.connections, now)
  {
    if !Loopback(f) {
      InsertProcessKeeps(db, inet(f.local.addr), Pgid(f), Pname(f), now);
      var r1 := InsertProcess(db, inet(f.local.addr), Pgid(f), Pname(f), now);
      if r1.Done? {
        match f.direction
        case FlowPassive => StepPassiveWrites(inet, r1.db, r1.id, f, now, pick);
        case FlowActive => StepActiveWrites(inet, r1.db, r1.id, f, now, pick);
        case FlowUnknown =>
      }
    }
  }

  /** The only statement of a step that touches the flows table is its last one. */
  lemma StepWritesOneRow(inet: InetParser, db: Cmdb, q: Request, now: int)
    requires db.Valid()
    ensures var r, w := Step(inet, db, q.flow, now, q.pick), StepWrites(inet, db, q, now);
      r.Done? ==>
        if w == [] then r.db.flows == db.flows
        else
          && w == [Write(q.flow, now, w[0].key)] && r.db.Valid()
          && Witnessed(inet, r.db, q.flow, w[0].key)
          && r.db.flows == WriteFlow(db.flows, w[0].key, q.flow.connections, now)
  {
    StepKeeps(inet, db, q.flow, now, q.pick);
    StepFlows(inet, db, q.flow, now, q.pick);
  }

  lemma ExplainsAfterWrite(inet: InetParser, db: Cmdb, db': Cmdb, h: seq<Write>, w: Write)
    requires Explains(inet, db, h) && Next(db, db') && Witnessed(inet, db', w.flow, w.key)
    requires db'.flows == WriteFlow(db.flows, w.key, w.flow.connections, w.now)
    ensures Explains(inet, db', h + [w])
  {
    var h' := h + [w];
    assert h'[..|h'| - 1] == h;
    hide Witnessed, First, Last, WriteFlow, Cmdb.Valid, Cmdb.Extends;
    forall i | 0 <= i < |h'| ensures Witnessed(inet, db', h'[i].flow, h'[i].key) {
      if i < |h| {
        WitnessedLater(inet, db, db', h[i].flow, h[i].key);
      }
    }
    forall id | id in db'.flows.rows
      ensures var k := db'.flows.rows[id].key;
        First(h', k).Some? && Last(h', k).Some? && db'.flows.rows[id].cols ==
          FlowCols(Last(h', k).value.flow.connections, First(h', k).value.now, Last(h', k).value.now)
    {
      ColsAfterWrite(inet, db, db', h, w, id);
    }
  }

  lemma ColsAfterWrite(inet: InetParser, db: Cmdb, db': Cmdb, h: seq<Write>, w: Write, id: nat)
    requires Explains(inet, db, h) && db'.flows == WriteFlow(db.flows, w.key, w.flow.connections, w.now)
    requires id in db'.flows.rows
    ensures var h', k := h + [w], db'.flows.rows[id].key;
      First(h', k).Some? && Last(h', k).Some? && db'.flows.rows[id].cols ==
        FlowCols(Last(h', k).value.flow.connections, First(h', k).value.now, Last(h', k).value.now)
  {
    assert (h + [w])[..|h|] == h;
    WriteFlowKeeps(db.flows, w.key, w.flow.connections, w.now);
    if !db.flows.Has(w.key) {
      NoRowNoWrite(inet, db, h, w.key);
    } else {
      assert db.flows.Id(w.key) in db.flows.rows;
    }
  }

  lemma NoRowNoWrite(inet: InetParser, db: Cmdb, h: seq<Write>, k: FlowKey)
    requires Explains(inet, db, h) && !db.flows.Has(k)
    ensures First(h, k).None?
  {
    NotIn(h, k);
  }

  lemma {:induction false} NotIn(h: seq<Write>, k: FlowKey)
    requires forall i :: 0 <= i < |h| ==> h[i].key != k
    ensures First(h, k).None?
  {
    if h != [] {
      NotIn(h[..|h| - 1], k);
    }
  }

  lemma ExplainsAfterStep(inet: InetParser, db: Cmdb, h: seq<Write>, q: Request, now: int)
    requires Explains(inet, db, h) && Step(inet, db, q.flow, now, q.pick).Done?
    ensures Explains(inet, Step(inet, db, q.flow, now, q.pick).db, h + StepWrites(inet, db, q, now))
  {
    StepKeeps(inet, db, q.flow, now, q.pick);
    StepWritesOneRow(inet, db, q, now);
    hide Step, WriteFlow, Witnessed, First, Last, Cmdb.Valid, Cmdb.Extends;
    var w, db' := StepWrites(inet, db, q, now), Step(inet, db, q.flow, now, q.pick).db;
    if w == [] {
      ExplainsUnchanged(inet, db, db', h);
      assert h + w == h;
    } else {
      ExplainsAfterWrite(inet, db, db', h, w[0]);
    }
  }

  lemma ExplainsUnchanged(inet: InetParser, db: Cmdb, db': Cmdb, h: seq<Write>)
    requires Explains(inet, db, h) && Next(db, db') && db'.flows.rows == db.flows.rows
    ensures Explains(inet, db', h)
  {
    forall i | 0 <= i < |h| ensures Witnessed(inet, db', h[i].flow, h[i].key) {
      WitnessedLater(inet, db, db', h[i].flow, h[i].key);
    }
  }

  lemma WritesOneMore(inet: InetParser, db: Cmdb, rs: seq<Request>, q: Request, now: int)
    ensures FoldWrites(inet, db, rs + [q], now) == FoldWrites(inet, db, rs, now) + StepWrites(inet, Fold(inet, db, rs, now).db, q, now)
  {
    hide StepWrites, Fold;
    assert (rs + [q])[..|rs|] == rs;
  }

  lemma NoWrites(inet: InetParser, db: Cmdb, h: seq<Write>, now: int)
    ensures Fold(inet, db, [], now) == Done(db, 0) && h + FoldWrites(inet, db, [], now) == h
  {
  }

  lemma {:induction false} ExplainsAfterFold(inet: InetParser, db: Cmdb, h: seq<Write>, rs: seq<Request>, now: int)
    requires Explains(inet, db, h) && Fold(inet, db, rs, now).Done?
    ensures Explains(inet, Fold(inet, db, rs, now).db, h + FoldWrites(inet, db, rs, now))
  {
    hide *;
    if rs == [] {
      NoWrites(inet, db, h, now);
    } else {
      var n := |rs| - 1;
      var front, q := rs[..n], rs[n];
      assert rs == front + [q];
      FoldNext(inet, db, front, q, now);
      WritesOneMore(inet, db, front, q, now);
      ExplainsAfterFold(inet, db, h, front, now);
      var db', w := Fold(inet, db, front, now).db, FoldWrites(inet, db, front, now);
      ExplainsAfterStep(inet, db', h + w, q, now);
      assert h + w + StepWrites(inet, db', q, now) == h + (w + StepWrites(inet, db', q, now));
    }
  }

  lemma ExplainsAfterBatch(inet: InetParser, db: Cmdb, h: seq<Write>, b: Batch)
    requires Explains(inet, db, h) && db.Valid()
    ensures Explains(inet, Apply(inet, db, b),
      h + if Commits(inet, db, b) then FoldWrites(inet, db, b.requests, b.now) else [])
  {
    CommitsIffAllAccepted(inet, db, b);
    hide Explains, Fold, FoldWrites, Cmdb.Valid;
    if Commits(inet, db, b) {
      ExplainsAfterFold(inet, db, h, b.requests, b.now);
    } else {
      ExplainsUnchanged(inet, db, Apply(inet, db, b), h);
      assert h + [] == h;
    }
  }

  lemma RunNext(inet: InetParser, front: seq<Batch>, b: Batch)
    ensures Run(inet, front + [b]) == Apply(inet, Run(inet, front), b)
    ensures History(inet, front + [b]) == History(inet, front) +
      if Commits(inet, Run(inet, front), b) then FoldWrites(inet, Run(inet, front), b.requests, b.now) else []
  {
    hide Apply, Commits, FoldWrites;
    assert (front + [b])[..|front|] == front;
  }

  lemma NothingExplained(inet: InetParser)
    ensures Explains(inet, Run(inet, []), History(inet, []))
  {
  }

  /** In every state of every run, the writes of its committed batches explain the flows table. */
  lemma {:induction false} RunExplained(inet: InetParser, bs: seq<Batch>)
    ensures Explains(inet, Run(inet, bs), History(inet, bs))
  {
    hide *;
    if bs == [] {
      NothingExplained(inet);
    } else {
      var n := |bs| - 1;
      RunExplained(inet, bs[..n]);
      RunValid(inet, bs[..n]);
      ExplainsAfterBatch(inet, Run(inet, bs[..n]), History(inet, bs[..n]), bs[n]);
      RunNext(inet, bs[..n], bs[n]);
      assert bs == bs[..n] + [bs[n]];
    }
  }
}

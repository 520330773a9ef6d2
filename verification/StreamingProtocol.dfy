/** The streaming agent as interleaved steps: the tracer's callback sends events into a bounded
    channel; the aggregator waits for its ticker, drains what it saw in the channel, stores the
    groups, and reports a failure on an error channel that it reads itself. */
module StreamingProtocol {
  import opened Probe
  import opened Streaming

  datatype Phase =
    | Waiting
    | Draining(snapshot: seq<FlowRecord>, received: seq<FlowRecord>)
    | Storing
    | Reporting

  /** `sent` and `drained` are history: all events in order, and the chunk behind each list. */
  datatype State = State(
    buffer: seq<FlowRecord>,
    phase: Phase,
    lists: seq<map<string, FlowRecord>>,
    errors: nat,
    sent: seq<FlowRecord>,
    drained: seq<seq<FlowRecord>>)

  datatype Step = Send(f: FlowRecord) | Tick | Receive | Return | Stored | Failed | Report | ReadError

  const START := State([], Waiting, [], 0, [], [])

  /** A channel operation is enabled when it does not block; both channels are bounded. Storing
      an empty list starts no transaction, so it cannot fail. */
  predicate Enabled(s: State, step: Step) {
    match step
    case Send(f) => |s.buffer| < FLOW_BUFFER_SIZE && f.connections == 0
    case Tick => s.phase.Waiting?
    case Receive => s.phase.Draining? && |s.phase.received| < |s.phase.snapshot| && s.buffer != []
    case Return => s.phase.Draining? && |s.phase.received| == |s.phase.snapshot|
    case Stored => s.phase.Storing?
    case Failed => s.phase.Storing? && s.lists != [] && s.lists[|s.lists| - 1] != map[]
    case Report => s.phase.Reporting? && s.errors < 1
    case ReadError => s.phase.Waiting? && s.errors > 0
  }

  /** A drain remembers the buffer at its start; the code only takes its length. */
  function Next(s: State, step: Step): State
    requires Enabled(s, step)
  {
    match step
    case Send(f) => s.(buffer := s.buffer + [f], sent := s.sent + [f])
    case Tick => s.(phase := Draining(s.buffer, []))
    case Receive =>
      s.(buffer := s.buffer[1..], phase := s.phase.(received := s.phase.received + [s.buffer[0]]))
    case Return =>
      s.(phase := Storing, lists := s.lists + [Grouped(s.phase.received)], drained := s.drained + [s.phase.received])
    case Stored => s.(phase := Waiting)
    case Failed => s.(phase := Reporting)
    case Report => s.(phase := Waiting, errors := s.errors + 1)
    case ReadError => s.(errors := s.errors - 1)
  }

  ghost predicate Runs(s: State, steps: seq<Step>, s': State)
    decreases |steps|
  {
    if steps == [] then s' == s
    else Enabled(s, steps[0]) && Runs(Next(s, steps[0]), steps[1..], s')
  }

  function Flatten(chunks: seq<seq<FlowRecord>>): seq<FlowRecord> {
    if chunks == [] then [] else Flatten(chunks[..|chunks| - 1]) + chunks[|chunks| - 1]
  }

  function InHand(s: State): seq<FlowRecord> {
    if s.phase.Draining? then s.phase.received else []
  }

  ghost predicate ListsAreGroups(s: State) {
    |s.lists| == |s.drained| && forall i :: 0 <= i < |s.lists| ==> s.lists[i] == Grouped(s.drained[i])
  }

  /** Events leave the channel in the order they entered it, each into exactly one chunk; a drain
      has taken a prefix of its snapshot and the rest is still at the front of the channel. */
  ghost predicate Invariant(s: State) {
    && s.sent == Flatten(s.drained) + InHand(s) + s.buffer
    && |s.buffer| <= FLOW_BUFFER_SIZE && s.errors <= 1 && AllFresh(s.sent)
    && ListsAreGroups(s)
    && (s.phase.Draining? ==>
          && |s.phase.received| <= |s.phase.snapshot|
          && s.phase.snapshot <= s.phase.received + s.buffer)
  }

  lemma MoveEvent(x: seq<FlowRecord>, r: seq<FlowRecord>, b: seq<FlowRecord>)
    ensures b != [] ==> x + r + b == x + (r + [b[0]]) + b[1..]
    ensures x + r + b == x + r + [] + b
  {
  }

  lemma FlattenAppend(chunks: seq<seq<FlowRecord>>, chunk: seq<FlowRecord>)
    ensures Flatten(chunks + [chunk]) == Flatten(chunks) + chunk
  {
    assert (chunks + [chunk])[..|chunks|] == chunks;
  }

  lemma StepKeepsOrder(s: State, step: Step)
    requires s.sent == Flatten(s.drained) + InHand(s) + s.buffer && Enabled(s, step)
    ensures var s' := Next(s, step); s'.sent == Flatten(s'.drained) + InHand(s') + s'.buffer
  {
    hide Grouped, Flatten;
    if step.Send? {
      assert s.sent + [step.f] == Flatten(s.drained) + InHand(s) + (s.buffer + [step.f]);
    }
    MoveEvent(Flatten(s.drained), InHand(s), s.buffer);
    FlattenAppend(s.drained, InHand(s));
  }

  lemma StepKeepsDrain(s: State, step: Step)
    requires Invariant(s) && Enabled(s, step)
    ensures var s' := Next(s, step);
      s'.phase.Draining? ==> |s'.phase.received| <= |s'.phase.snapshot| && s'.phase.snapshot <= s'.phase.received + s'.buffer
  {
    hide AllFresh, Grouped, Flatten;
    var s' := Next(s, step);
    if step.Receive? {
      assert s.buffer == [s.buffer[0]] + s'.buffer;
      assert s'.phase.received + s'.buffer == s.phase.received + s.buffer;
    }
  }

  lemma StepKeepsInvariant(s: State, step: Step)
    requires Invariant(s) && Enabled(s, step)
    ensures Invariant(Next(s, step))
  {
    StepKeepsOrder(s, step);
    StepKeepsDrain(s, step);
    StepKeepsLists(s, step);
    hide Grouped, Flatten, AllFresh, ListsAreGroups;
  }

  lemma StepKeepsLists(s: State, step: Step)
    requires Invariant(s) && Enabled(s, step)
    ensures ListsAreGroups(Next(s, step)) && AllFresh(Next(s, step).sent)
  {
    hide Grouped, Flatten;
  }

  lemma {:induction false} RunKeepsInvariant(s: State, steps: seq<Step>, s': State)
    requires Invariant(s) && Runs(s, steps, s')
    ensures Invariant(s')
    decreases |steps|
  {
    if steps != [] {
      StepKeepsInvariant(s, steps[0]);
      RunKeepsInvariant(Next(s, steps[0]), steps[1..], s');
    }
  }

  ghost predicate Reachable(s: State) {
    exists steps :: Runs(START, steps, s)
  }

  lemma ReachableInvariant(s: State)
    requires Reachable(s)
    ensures Invariant(s) && |s.buffer| <= 65535
  {
    var steps :| Runs(START, steps, s);
    RunKeepsInvariant(START, steps, s);
  }

  /* ----- Conservation ----- */

  function ListedCount(lists: seq<map<string, FlowRecord>>, k: string): int {
    if lists == [] then 0 else ListedCount(lists[..|lists| - 1], k) + Count(lists[|lists| - 1], k)
  }

  ghost function ListedTotal(lists: seq<map<string, FlowRecord>>): int {
    if lists == [] then 0 else ListedTotal(lists[..|lists| - 1]) + Total(lists[|lists| - 1])
  }

  lemma ListedOneMore(lists: seq<map<string, FlowRecord>>, m: map<string, FlowRecord>, k: string)
    ensures ListedCount(lists + [m], k) == ListedCount(lists, k) + Count(m, k)
    ensures ListedTotal(lists + [m]) == ListedTotal(lists) + Total(m)
  {
    assert (lists + [m])[..|lists|] == lists;
  }

  lemma FreshParts(front: seq<FlowRecord>, last: seq<FlowRecord>)
    requires AllFresh(front + last)
    ensures AllFresh(front) && AllFresh(last)
  {
    assert forall i :: 0 <= i < |front| ==> front[i] == (front + last)[i];
    assert forall i :: 0 <= i < |last| ==> last[i] == (front + last)[|front| + i];
  }

  lemma {:induction false} ListsCountChunks(lists: seq<map<string, FlowRecord>>, chunks: seq<seq<FlowRecord>>, k: string)
    requires |lists| == |chunks| && AllFresh(Flatten(chunks))
    requires forall i :: 0 <= i < |lists| ==> lists[i] == Grouped(chunks[i])
    ensures ListedCount(lists, k) == Occurrences(Flatten(chunks), k)
    ensures ListedTotal(lists) == |Flatten(chunks)|
  {
    if lists != [] {
      hide *;
      var n := |lists| - 1;
      var front, last := Flatten(chunks[..n]), chunks[n];
      assert chunks == chunks[..n] + [last] && lists == lists[..n] + [lists[n]];
      FlattenAppend(chunks[..n], last);
      FreshParts(front, last);
      ListsCountChunks(lists[..n], chunks[..n], k);
      ListedOneMore(lists[..n], lists[n], k);
      OccurrencesAppend(front, last, k);
      FreshCount(last, k);
      GroupedTotal(last);
    }
  }

  /** In every reachable state no event is lost or counted twice: for each key, and in all, the
      events sent are those counted by the returned lists, those received by the running drain
      and those still in the channel. */
  lemma Conservation(s: State, k: string)
    requires Reachable(s)
    ensures Occurrences(s.sent, k) == ListedCount(s.lists, k) + Occurrences(InHand(s), k) + Occurrences(s.buffer, k)
    ensures |s.sent| == ListedTotal(s.lists) + |InHand(s)| + |s.buffer|
  {
    ReachableInvariant(s);
    var all := Flatten(s.drained);
    assert s.sent == all + (InHand(s) + s.buffer);
    hide Grouped, Flatten, UniqKey, Occurrences, ListedCount, ListedTotal, AllFresh;
    FreshParts(all, InHand(s) + s.buffer);
    ListsCountChunks(s.lists, s.drained, k);
    OccurrencesAppend(all + InHand(s), s.buffer, k);
    OccurrencesAppend(all, InHand(s), k);
  }

  /** A drain never blocks, and what it returns is the group of exactly the events its snapshot
      held. */
  lemma DrainTakesSnapshot(s: State)
    requires Reachable(s) && s.phase.Draining?
    ensures |s.phase.received| < |s.phase.snapshot| ==> Enabled(s, Receive)
    ensures |s.phase.received| == |s.phase.snapshot| ==>
      Enabled(s, Return) && Next(s, Return).lists == s.lists + [Grouped(s.phase.snapshot)]
  {
    ReachableInvariant(s);
    if |s.phase.received| == |s.phase.snapshot| {
      assert s.phase.received == (s.phase.received + s.buffer)[..|s.phase.received|] == s.phase.snapshot;
    }
  }

  /* ----- Where the aggregator can stop for good ----- */

  /** The only receiver of the error channel waits to send on it. */
  predicate Stalled(s: State) {
    s.phase.Reporting? && s.errors == 1
  }

  lemma {:induction false} StalledForEver(s: State, steps: seq<Step>, s': State)
    requires Stalled(s) && Runs(s, steps, s')
    ensures Stalled(s') && s'.lists == s.lists
    decreases |steps|
  {
    if steps != [] {
      StalledForEver(Next(s, steps[0]), steps[1..], s');
    }
  }

  /** A tick with something to store is served although an error is pending: the select statement
      may choose so. */
  predicate TicksPastError(s: State, step: Step) {
    step.Tick? && s.errors > 0 && s.buffer != []
  }

  /** The run serves no such tick. */
  ghost predicate ErrorsFirst(s: State, steps: seq<Step>)
    decreases |steps|
  {
    steps == [] ||
    (!TicksPastError(s, steps[0]) && (Enabled(s, steps[0]) ==> ErrorsFirst(Next(s, steps[0]), steps[1..])))
  }

  /** While an error is pending, the aggregator has nothing to store. */
  predicate Harmless(s: State) {
    s.errors == 0 ||
    match s.phase
    case Waiting => true
    case Draining(snapshot, received) => snapshot == [] && received == []
    case Storing => s.lists != [] && s.lists[|s.lists| - 1] == map[]
    case Reporting => false
  }

  lemma {:induction false} ErrorsFirstNeverStalls(s: State, steps: seq<Step>, s': State)
    requires Runs(s, steps, s') && ErrorsFirst(s, steps) && Harmless(s)
    ensures !Stalled(s') && Harmless(s')
    decreases |steps|
  {
    if steps != [] {
      ErrorsFirstNeverStalls(Next(s, steps[0]), steps[1..], s');
    }
  }

  lemma {:induction false} RunsAppend(s: State, a: seq<Step>, s1: State, b: seq<Step>, s2: State)
    requires Runs(s, a, s1) && Runs(s1, b, s2)
    ensures Runs(s, a + b, s2)
    decreases |a|
  {
    if a == [] {
      assert a + b == b;
    } else {
      RunsAppend(Next(s, a[0]), a[1..], s1, b, s2);
      assert (a + b)[1..] == a[1..] + b;
    }
  }

  lemma OneStep(s: State, step: Step)
    requires Enabled(s, step)
    ensures Runs(s, [step], Next(s, step))
  {
    assert [step][1..] == [];
    assert Runs(Next(s, step), [], Next(s, step));
  }

  lemma {:induction false} DrainCompletes(s: State) returns (steps: seq<Step>, s': State)
    requires Invariant(s) && s.phase.Draining?
    ensures Runs(s, steps, s') && Invariant(s') && s'.errors == s.errors && Enabled(s', Return)
    ensures s'.phase.snapshot == s.phase.snapshot
    decreases |s.phase.snapshot| - |s.phase.received|
  {
    if |s.phase.received| == |s.phase.snapshot| {
      steps, s' := [], s;
    } else {
      StepKeepsInvariant(s, Receive);
      var rest;
      rest, s' := DrainCompletes(Next(s, Receive));
      steps := [Receive] + rest;
      assert steps[1..] == rest;
    }
  }

  /** Conversely, wherever such a tick is served the agent can go on to stall, by that one
      transaction failing. */
  lemma TickPastErrorCanStall(s: State) returns (steps: seq<Step>, s': State)
    requires Reachable(s) && Enabled(s, Tick) && TicksPastError(s, Tick)
    ensures steps != [] && steps[0] == Tick && Runs(s, steps, s') && Stalled(s')
  {
    hide Grouped, Invariant, UniqKey, Runs;
    ReachableInvariant(s);
    var s1 := Next(s, Tick);
    OneStep(s, Tick);
    StepKeepsInvariant(s, Tick);
    var receives, s2 := DrainCompletes(s1);
    StoreFails(s2);
    s' := Next(Next(s2, Return), Failed);
    hide Enabled, Next;
    RunsAppend(s1, receives, s2, [Return, Failed], s');
    RunsAppend(s, [Tick], s1, receives + [Return, Failed], s');
    steps := [Tick] + (receives + [Return, Failed]);
  }

  lemma StoreFails(s: State)
    requires Enabled(s, Return) && s.phase.snapshot != []
    ensures Enabled(Next(s, Return), Failed) && Runs(s, [Return, Failed], Next(Next(s, Return), Failed))
  {
    GroupedKeys(s.phase.received, UniqKey(s.phase.received[0]));
    hide Grouped, UniqKey;
    var s1 := Next(s, Return);
    assert s1.lists[|s1.lists| - 1] != map[];
    OneStep(s, Return);
    OneStep(s1, Failed);
    RunsAppend(s, [Return], s1, [Failed], Next(s1, Failed));
    assert [Return] + [Failed] == [Return, Failed];
  }

  /** A tick, and the failure of the one transaction that stores what it drained. */
  lemma FailingTick(f: FlowRecord) returns (s: State)
    requires f.connections == 0
    ensures Reachable(s) && s.phase.Reporting? && s.errors == 0 && s.buffer == []
  {
    var s1 := Next(START, Send(f));
    var s2 := Next(s1, Tick);
    var s3 := Next(s2, Receive);
    OneStep(START, Send(f));
    OneStep(s1, Tick);
    OneStep(s2, Receive);
    assert s3.phase.snapshot == [f];
    StoreFails(s3);
    s := Next(Next(s3, Return), Failed);
    hide Grouped, Runs;
    RunsAppend(START, [Send(f)], s1, [Tick], s2);
    RunsAppend(START, [Send(f)] + [Tick], s2, [Receive], s3);
    RunsAppend(START, [Send(f)] + [Tick] + [Receive], s3, [Return, Failed], s);
  }

  /** Such a tick can come: a reachable state has a pending error and an event. */
  lemma TickPastErrorReachable(f: FlowRecord) returns (s: State)
    requires f.connections == 0
    ensures Reachable(s) && Enabled(s, Tick) && TicksPastError(s, Tick)
  {
    var s1 := FailingTick(f);
    var steps :| Runs(START, steps, s1);
    var s2 := Next(s1, Report);
    s := Next(s2, Send(f));
    OneStep(s1, Report);
    OneStep(s2, Send(f));
    hide Runs;
    RunsAppend(START, steps, s1, [Report], s2);
    RunsAppend(START, steps + [Report], s2, [Send(f)], s);
  }

  /** So the agent can stall. */
  lemma StallReachable(f: FlowRecord) returns (s: State)
    requires f.connections == 0
    ensures Reachable(s) && Stalled(s)
  {
    var s1 := TickPastErrorReachable(f);
    var before :| Runs(START, before, s1);
    var after;
    after, s := TickPastErrorCanStall(s1);
    RunsAppend(START, before, s1, after, s);
  }
}

/** The polling agent (agent/polling/polling.go) as interleaved steps: scans send batches into a
    bounded channel, flushes drain what they saw in it, one transaction a batch. */
module Polling {
  import opened Options

  datatype Status = Running | Failed | Finished

  /** A flush: the length it read, how many batches it has received, the one it is storing. */
  datatype Flush = Flush(size: nat, taken: nat, inFlight: Option<nat>, status: Status)

  datatype Outcome = Outcome(batch: nat, committed: bool)

  /** Batches are numbered in scan order. `sent` and `outcomes` are history. */
  datatype State = State(
    scanned: nat,
    waiting: set<nat>,
    queue: seq<nat>,
    flushes: seq<Flush>,
    sent: seq<nat>,
    outcomes: seq<Outcome>)

  datatype Step = Scan | Send(batch: nat) | Start | Take(f: nat) | Commit(f: nat) | Drop(f: nat) | Finish(f: nat)

  const START := State(0, {}, [], [], [], [])

  predicate Idle(s: State, f: nat) {
    f < |s.flushes| && s.flushes[f].status.Running? && s.flushes[f].inFlight.None?
  }

  predicate Busy(s: State, f: nat) {
    f < |s.flushes| && s.flushes[f].inFlight.Some?
  }

  predicate Enabled(s: State, cap: nat, step: Step) {
    match step
    case Scan => true
    case Send(b) => b in s.waiting && |s.queue| < cap
    case Start => true
    case Take(f) => Idle(s, f) && s.flushes[f].taken < s.flushes[f].size && s.queue != []
    case Commit(f) => Busy(s, f)
    case Drop(f) => Busy(s, f)
    case Finish(f) => Idle(s, f) && s.flushes[f].taken == s.flushes[f].size
  }

  function Next(s: State, cap: nat, step: Step): State
    requires Enabled(s, cap, step)
  {
    match step
    case Scan => s.(scanned := s.scanned + 1, waiting := s.waiting + {s.scanned})
    case Send(b) => s.(waiting := s.waiting - {b}, queue := s.queue + [b], sent := s.sent + [b])
    case Start => s.(flushes := s.flushes + [Flush(|s.queue|, 0, None, Running)])
    case Take(f) =>
      var flush := s.flushes[f];
      s.(queue := s.queue[1..], flushes := s.flushes[f := flush.(taken := flush.taken + 1, inFlight := Some(s.queue[0]))])
    case Commit(f) =>
      var flush := s.flushes[f];
      s.(flushes := s.flushes[f := flush.(inFlight := None)], outcomes := s.outcomes + [Outcome(flush.inFlight.value, true)])
    case Drop(f) =>
      var flush := s.flushes[f];
      s.(flushes := s.flushes[f := flush.(inFlight := None, status := Failed)],
         outcomes := s.outcomes + [Outcome(flush.inFlight.value, false)])
    case Finish(f) => s.(flushes := s.flushes[f := s.flushes[f].(status := Finished)])
  }

  ghost predicate Runs(s: State, cap: nat, steps: seq<Step>, s': State)
    decreases |steps|
  {
    if steps == [] then s' == s
    else Enabled(s, cap, steps[0]) && Runs(Next(s, cap, steps[0]), cap, steps[1..], s')
  }

  ghost predicate Reachable(s: State, cap: nat) {
    exists steps :: Runs(START, cap, steps, s)
  }

  /* ----- Conservation ----- */

  datatype Mark = Holds(batch: nat) | HasFailed

  predicate Marked(f: Flush, m: Mark) {
    match m
    case Holds(b) => f.inFlight == Some(b)
    case HasFailed => f.status.Failed?
  }

  function Weight(f: Flush, m: Mark): nat {
    if Marked(f, m) then 1 else 0
  }

  /** How many flushes carry a mark. */
  function Tally(flushes: seq<Flush>, m: Mark): nat {
    if flushes == [] then 0 else Tally(flushes[..|flushes| - 1], m) + Weight(flushes[|flushes| - 1], m)
  }

  lemma {:induction false} TallyUpdate(flushes: seq<Flush>, i: nat, f: Flush, m: Mark)
    requires i < |flushes|
    ensures Tally(flushes[i := f], m) + Weight(flushes[i], m) == Tally(flushes, m) + Weight(f, m)
  {
    var n := |flushes| - 1;
    if i < n {
      TallyUpdate(flushes[..n], i, f, m);
      assert flushes[i := f][..n] == flushes[..n][i := f];
    } else {
      assert flushes[i := f][..n] == flushes[..n];
    }
  }

  lemma TallyAppend(flushes: seq<Flush>, f: Flush, m: Mark)
    ensures Tally(flushes + [f], m) == Tally(flushes, m) + Weight(f, m)
  {
    assert (flushes + [f])[..|flushes|] == flushes;
  }

  function InQueue(queue: seq<nat>, b: nat): nat {
    if queue == [] then 0 else (if queue[0] == b then 1 else 0) + InQueue(queue[1..], b)
  }

  lemma {:induction false} InQueueAppend(queue: seq<nat>, x: nat, b: nat)
    ensures InQueue(queue + [x], b) == InQueue(queue, b) + if x == b then 1 else 0
  {
    if queue == [] {
      assert queue + [x] == [x];
      assert [x][1..] == [];
    } else {
      InQueueAppend(queue[1..], x, b);
      assert (queue + [x])[1..] == queue[1..] + [x];
    }
  }

  function Results(outcomes: seq<Outcome>, b: nat, committed: bool): nat {
    if outcomes == [] then 0
    else Results(outcomes[..|outcomes| - 1], b, committed) + if outcomes[|outcomes| - 1] == Outcome(b, committed) then 1 else 0
  }

  function Dropped(outcomes: seq<Outcome>): nat {
    if outcomes == [] then 0
    else Dropped(outcomes[..|outcomes| - 1]) + if outcomes[|outcomes| - 1].committed then 0 else 1
  }

  lemma OutcomesAppend(outcomes: seq<Outcome>, o: Outcome, b: nat)
    ensures Results(outcomes + [o], b, true) == Results(outcomes, b, true) + if o == Outcome(b, true) then 1 else 0
    ensures Results(outcomes + [o], b, false) == Results(outcomes, b, false) + if o == Outcome(b, false) then 1 else 0
    ensures Dropped(outcomes + [o]) == Dropped(outcomes) + if o.committed then 0 else 1
  {
    assert (outcomes + [o])[..|outcomes|] == outcomes;
  }

  /** In how many places batch b is: waiting to be sent, queued, in flight, committed, dropped. */
  function Places(s: State, b: nat): nat {
    (if b in s.waiting then 1 else 0) + InQueue(s.queue, b) + Tally(s.flushes, Holds(b)) +
    Results(s.outcomes, b, true) + Results(s.outcomes, b, false)
  }

  ghost predicate Conserved(s: State) {
    && (forall b: nat :: Places(s, b) == if b < s.scanned then 1 else 0)
    && Dropped(s.outcomes) == Tally(s.flushes, HasFailed)
    && (forall i :: 0 <= i < |s.flushes| && s.flushes[i].inFlight.Some? ==> s.flushes[i].status.Running?)
  }

  lemma StepKeepsPlaces(s: State, cap: nat, step: Step, b: nat)
    requires Conserved(s) && Enabled(s, cap, step)
    ensures var s' := Next(s, cap, step);
      Places(s', b) == if b < s'.scanned then 1 else 0
  {
    hide InQueue, Tally, Results, Dropped, Conserved;
    assert Places(s, b) == if b < s.scanned then 1 else 0 by {
      ConservedPlaces(s, b);
    }
    match step
    case Scan => ConservedPlaces(s, s.scanned);
    case Send(x) => InQueueAppend(s.queue, x, b);
    case Start => TallyAppend(s.flushes, Flush(|s.queue|, 0, None, Running), Holds(b));
    case Take(f) =>
      InQueueFirst(s.queue, b);
      TallyUpdate(s.flushes, f, Next(s, cap, step).flushes[f], Holds(b));
    case Commit(f) =>
      OutcomesAppend(s.outcomes, Outcome(s.flushes[f].inFlight.value, true), b);
      TallyUpdate(s.flushes, f, Next(s, cap, step).flushes[f], Holds(b));
    case Drop(f) =>
      OutcomesAppend(s.outcomes, Outcome(s.flushes[f].inFlight.value, false), b);
      TallyUpdate(s.flushes, f, Next(s, cap, step).flushes[f], Holds(b));
    case Finish(f) =>
      TallyUpdate(s.flushes, f, Next(s, cap, step).flushes[f], Holds(b));
  }

  lemma ConservedPlaces(s: State, b: nat)
    requires Conserved(s)
    ensures Places(s, b) == if b < s.scanned then 1 else 0
  {
  }

  lemma InQueueFirst(queue: seq<nat>, b: nat)
    requires queue != []
    ensures InQueue(queue, b) == (if queue[0] == b then 1 else 0) + InQueue(queue[1..], b)
  {
  }

  lemma StepKeepsDropped(s: State, cap: nat, step: Step)
    requires Conserved(s) && Enabled(s, cap, step)
    ensures var s' := Next(s, cap, step);
      Dropped(s'.outcomes) == Tally(s'.flushes, HasFailed)
  {
    hide Places;
    if step.Start? {
      TallyAppend(s.flushes, Flush(|s.queue|, 0, None, Running), HasFailed);
    } else if step.Take? || step.Commit? || step.Drop? || step.Finish? {
      var f := step.f;
      assert s.flushes[f].status.Running?;
      TallyUpdate(s.flushes, f, Next(s, cap, step).flushes[f], HasFailed);
      if step.Commit? || step.Drop? {
        OutcomesAppend(s.outcomes, Outcome(s.flushes[f].inFlight.value, step.Commit?), 0);
      }
    }
  }

  lemma StepKeepsConserved(s: State, cap: nat, step: Step)
    requires Conserved(s) && Enabled(s, cap, step)
    ensures Conserved(Next(s, cap, step))
  {
    forall b: nat ensures Places(Next(s, cap, step), b) == if b < Next(s, cap, step).scanned then 1 else 0 {
      StepKeepsPlaces(s, cap, step, b);
    }
    StepKeepsDropped(s, cap, step);
    hide Places;
  }

  lemma {:induction false} RunKeepsConserved(s: State, cap: nat, steps: seq<Step>, s': State)
    requires Conserved(s) && Runs(s, cap, steps, s')
    ensures Conserved(s')
    decreases |steps|
  {
    if steps != [] {
      StepKeepsConserved(s, cap, steps[0]);
      RunKeepsConserved(Next(s, cap, steps[0]), cap, steps[1..], s');
    }
  }

  /** Under any interleaving, with overlapping flushes and any failures, every scanned batch is in
      exactly one place, and each failed flush has dropped exactly one batch. */
  lemma BatchConservation(s: State, cap: nat)
    requires Reachable(s, cap)
    ensures Conserved(s)
  {
    var steps :| Runs(START, cap, steps, s);
    RunKeepsConserved(START, cap, steps, s);
  }
}

/** Which starts of a flush are safe. A flush counts the queue at its start and then insists on
    that many batches; flushes that overlap may count the same batch. */
module Flushing {
  import opened Options
  import opened Polling

  ghost predicate RunsUnder(s: State, cap: nat, rule: State -> bool, steps: seq<Step>, s': State)
    decreases |steps|
  {
    if steps == [] then s' == s
    else Enabled(s, cap, steps[0]) && (steps[0].Start? ==> rule(s)) &&
         RunsUnder(Next(s, cap, steps[0]), cap, rule, steps[1..], s')
  }

  lemma RunsStep(s: State, cap: nat, step: Step, rest: seq<Step>, s': State)
    requires Enabled(s, cap, step) && Runs(Next(s, cap, step), cap, rest, s')
    ensures Runs(s, cap, [step] + rest, s')
  {
    assert ([step] + rest)[1..] == rest;
  }

  lemma {:induction false} RunsAppend(s: State, cap: nat, a: seq<Step>, s1: State, b: seq<Step>, s2: State)
    requires Runs(s, cap, a, s1) && Runs(s1, cap, b, s2)
    ensures Runs(s, cap, a + b, s2)
    decreases |a|
  {
    if a == [] {
      assert a + b == b;
    } else {
      RunsAppend(Next(s, cap, a[0]), cap, a[1..], s1, b, s2);
      assert (a + b)[1..] == a[1..] + b;
    }
  }

  lemma {:induction false} ReachesOn(s: State, cap: nat, steps: seq<Step>, s': State)
    requires Reachable(s, cap) && Runs(s, cap, steps, s')
    ensures Reachable(s', cap)
  {
    var before :| Runs(START, cap, before, s);
    RunsAppend(START, cap, before, s, steps, s');
  }

  lemma {:induction false} RuleReaches(s: State, cap: nat, rule: State -> bool, steps: seq<Step>, s': State)
    requires RunsUnder(s, cap, rule, steps, s')
    ensures Runs(s, cap, steps, s')
    decreases |steps|
  {
    if steps != [] {
      RuleReaches(Next(s, cap, steps[0]), cap, rule, steps[1..], s');
    }
  }

  /* ----- What the running flushes have still to take ----- */

  function Left(f: Flush): nat {
    if f.status.Running? && f.taken < f.size then f.size - f.taken else 0
  }

  function Owed(flushes: seq<Flush>): nat {
    if flushes == [] then 0 else Owed(flushes[..|flushes| - 1]) + Left(flushes[|flushes| - 1])
  }

  lemma {:induction false} OwedUpdate(flushes: seq<Flush>, i: nat, f: Flush)
    requires i < |flushes|
    ensures Owed(flushes[i := f]) + Left(flushes[i]) == Owed(flushes) + Left(f)
  {
    var n := |flushes| - 1;
    if i < n {
      OwedUpdate(flushes[..n], i, f);
      assert flushes[i := f][..n] == flushes[..n][i := f];
    } else {
      assert flushes[i := f][..n] == flushes[..n];
    }
  }

  lemma OwedAppend(flushes: seq<Flush>, f: Flush)
    ensures Owed(flushes + [f]) == Owed(flushes) + Left(f)
  {
    assert (flushes + [f])[..|flushes|] == flushes;
  }

  lemma {:induction false} OwedMember(flushes: seq<Flush>, i: nat)
    requires i < |flushes|
    ensures Left(flushes[i]) <= Owed(flushes)
  {
    if i < |flushes| - 1 {
      OwedMember(flushes[..|flushes| - 1], i);
    }
  }

  lemma {:induction false} OwedBySome(flushes: seq<Flush>) returns (i: nat)
    requires Owed(flushes) > 0
    ensures i < |flushes| && Left(flushes[i]) > 0
  {
    var n := |flushes| - 1;
    if Left(flushes[n]) > 0 {
      i := n;
    } else {
      i := OwedBySome(flushes[..n]);
    }
  }

  /* ----- Blocking ----- */

  /** A flush that waits on an empty channel. */
  predicate Blocked(s: State, f: nat) {
    Idle(s, f) && s.flushes[f].taken < s.flushes[f].size && s.queue == []
  }

  /** It waits until another batch is sent: no other step of the agent frees it, and any send does. */
  lemma BlockedUntilSend(s: State, cap: nat, f: nat, step: Step)
    requires Blocked(s, f) && Enabled(s, cap, step)
    ensures if step.Send? then Enabled(Next(s, cap, step), cap, Take(f)) else Blocked(Next(s, cap, step), f)
  {
  }

  predicate NothingOwed(s: State) {
    Owed(s.flushes) == 0
  }

  /** Each batch still to be taken is in the queue. */
  predicate Covered(s: State) {
    Owed(s.flushes) <= |s.queue|
  }

  lemma StepOwes(s: State, cap: nat, step: Step)
    requires Conserved(s) && Enabled(s, cap, step)
    ensures var s' := Next(s, cap, step);
      match step
      case Scan => Owed(s'.flushes) == Owed(s.flushes) && s'.queue == s.queue
      case Send(_) => Owed(s'.flushes) == Owed(s.flushes) && |s'.queue| == |s.queue| + 1
      case Start => Owed(s'.flushes) == Owed(s.flushes) + |s.queue| && s'.queue == s.queue
      case Take(_) => Owed(s'.flushes) == Owed(s.flushes) - 1 && |s'.queue| == |s.queue| - 1
      case Commit(_) => Owed(s'.flushes) == Owed(s.flushes) && s'.queue == s.queue
      case Drop(_) => Owed(s'.flushes) <= Owed(s.flushes) && s'.queue == s.queue
      case Finish(_) => Owed(s'.flushes) == Owed(s.flushes) && s'.queue == s.queue
  {
    hide Places, Owed;
    match step
    case Scan =>
    case Send(_) =>
    case Start => OwedAppend(s.flushes, Flush(|s.queue|, 0, None, Running));
    case Take(f) => OwedUpdate(s.flushes, f, Next(s, cap, step).flushes[f]);
    case Commit(f) => OwedUpdate(s.flushes, f, Next(s, cap, step).flushes[f]);
    case Drop(f) => OwedUpdate(s.flushes, f, Next(s, cap, step).flushes[f]);
    case Finish(f) => OwedUpdate(s.flushes, f, Next(s, cap, step).flushes[f]);
  }

  lemma {:induction false} RunKeepsCovered(s: State, cap: nat, steps: seq<Step>, s': State)
    requires Conserved(s) && Covered(s) && RunsUnder(s, cap, NothingOwed, steps, s')
    ensures Covered(s')
    decreases |steps|
  {
    if steps != [] {
      StepOwes(s, cap, steps[0]);
      StepKeepsConserved(s, cap, steps[0]);
      hide Conserved, Owed;
      RunKeepsCovered(Next(s, cap, steps[0]), cap, steps[1..], s');
    }
  }

  /** If a flush starts only when the running ones have taken all they counted, none ever blocks,
      overlapping or not. */
  lemma NeverBlocks(s: State, cap: nat, steps: seq<Step>, f: nat)
    requires RunsUnder(START, cap, NothingOwed, steps, s)
    ensures !Blocked(s, f)
  {
    StartState();
    hide RunsUnder, Conserved, Owed;
    RunKeepsCovered(START, cap, steps, s);
    if Blocked(s, f) {
      OwedMember(s.flushes, f);
    }
  }

  predicate OnlyDrains(steps: seq<Step>) {
    forall i :: 0 <= i < |steps| ==> steps[i].Take? || steps[i].Commit?
  }

  /** More is owed than there is: the flushes drain the queue until one of them blocks. */
  lemma {:induction false} OverdrawnBlocks(s: State, cap: nat) returns (steps: seq<Step>, s': State, f: nat)
    requires Conserved(s) && Owed(s.flushes) > |s.queue|
    ensures OnlyDrains(steps) && Runs(s, cap, steps, s') && Blocked(s', f)
    decreases |s.queue|
  {
    f := OwedBySome(s.flushes);
    steps, s' := [], s;
    if Busy(s, f) {
      s' := Next(s, cap, Commit(f));
      steps := [Commit(f)];
      StepOwes(s, cap, Commit(f));
      StepKeepsConserved(s, cap, Commit(f));
      RunsStep(s, cap, Commit(f), [], s');
      assert [Commit(f)] + [] == [Commit(f)];
    }
    if s'.queue != [] {
      var s1, rest := s', steps;
      StepOwes(s1, cap, Take(f));
      StepKeepsConserved(s1, cap, Take(f));
      steps, s', f := DrainOn(s, cap, rest, s1, f);
    }
  }

  lemma {:induction false} DrainOn(s: State, cap: nat, front: seq<Step>, s1: State, g: nat) returns (steps: seq<Step>, s': State, f: nat)
    requires OnlyDrains(front) && Runs(s, cap, front, s1) && |s1.queue| <= |s.queue| && Enabled(s1, cap, Take(g))
    requires var s2 := Next(s1, cap, Take(g)); Conserved(s2) && Owed(s2.flushes) > |s2.queue|
    ensures OnlyDrains(steps) && Runs(s, cap, steps, s') && Blocked(s', f)
    decreases |s.queue|, 0
  {
    hide Conserved, Owed, Runs;
    var s2, rest := Next(s1, cap, Take(g)), [];
    rest, s', f := OverdrawnBlocks(s2, cap);
    RunsStep(s1, cap, Take(g), rest, s');
    RunsAppend(s, cap, front, s1, [Take(g)] + rest, s');
    steps := front + ([Take(g)] + rest);
  }

  /** Conversely, in whatever state a flush starts while another has batches to take, the agent
      can go on to block, with no further scan and no failing transaction. */
  lemma StartCanBlock(s: State, cap: nat) returns (steps: seq<Step>, s': State, f: nat)
    requires Reachable(s, cap) && !NothingOwed(s)
    ensures OnlyDrains(steps) && Runs(s, cap, [Start] + steps, s') && Blocked(s', f)
  {
    BatchConservation(s, cap);
    StepOwes(s, cap, Start);
    StepKeepsConserved(s, cap, Start);
    hide Conserved, Owed, Runs;
    steps, s', f := OverdrawnBlocks(Next(s, cap, Start), cap);
    RunsStep(s, cap, Start, steps, s');
  }

  /** Two starts in a row with a batch in the queue are such starts. */
  lemma StartOwes(s: State, cap: nat)
    requires Reachable(s, cap) && s.queue != []
    ensures var s' := Next(s, cap, Start);
      Reachable(s', cap) && !NothingOwed(s') && !StartsInTurn(s')
  {
    BatchConservation(s, cap);
    StepOwes(s, cap, Start);
    var s' := Next(s, cap, Start);
    assert !Spent(s'.flushes[|s.flushes|]);
    assert Runs(s', cap, [], s');
    RunsStep(s, cap, Start, [], s');
    hide Conserved, Owed, Runs;
    ReachesOn(s, cap, [Start] + [], s');
  }

  /** So they are enough to block. */
  lemma OverlapCanBlock(s: State, cap: nat) returns (steps: seq<Step>, s': State, f: nat)
    requires Reachable(s, cap) && s.queue != []
    ensures OnlyDrains(steps) && Runs(s, cap, [Start, Start] + steps, s') && Blocked(s', f)
  {
    hide Conserved, Owed, Runs, Reachable;
    StartOwes(s, cap);
    steps, s', f := StartCanBlock(Next(s, cap, Start), cap);
    RunsStep(s, cap, Start, [Start] + steps, s');
    assert [Start] + ([Start] + steps) == [Start, Start] + steps;
  }

  lemma QueueReachable(cap: nat) returns (s: State)
    requires cap > 0
    ensures Reachable(s, cap) && s.queue != []
  {
    s := Next(Next(START, cap, Scan), cap, Send(0));
    assert Runs(s, cap, [], s);
    RunsStep(Next(START, cap, Scan), cap, Send(0), [], s);
    RunsStep(START, cap, Scan, [Send(0)] + [], s);
  }

  /* ----- Order ----- */

  /** Nothing in hand and nothing to take: all that is left is to finish. */
  predicate Spent(f: Flush) {
    f.inFlight.None? && Left(f) == 0
  }

  predicate AllSpent(s: State) {
    forall i :: 0 <= i < |s.flushes| ==> Spent(s.flushes[i])
  }

  /** A flush that starts on an empty queue takes nothing. */
  predicate StartsInTurn(s: State) {
    AllSpent(s) || s.queue == []
  }

  function Held(f: Flush): seq<nat> {
    if f.inFlight.Some? then [f.inFlight.value] else []
  }

  function Hand(flushes: seq<Flush>): seq<nat> {
    if flushes == [] then [] else Hand(flushes[..|flushes| - 1]) + Held(flushes[|flushes| - 1])
  }

  function BatchesOf(outcomes: seq<Outcome>): seq<nat> {
    seq(|outcomes|, i requires 0 <= i < |outcomes| => outcomes[i].batch)
  }

  predicate OneAtWork(s: State) {
    forall i, j :: 0 <= i < j < |s.flushes| ==> Spent(s.flushes[i]) || Spent(s.flushes[j])
  }

  /** Batches are stored in the order they were sent; the rest is in hand and then queued. */
  ghost predicate InOrder(s: State) {
    s.sent == BatchesOf(s.outcomes) + Hand(s.flushes) + s.queue && OneAtWork(s)
  }

  lemma {:induction false} HandOfNone(flushes: seq<Flush>)
    requires forall j :: 0 <= j < |flushes| ==> flushes[j].inFlight.None?
    ensures Hand(flushes) == []
  {
    if flushes != [] {
      HandOfNone(flushes[..|flushes| - 1]);
    }
  }

  lemma {:induction false} HandOfOne(flushes: seq<Flush>, i: nat)
    requires i < |flushes| && forall j :: 0 <= j < |flushes| && j != i ==> flushes[j].inFlight.None?
    ensures Hand(flushes) == Held(flushes[i])
  {
    var n := |flushes| - 1;
    if i == n {
      HandOfNone(flushes[..n]);
    } else {
      HandOfOne(flushes[..n], i);
    }
  }

  lemma HandAppend(flushes: seq<Flush>, f: Flush)
    requires f.inFlight.None?
    ensures Hand(flushes + [f]) == Hand(flushes)
  {
    assert (flushes + [f])[..|flushes|] == flushes;
  }

  lemma MoveBatch(done: seq<nat>, hand: seq<nat>, queue: seq<nat>)
    ensures queue != [] ==> done + [] + queue == done + [queue[0]] + queue[1..]
    ensures done + hand + queue == (done + hand) + [] + queue
  {
  }

  lemma OthersSpent(s: State, f: nat)
    requires OneAtWork(s) && f < |s.flushes| && !Spent(s.flushes[f])
    ensures forall j :: 0 <= j < |s.flushes| && j != f ==> Spent(s.flushes[j])
  {
  }

  lemma StepKeepsTurn(s: State, cap: nat, step: Step)
    requires Conserved(s) && OneAtWork(s) && Enabled(s, cap, step) && (step.Start? ==> StartsInTurn(s))
    ensures OneAtWork(Next(s, cap, step))
  {
    hide Places;
    if step.Take? || step.Commit? || step.Drop? {
      OthersSpent(s, step.f);
    }
  }

  lemma StepMovesHand(s: State, cap: nat, step: Step)
    requires OneAtWork(s) && Enabled(s, cap, step)
    ensures var hand, hand' := Hand(s.flushes), Hand(Next(s, cap, step).flushes);
      if step.Take? then hand == [] && hand' == [s.queue[0]]
      else if step.Commit? || step.Drop? then hand == [s.flushes[step.f].inFlight.value] && hand' == []
      else hand' == hand
  {
    var s' := Next(s, cap, step);
    if step.Take? || step.Commit? || step.Drop? {
      OthersSpent(s, step.f);
      HandOfOne(s.flushes, step.f);
      HandOfOne(s'.flushes, step.f);
    } else if step.Start? {
      HandAppend(s.flushes, Flush(|s.queue|, 0, None, Running));
    } else if step.Finish? {
      SameHand(s.flushes, step.f, s'.flushes[step.f]);
    }
  }

  lemma BatchesAppend(outcomes: seq<Outcome>, o: Outcome)
    ensures BatchesOf(outcomes + [o]) == BatchesOf(outcomes) + [o.batch]
  {
  }

  lemma StepKeepsSent(s: State, cap: nat, step: Step)
    requires InOrder(s) && Enabled(s, cap, step)
    ensures var s' := Next(s, cap, step); s'.sent == BatchesOf(s'.outcomes) + Hand(s'.flushes) + s'.queue
  {
    StepMovesHand(s, cap, step);
    hide Hand, OneAtWork, BatchesOf;
    match step
    case Scan =>
    case Send(b) => assert s.sent + [b] == BatchesOf(s.outcomes) + Hand(s.flushes) + (s.queue + [b]);
    case Start =>
    case Take(f) => MoveBatch(BatchesOf(s.outcomes), [], s.queue);
    case Commit(f) =>
      BatchesAppend(s.outcomes, Outcome(s.flushes[f].inFlight.value, true));
      MoveBatch(BatchesOf(s.outcomes), Hand(s.flushes), s.queue);
    case Drop(f) =>
      BatchesAppend(s.outcomes, Outcome(s.flushes[f].inFlight.value, false));
      MoveBatch(BatchesOf(s.outcomes), Hand(s.flushes), s.queue);
    case Finish(f) =>
  }

  lemma {:induction false} SameHand(flushes: seq<Flush>, i: nat, f: Flush)
    requires i < |flushes| && f.inFlight == flushes[i].inFlight
    ensures Hand(flushes[i := f]) == Hand(flushes)
  {
    var n := |flushes| - 1;
    if i < n {
      SameHand(flushes[..n], i, f);
      assert flushes[i := f][..n] == flushes[..n][i := f];
    } else {
      assert flushes[i := f][..n] == flushes[..n];
    }
  }

  lemma {:induction false} RunInOrder(s: State, cap: nat, steps: seq<Step>, s': State)
    requires Conserved(s) && InOrder(s) && RunsUnder(s, cap, StartsInTurn, steps, s')
    ensures InOrder(s') && Conserved(s')
    decreases |steps|
  {
    if steps != [] {
      StepKeepsTurn(s, cap, steps[0]);
      StepKeepsSent(s, cap, steps[0]);
      StepKeepsConserved(s, cap, steps[0]);
      hide Conserved, Hand, OneAtWork;
      RunInOrder(Next(s, cap, steps[0]), cap, steps[1..], s');
    }
  }

  /** If a flush starts only when the others are spent or the queue is empty, batches are stored
      first in, first out. */
  lemma StoredInOrder(s: State, cap: nat, steps: seq<Step>)
    requires RunsUnder(START, cap, StartsInTurn, steps, s)
    ensures BatchesOf(s.outcomes) <= s.sent
  {
    StartState();
    hide RunsUnder, Conserved, OneAtWork, Hand, BatchesOf;
    RunInOrder(START, cap, steps, s);
    Prefix(BatchesOf(s.outcomes), Hand(s.flushes), s.queue);
  }

  lemma StartInOrder(s: State)
    requires s == START
    ensures InOrder(s) && Covered(s)
  {
  }

  lemma StartTaken(s: State)
    requires s == START
    ensures Taken(s)
  {
  }

  lemma StartConserved(s: State)
    requires s == START
    ensures Conserved(s)
  {
  }

  lemma StartState()
    ensures Conserved(START) && InOrder(START) && Covered(START) && Taken(START)
  {
    hide *;
    StartInOrder(START);
    StartTaken(START);
    StartConserved(START);
  }

  lemma Prefix(x: seq<nat>, y: seq<nat>, z: seq<nat>)
    ensures x <= x + y + z
  {
  }

  /** Then, when a flush fails, the queue is exactly what was sent behind the batch it drops, and
      no flush has anything left to take. */
  lemma FailedFlushLeavesSuffix(s: State, cap: nat, steps: seq<Step>, f: nat)
    requires RunsUnder(START, cap, StartsInTurn, steps, s) && Enabled(s, cap, Drop(f))
    ensures var s' := Next(s, cap, Drop(f));
      && s'.outcomes == s.outcomes + [Outcome(s.flushes[f].inFlight.value, false)]
      && s'.sent == BatchesOf(s'.outcomes) + s'.queue
      && s'.flushes[f].status.Failed? && AllSpent(s')
  {
    StartState();
    hide RunsUnder, Conserved, Hand, BatchesOf;
    RunInOrder(START, cap, steps, s);
    OthersSpent(s, f);
    StepKeepsSent(s, cap, Drop(f));
    StepMovesHand(s, cap, Drop(f));
    var s' := Next(s, cap, Drop(f));
    assert BatchesOf(s'.outcomes) + [] + s'.queue == BatchesOf(s'.outcomes) + s'.queue;
  }

  /* ----- Overtaking ----- */

  /** Batches leave the queue in the order they were sent, whatever overlaps; no batch is sent
      twice. */
  ghost predicate Taken(s: State) {
    FromFront(s) && SentOnce(s)
  }

  ghost predicate FromFront(s: State) {
    && |s.sent| == |s.outcomes| + |Hand(s.flushes)| + |s.queue|
    && s.sent[|s.sent| - |s.queue|..] == s.queue
  }

  ghost predicate SentOnce(s: State) {
    && (forall i, j :: 0 <= i < j < |s.sent| ==> s.sent[i] != s.sent[j])
    && (forall i :: 0 <= i < |s.sent| ==> s.sent[i] < s.scanned && s.sent[i] !in s.waiting)
    && (forall b :: b in s.waiting ==> b < s.scanned)
  }

  lemma {:induction false} HandUpdate(flushes: seq<Flush>, i: nat, f: Flush)
    requires i < |flushes|
    ensures |Hand(flushes[i := f])| + |Held(flushes[i])| == |Hand(flushes)| + |Held(f)|
  {
    var n := |flushes| - 1;
    if i < n {
      HandUpdate(flushes[..n], i, f);
      assert flushes[i := f][..n] == flushes[..n][i := f];
    } else {
      assert flushes[i := f][..n] == flushes[..n];
    }
  }

  lemma StepTakesFront(s: State, cap: nat, step: Step)
    requires FromFront(s) && Enabled(s, cap, step)
    ensures FromFront(Next(s, cap, step))
  {
    hide Hand;
    match step
    case Scan =>
    case Send(b) =>
      assert (s.sent + [b])[|s.sent| - |s.queue|..] == s.sent[|s.sent| - |s.queue|..] + [b];
    case Start => HandAppend(s.flushes, Flush(|s.queue|, 0, None, Running));
    case Take(f) =>
      HandUpdate(s.flushes, f, Next(s, cap, step).flushes[f]);
      assert s.sent[|s.sent| - |s.queue| + 1..] == s.sent[|s.sent| - |s.queue|..][1..];
    case Commit(f) => HandUpdate(s.flushes, f, Next(s, cap, step).flushes[f]);
    case Drop(f) => HandUpdate(s.flushes, f, Next(s, cap, step).flushes[f]);
    case Finish(f) => HandUpdate(s.flushes, f, Next(s, cap, step).flushes[f]);
  }

  lemma StepKeepsTaken(s: State, cap: nat, step: Step)
    requires Taken(s) && Enabled(s, cap, step)
    ensures Taken(Next(s, cap, step))
  {
    StepTakesFront(s, cap, step);
    hide FromFront;
  }

  lemma {:induction false} RunKeepsTaken(s: State, cap: nat, steps: seq<Step>, s': State)
    requires Taken(s) && Runs(s, cap, steps, s')
    ensures Taken(s')
    decreases |steps|
  {
    if steps != [] {
      StepKeepsTaken(s, cap, steps[0]);
      hide Taken;
      RunKeepsTaken(Next(s, cap, steps[0]), cap, steps[1..], s');
    }
  }

  lemma {:induction false} InHand(flushes: seq<Flush>, g: nat)
    requires g < |flushes| && flushes[g].inFlight.Some?
    ensures Hand(flushes) != []
  {
    if g < |flushes| - 1 {
      InHand(flushes[..|flushes| - 1], g);
    }
  }

  /** A batch that is taken and stored while another is in hand has overtaken it. */
  lemma OutOfOrder(s: State, g: nat)
    requires Taken(s) && Busy(s, g) && s.queue != []
    ensures !(BatchesOf(s.outcomes) + [s.queue[0]] <= s.sent)
  {
    InHand(s.flushes, g);
    var n := |s.sent| - |s.queue|;
    assert s.queue[0] == s.sent[n];
    var stored := BatchesOf(s.outcomes) + [s.queue[0]];
    assert stored[|s.outcomes|] == s.sent[n];
    assert s.sent[|s.outcomes|] != s.sent[n];
  }

  /** Flush n overtakes flush g, if need be with a batch that is scanned now. */
  lemma Overtakes(s: State, cap: nat, g: nat, n: nat) returns (steps: seq<Step>, s': State)
    requires Taken(s) && cap > 0 && Busy(s, g) && Idle(s, n) && Left(s.flushes[n]) > 0
    ensures Runs(s, cap, steps, s') && !(BatchesOf(s'.outcomes) <= s'.sent)
  {
    if s.queue == [] {
      var s1 := Next(s, cap, Scan);
      var s2 := Next(s1, cap, Send(s.scanned));
      StepKeepsTaken(s, cap, Scan);
      StepKeepsTaken(s1, cap, Send(s.scanned));
      hide Taken, Runs, BatchesOf;
      steps, s' := TakesAndStores(s2, cap, g, n);
      RunsStep(s1, cap, Send(s.scanned), steps, s');
      RunsStep(s, cap, Scan, [Send(s.scanned)] + steps, s');
      steps := [Scan] + ([Send(s.scanned)] + steps);
    } else {
      steps, s' := TakesAndStores(s, cap, g, n);
    }
  }

  lemma TakesAndStores(s: State, cap: nat, g: nat, n: nat) returns (steps: seq<Step>, s': State)
    requires Taken(s) && Busy(s, g) && Idle(s, n) && Left(s.flushes[n]) > 0 && s.queue != []
    ensures Runs(s, cap, steps, s') && !(BatchesOf(s'.outcomes) <= s'.sent)
  {
    var s1 := Next(s, cap, Take(n));
    s' := Next(s1, cap, Commit(n));
    assert Runs(s', cap, [], s');
    RunsStep(s1, cap, Commit(n), [], s');
    RunsStep(s, cap, Take(n), [Commit(n)] + [], s');
    steps := [Take(n)] + ([Commit(n)] + []);
    OutOfOrder(s, g);
    assert BatchesOf(s'.outcomes) == BatchesOf(s.outcomes) + [s.queue[0]];
  }

  /** Flush g has a batch in hand or to take, and n has just started behind it. */
  lemma BothAtWork(s: State, cap: nat, g: nat, n: nat) returns (steps: seq<Step>, s': State)
    requires Taken(s) && cap > 0 && g < n < |s.flushes| && !Spent(s.flushes[g]) && s.queue != []
    requires Idle(s, n) && Left(s.flushes[n]) > 0
    ensures Runs(s, cap, steps, s') && !(BatchesOf(s'.outcomes) <= s'.sent)
  {
    hide Taken, Runs, BatchesOf;
    if Busy(s, g) {
      steps, s' := Overtakes(s, cap, g, n);
    } else {
      StepKeepsTaken(s, cap, Take(g));
      steps, s' := Overtakes(Next(s, cap, Take(g)), cap, g, n);
      RunsStep(s, cap, Take(g), steps, s');
      steps := [Take(g)] + steps;
    }
  }

  /** Conversely, in whatever state a flush starts on a queue with batches while another has one
      in hand or to take, the agent can go on to store batches out of order. */
  lemma StartCanOvertake(s: State, cap: nat) returns (steps: seq<Step>, s': State)
    requires Reachable(s, cap) && cap > 0 && !StartsInTurn(s)
    ensures Runs(s, cap, [Start] + steps, s') && !(BatchesOf(s'.outcomes) <= s'.sent)
  {
    ReachableTaken(s, cap);
    hide Taken, Runs, BatchesOf, Reachable;
    StepKeepsTaken(s, cap, Start);
    var g :| 0 <= g < |s.flushes| && !Spent(s.flushes[g]);
    steps, s' := BothAtWork(Next(s, cap, Start), cap, g, |s.flushes|);
    RunsStep(s, cap, Start, steps, s');
  }

  lemma ReachableTaken(s: State, cap: nat)
    requires Reachable(s, cap)
    ensures Taken(s)
  {
    var steps :| Runs(START, cap, steps, s);
    StartState();
    hide Taken, Runs;
    RunKeepsTaken(START, cap, steps, s);
  }
}

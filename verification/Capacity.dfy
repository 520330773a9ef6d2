/** The capacity of the polling channel, flushInterval/interval + 1 (agent/polling/polling.go),
    against the ticks of the two tickers. */
module Capacity {
  import opened Arithmetic

  /** A scan or a flush takes effect at its tick. */
  datatype Event = Scan(time: int) | Flush(time: int)

  function Cap(interval: int, flushInterval: int): int
    requires interval > 0
  {
    flushInterval / interval + 1
  }

  /** The last flush, or the start when there is none. */
  function Base(events: seq<Event>): int
    requires events != []
  {
    var n := |events| - 1;
    if events[n].Flush? || n == 0 then events[n].time else Base(events[..n])
  }

  /** The times of the scans whose batches are in the channel: those since the last flush. */
  function Pending(events: seq<Event>): seq<int> {
    if events == [] then []
    else
      var n := |events| - 1;
      if events[n].Flush? then [] else Pending(events[..n]) + [events[n].time]
  }

  function ScanTimes(events: seq<Event>): seq<int> {
    if events == [] then []
    else
      var n := |events| - 1;
      ScanTimes(events[..n]) + if events[n].Scan? then [events[n].time] else []
  }

  /** Events in order of time, in any phase: scans at least an interval apart, and no event later
      than a flush interval after the last flush or the start. Ticks at the same time may take
      effect in either order. */
  predicate Timely(events: seq<Event>, interval: int, flushInterval: int) {
    |events| <= 1 ||
    var n := |events| - 1;
    var front, last := events[..n], events[n].time;
    && Timely(front, interval, flushInterval)
    && front[n - 1].time <= last <= Base(front) + flushInterval
    && (events[n].Scan? && ScanTimes(front) != [] ==> ScanTimes(front)[|ScanTimes(front)| - 1] + interval <= last)
  }

  lemma {:induction false} PendingSpacing(events: seq<Event>, interval: int, flushInterval: int)
    requires 0 < interval <= flushInterval && events != [] && Timely(events, interval, flushInterval)
    ensures Base(events) <= events[|events| - 1].time <= Base(events) + flushInterval
    ensures var ts := Pending(events);
      ts != [] ==>
        && ScanTimes(events) != [] && ts[|ts| - 1] == ScanTimes(events)[|ScanTimes(events)| - 1]
        && Base(events) <= ts[0] && ts[0] + (|ts| - 1) * interval <= ts[|ts| - 1] <= events[|events| - 1].time
  {
    var n := |events| - 1;
    if n > 0 {
      PendingSpacing(events[..n], interval, flushInterval);
      var ts := Pending(events[..n]);
      if events[n].Scan? && ts != [] {
        assert (|ts| + 1 - 1) * interval == (|ts| - 1) * interval + interval;
      }
    } else {
      assert events[..0] == [];
      assert Pending(events[..0]) == [];
    }
  }

  lemma CountFromSpan(n: nat, interval: int, flushInterval: int)
    requires 0 < interval && n > 0 && (n - 1) * interval <= flushInterval
    ensures n <= flushInterval / interval + 1
  {
    var q := flushInterval / interval;
    assert flushInterval < q * interval + interval;
    if n - 1 > q {
      ProductMonotone(q + 1, n - 1, interval);
    }
  }

  /** The channel never holds more than its capacity, so a scan never finds it full. */
  lemma NeverFull(events: seq<Event>, interval: int, flushInterval: int)
    requires 0 < interval <= flushInterval && Timely(events, interval, flushInterval)
    ensures |Pending(events)| <= Cap(interval, flushInterval)
    ensures events != [] && events[|events| - 1].Scan? ==>
      |Pending(events[..|events| - 1])| < Cap(interval, flushInterval)
  {
    if events != [] && Pending(events) != [] {
      PendingSpacing(events, interval, flushInterval);
      CountFromSpan(|Pending(events)|, interval, flushInterval);
    }
  }

  /** n scans, one at each tick from 0. */
  function Ticks(n: nat, interval: int): (events: seq<Event>)
    ensures |events| == n
  {
    if n == 0 then [] else Ticks(n - 1, interval) + [Scan((n - 1) * interval)]
  }

  lemma OneMoreScan(events: seq<Event>, t: int)
    ensures var more := events + [Scan(t)];
      && Pending(more) == Pending(events) + [t] && ScanTimes(more) == ScanTimes(events) + [t]
      && Base(more) == if events == [] then t else Base(events)
  {
    assert (events + [Scan(t)])[..|events|] == events;
  }

  lemma OneMoreTimely(events: seq<Event>, t: int, interval: int, flushInterval: int)
    requires events != [] && Timely(events, interval, flushInterval) && ScanTimes(events) != []
    requires events[|events| - 1].time <= t <= Base(events) + flushInterval
    requires ScanTimes(events)[|ScanTimes(events)| - 1] + interval <= t
    ensures Timely(events + [Scan(t)], interval, flushInterval)
  {
    hide Base, ScanTimes;
    assert (events + [Scan(t)])[..|events|] == events;
  }

  /** What Ticks(n, interval) is like. */
  ghost predicate Regular(events: seq<Event>, n: nat, interval: int, flushInterval: int) {
    && |events| == |Pending(events)| == |ScanTimes(events)| == n
    && (n > 0 ==>
          && Base(events) == 0 && events[n - 1] == Scan((n - 1) * interval)
          && ScanTimes(events)[n - 1] == (n - 1) * interval)
    && Timely(events, interval, flushInterval)
  }

  lemma RegularNext(events: seq<Event>, n: nat, interval: int, flushInterval: int)
    requires 0 < interval <= flushInterval && Regular(events, n, interval, flushInterval) && n * interval <= flushInterval
    ensures Regular(events + [Scan(n * interval)], n + 1, interval, flushInterval)
  {
    OneMoreScan(events, n * interval);
    if n > 0 {
      assert (n - 1) * interval + interval == n * interval;
      hide Base, ScanTimes, Pending, Timely;
      OneMoreTimely(events, n * interval, interval, flushInterval);
    } else {
      assert events == [] && n * interval == 0;
    }
  }

  lemma {:induction false} TicksTimely(n: nat, interval: int, flushInterval: int)
    requires 0 < interval <= flushInterval && (n - 1) * interval <= flushInterval
    ensures Regular(Ticks(n, interval), n, interval, flushInterval)
  {
    if n > 0 {
      ProductMonotone(n - 2, n - 1, interval);
      hide Regular;
      TicksTimely(n - 1, interval, flushInterval);
      RegularNext(Ticks(n - 1, interval), n - 1, interval, flushInterval);
    }
  }

  /** The bound is attained: with a smaller channel some scan would find it full. */
  lemma CapacityIsTight(interval: int, flushInterval: int)
    requires 0 < interval <= flushInterval
    ensures exists events :: Timely(events, interval, flushInterval) && |Pending(events)| == Cap(interval, flushInterval)
  {
    var q := flushInterval / interval;
    assert q * interval <= flushInterval;
    TicksTimely(q + 1, interval, flushInterval);
    assert |Pending(Ticks(q + 1, interval))| == Cap(interval, flushInterval);
  }
}

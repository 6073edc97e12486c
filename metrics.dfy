/**
 * The process-wide metrics registry: named counters, and named timers that keep a sample
 * count and a running total of milliseconds.
 */
module Metrics {

  datatype Timer = Timer(count: int, totalMs: int)

  /** What `snapshot()` hands out: a copy of both tables. */
  datatype Snapshot = Snapshot(counters: map<string, int>, timers: map<string, Timer>)

  /** A counter that was never incremented reads as 0. */
  function CounterOr0(counters: map<string, int>, name: string): (v: int)
    ensures name in counters ==> v == counters[name]
    ensures name !in counters ==> v == 0
  {
    if name in counters then counters[name] else 0
  }

  /** A timer that never got a sample starts from zero samples and zero milliseconds. */
  function TimerOrEmpty(timers: map<string, Timer>, name: string): (t: Timer)
    ensures name in timers ==> t == timers[name]
    ensures name !in timers ==> t == Timer(0, 0)
  {
    if name in timers then timers[name] else Timer(0, 0)
  }

  class Registry {
    var counters: map<string, int>
    var timers: map<string, Timer>

    constructor ()
      ensures counters == map[] && timers == map[]
    {
      counters, timers := map[], map[];
    }

    /** `metrics.increment(name, by)`: only counter `name` moves, by `amount` (the `by` argument). */
    method Increment(name: string, amount: int := 1)
      modifies this
      ensures counters == old(counters)[name := CounterOr0(old(counters), name) + amount]
      ensures timers == old(timers)
    {
      counters := counters[name := CounterOr0(counters, name) + amount];
    }

    /** `metrics.timing(name, ms)`: only timer `name` gains one sample of `ms`. */
    method Timing(name: string, ms: int)
      modifies this
      ensures name in timers
      ensures timers[name].count == TimerOrEmpty(old(timers), name).count + 1
      ensures timers[name].totalMs == TimerOrEmpty(old(timers), name).totalMs + ms
      ensures timers == old(timers)[name := timers[name]]
      ensures counters == old(counters)
    {
      var entry := TimerOrEmpty(timers, name);
      entry := entry.(count := entry.count + 1);
      entry := entry.(totalMs := entry.totalMs + ms);
      timers := timers[name := entry];
    }

    /** `metrics.snapshot()`: the current tables, as a value later updates cannot reach. */
    method TakeSnapshot() returns (s: Snapshot)
      ensures s.counters == counters && s.timers == timers
    {
      s := Snapshot(counters, timers);
    }
  }

  /** After a default increment the counter is positive, as long as it was not negative. */
  method IncrementExample(registry: Registry)
    requires CounterOr0(registry.counters, "external.calls") >= 0
    modifies registry
  {
    var before := registry.TakeSnapshot();
    registry.Increment("external.calls");
    var after := registry.TakeSnapshot();
    assert after.counters["external.calls"] > 0;
    assert before.counters == old(registry.counters);
  }
}

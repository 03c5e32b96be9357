/** `PerformanceMonitor` of src/utils.py: start instants and recorded durations per operation.
    Clock readings are parameters, in seconds. */
module Performance {
  import opened Wrappers
  import opened Numbers

  /** One entry of `get_summary`. */
  datatype Stats = Stats(count: nat, average: real, min: real, max: real, total: real)

  function StatsOf(times: seq<real>): (st: Stats)
    requires times != []
    ensures st.count == |times| && st.total == Sum(times) && st.average == st.total / st.count as real
    ensures st.min in times && st.max in times
    ensures forall t :: t in times ==> st.min <= t <= st.max
    ensures st.min <= st.average <= st.max
  {
    MeanBetween(times);
    Stats(|times|, Sum(times) / |times| as real, Min(times), Max(times), Sum(times))
  }

  /** The durations recorded for an operation; none when it has no entry. */
  function Recorded(metrics: map<string, seq<real>>, operation: string): seq<real>
  {
    if operation in metrics then metrics[operation] else []
  }

  class PerformanceMonitor {
    var metrics: map<string, seq<real>>
    var startTimes: map<string, real>

    constructor ()
      ensures metrics == map[] && startTimes == map[]
    {
      metrics := map[];
      startTimes := map[];
    }

    /** `start_timer`: a later start replaces an earlier one. */
    method StartTimer(operation: string, now: real)
      modifies this
      ensures startTimes == old(startTimes)[operation := now]
      ensures metrics == old(metrics)
    {
      startTimes := startTimes[operation := now];
    }

    /** `end_timer`: without a start nothing changes and None comes back; otherwise exactly
        one duration is appended for the operation and its start is forgotten. */
    method EndTimer(operation: string, now: real) returns (duration: Option<real>)
      modifies this
      ensures operation !in old(startTimes) ==>
                duration == None && metrics == old(metrics) && startTimes == old(startTimes)
      ensures operation in old(startTimes) ==>
                && duration == Some(now - old(startTimes)[operation])
                && startTimes == old(startTimes) - {operation}
                && metrics == old(metrics)[operation := Recorded(old(metrics), operation) + [duration.value]]
    {
      if operation in startTimes {
        var d := now - startTimes[operation];
        if operation !in metrics {
          metrics := metrics[operation := []];
        }
        metrics := metrics[operation := metrics[operation] + [d]];
        startTimes := startTimes - {operation};
        return Some(d);
      }
      return None;
    }

    /** `get_average_time`: 0.0 when nothing is recorded, otherwise the mean, which lies
        between the shortest and the longest duration. */
    function GetAverageTime(operation: string): (average: real)
      reads this
      ensures Recorded(metrics, operation) == [] ==> average == 0.0
      ensures var times := Recorded(metrics, operation);
              times != [] ==> average == Sum(times) / |times| as real && Min(times) <= average <= Max(times)
    {
      var times := Recorded(metrics, operation);
      if times != [] then
        MeanBetween(times);
        Sum(times) / |times| as real
      else 0.0
    }

    /** `get_summary`: an entry for exactly the operations with recorded durations. */
    method GetSummary() returns (summary: map<string, Stats>)
      ensures summary.Keys == set op | op in metrics && metrics[op] != []
      ensures forall op :: op in summary ==> summary[op] == StatsOf(metrics[op])
    {
      summary := map[];
      var pending := metrics.Keys;
      while pending != {}
        invariant pending <= metrics.Keys
        invariant summary.Keys == set op | op in metrics && op !in pending && metrics[op] != []
        invariant forall op :: op in summary ==> op in metrics && metrics[op] != [] && summary[op] == StatsOf(metrics[op])
        decreases pending
      {
        var op :| op in pending;
        if metrics[op] != [] {
          summary := summary[op := StatsOf(metrics[op])];
        }
        pending := pending - {op};
      }
    }
  }
}

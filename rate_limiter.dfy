/** `APIRateLimiter` of src/utils.py: a sliding one-minute window of call instants. The
    clock reading is a parameter (integer seconds) and the wait is returned instead of slept. */
module RateLimiter {
  import opened Wrappers

  const SecondsPerDay := 86400
  const Window := 60

  /** `(now - t).seconds`: the seconds-within-day component of a timedelta, which Python
      normalises into [0, 86400) with floor division. */
  function Age(now: int, t: int): (a: int)
    ensures 0 <= a < SecondsPerDay
  {
    (now - t) % SecondsPerDay
  }

  /** The calls kept by the list comprehension, in their original order: a call is kept
      exactly when its age is under a minute, so the list never grows. */
  function Recent(calls: seq<int>, now: int): (r: seq<int>)
    ensures |r| <= |calls|
    ensures forall t :: t in r <==> t in calls && Age(now, t) < Window
  {
    if calls == [] then []
    else
      var init := calls[..|calls| - 1];
      var kept := Recent(init, now);
      var t := calls[|calls| - 1];
      assert calls == init + [t];
      if Age(now, t) < Window then kept + [t] else kept
  }

  /** Extending the calls by one keeps that call when it is under a minute old, and
      nothing else. */
  lemma RecentStep(calls: seq<int>, now: int, i: nat)
    requires i < |calls|
    ensures Recent(calls[..i + 1], now) ==
      if Age(now, calls[i]) < Window then Recent(calls[..i], now) + [calls[i]] else Recent(calls[..i], now)
  {
    assert calls[..i + 1][..i] == calls[..i];
  }

  /** Filtering distributes over concatenation, so kept calls stay in their order. */
  lemma {:induction false} RecentAppend(a: seq<int>, b: seq<int>, now: int)
    ensures Recent(a + b, now) == Recent(a, now) + Recent(b, now)
  {
    if b != [] {
      var initB := b[..|b| - 1];
      assert (a + b)[..|a + b| - 1] == a + initB;
      RecentAppend(a, initB, now);
    } else {
      assert a + b == a;
    }
  }

  function Min(s: seq<int>): (m: int)
    requires s != []
    ensures m in s && forall x :: x in s ==> m <= x
  {
    if |s| == 1 then s[0]
    else
      var m := Min(s[..|s| - 1]);
      assert forall x :: x in s ==> x in s[..|s| - 1] || x == s[|s| - 1];
      if s[|s| - 1] < m then s[|s| - 1] else m
  }

  /** `min()` of an empty list raises ValueError. */
  datatype LimiterError = EmptyWindow

  /** The sleep the limiter takes for a window of retained calls: at most a minute, only
      when the window is full, and an error only when `min()` meets an empty window. When
      every retained call is under a minute old, a full window always means a wait. */
  function Delay(recent: seq<int>, now: int, limit: int): (r: Result<nat, LimiterError>)
    ensures r.Err? <==> recent == [] && limit <= 0
    ensures r.Ok? ==> r.value <= Window
    ensures r.Ok? && r.value > 0 ==> |recent| >= limit && recent != []
    ensures (forall t :: t in recent ==> Age(now, t) < Window) ==>
              (r.Ok? && r.value > 0 <==> |recent| >= limit && recent != [])
  {
    if |recent| >= limit then
      if recent == [] then Err(EmptyWindow)
      else
        var wait := Window - Age(now, Min(recent));
        Ok(if wait > 0 then wait else 0)
    else Ok(0)
  }

  /** The limiter sleeps exactly when the retained window is full and non-empty, and then
      for between 1 and 60 seconds; it fails only when the limit is not positive and the
      window is empty. */
  lemma DelayBounds(calls: seq<int>, now: int, limit: int)
    ensures var recent := Recent(calls, now); var d := Delay(recent, now, limit);
            && (d.Err? <==> recent == [] && limit <= 0)
            && (d.Ok? && d.value > 0 <==> |recent| >= limit && recent != [])
            && (d.Ok? ==> d.value <= Window)
  {
  }

  /** The window can hold one call more than the limit: the new call is recorded even
      though the limiter slept for it. */
  lemma WindowCanExceedLimit()
    ensures var recent := Recent([0], 1);
            Delay(recent, 1, 1) == Ok(59) && |recent + [1]| == 2
  {
  }

  /** `.seconds` keeps only the seconds within a day: a call made a day and ten seconds
      earlier still counts as ten seconds old and holds up a limit of one call. */
  lemma DayOldCallLooksRecent()
    ensures Recent([0], SecondsPerDay + 10) == [0]
    ensures Delay([0], SecondsPerDay + 10, 1) == Ok(50)
  {
  }

  /** What `wait_if_needed` raises when the module is imported rather than run: `time` is
      bound only by the script's own main block, so `time.sleep` is a NameError. */
  datatype ImportedError = MinOfEmpty | TimeUndefined

  /** `wait_if_needed` as written, for an imported module: the raise and the new call list.
      It never waits: each time a wait is due it raises instead, and the call that
      triggered it is not recorded. */
  function WaitAsImported(calls: seq<int>, now: int, limit: int): (r: (Outcome<ImportedError>, seq<int>))
    ensures var recent := Recent(calls, now);
            && (r.0 == Fail(TimeUndefined) <==> |recent| >= limit && recent != [])
            && (r.0 == Fail(MinOfEmpty) <==> recent == [] && limit <= 0)
            && (r.0.Pass? <==> Delay(recent, now, limit) == Ok(0))
            && r.1 == (if r.0.Pass? then recent + [now] else recent)
  {
    DelayBounds(calls, now, limit);
    var recent := Recent(calls, now);
    var delay := Delay(recent, now, limit);
    if delay.Err? then (Fail(MinOfEmpty), recent)
    else if delay.value > 0 then (Fail(TimeUndefined), recent)
    else (Pass, recent + [now])
  }

  /** A limit of one call per minute and two calls a second apart: the second call raises. */
  lemma ImportedLimiterSecondCallRaises()
    ensures WaitAsImported([0], 1, 1) == (Fail(TimeUndefined), [0])
  {
    assert Recent([0], 1) == [0];
    assert Delay([0], 1, 1) == Ok(59);
  }

  class APIRateLimiter {
    const callsPerMinute: int
    var calls: seq<int>

    constructor (callsPerMinute: int)
      ensures this.callsPerMinute == callsPerMinute && calls == []
    {
      this.callsPerMinute := callsPerMinute;
      calls := [];
    }

    /** `wait_if_needed`: drop calls a minute old or older, compute the sleep, record `now`.
        When `min()` raises, the filtered list has already replaced the old one. */
    method WaitIfNeeded(now: int) returns (r: Result<nat, LimiterError>)
      modifies this
      ensures r == Delay(Recent(old(calls), now), now, callsPerMinute)
      ensures calls == if r.Ok? then Recent(old(calls), now) + [now] else Recent(old(calls), now)
    {
      var previous := calls;
      var kept := [];
      var i := 0;
      while i < |previous|
        invariant 0 <= i <= |previous|
        invariant kept == Recent(previous[..i], now)
      {
        RecentStep(previous, now, i);
        if Age(now, previous[i]) < Window {
          kept := kept + [previous[i]];
        }
        i := i + 1;
      }
      assert previous[..i] == previous;
      calls := kept;
      if |calls| >= callsPerMinute {
        if calls == [] {
          return Err(EmptyWindow);
        }
        var oldest := Min(calls);
        var waitTime := Window - Age(now, oldest);
        r := Ok(if waitTime > 0 then waitTime else 0);
      } else {
        r := Ok(0);
      }
      calls := calls + [now];
    }
  }
}

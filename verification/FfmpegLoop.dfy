/** transmuxLoop and nextBackoff of relay/manager.go: restarting ffmpeg with a backoff, and giving a
    channel up when its source has been failing for too long.

    Times are nanoseconds.  An attempt either fails to start or runs for some time; everything else
    that the loop does takes no time.  The attempts are those made before the context is cancelled. */
module FfmpegLoop {
  import opened Text

  const SECOND: int := 1_000_000_000
  const HEALTHY: int := 30 * SECOND

  datatype Attempt = StartFails | Runs(duration: nat)

  function Duration(a: Attempt): nat {
    if a.StartFails? then 0 else a.duration
  }

  predicate Failed(a: Attempt) {
    Duration(a) <= HEALTHY
  }

  function NextBackoff(current: int): int {
    var next := current * 2;
    if next > 30 * SECOND then 30 * SECOND
    else if next < SECOND then SECOND
    else next
  }

  // ---------------------------------------------------------------- the loop

  datatype Progress =
    | Live(now: int, backoff: int, firstFailureAt: Option<int>)
    | GaveUp(at: int, attempt: nat)

  /** One turn of the loop, from before an attempt to behind the wait that follows it. */
  function Turn(p: Progress, k: nat, a: Attempt, sourceErrorAfter: int): Progress
    requires p.Live?
  {
    match a
    case StartFails =>
      var first := if p.firstFailureAt.None? then p.now else p.firstFailureAt.value;
      if sourceErrorAfter > 0 && p.now - first > sourceErrorAfter then GaveUp(p.now, k)
      else Live(p.now + p.backoff, NextBackoff(p.backoff), Some(first))
    case Runs(duration) =>
      var end := p.now + duration;
      var first :=
        if duration > HEALTHY then None else if p.firstFailureAt.None? then Some(p.now) else p.firstFailureAt;
      if sourceErrorAfter > 0 && first.Some? && end - first.value > sourceErrorAfter then GaveUp(end, k)
      else Live(end + SECOND, NextBackoff(SECOND), first)
  }

  function Run(start: int, attempts: seq<Attempt>, sourceErrorAfter: int, n: nat): Progress
    requires n <= |attempts|
  {
    if n == 0 then Live(start, SECOND, None)
    else
      var p := Run(start, attempts, sourceErrorAfter, n - 1);
      if p.GaveUp? then p else Turn(p, n - 1, attempts[n - 1], sourceErrorAfter)
  }

  method TransmuxLoop(start: int, attempts: seq<Attempt>, sourceErrorAfter: int) returns (p: Progress)
    ensures p == Run(start, attempts, sourceErrorAfter, |attempts|)
  {
    var now, backoff := start, SECOND;
    var firstFailureAt: Option<int> := None;
    var k := 0;
    while k < |attempts|
      invariant 0 <= k <= |attempts|
      invariant Run(start, attempts, sourceErrorAfter, k) == Live(now, backoff, firstFailureAt)
    {
      if attempts[k].StartFails? {
        if firstFailureAt.None? {
          firstFailureAt := Some(now);
        }
        if sourceErrorAfter > 0 && now - firstFailureAt.value > sourceErrorAfter {
          StaysGivenUp(start, attempts, sourceErrorAfter, k + 1);
          return GaveUp(now, k);
        }
        now := now + backoff;
        backoff := NextBackoff(backoff);
        k := k + 1;
        continue;
      }
      backoff := SECOND;
      var startedAt := now;
      now := now + attempts[k].duration;
      if now - startedAt > HEALTHY {
        firstFailureAt := None;
      } else if firstFailureAt.None? {
        firstFailureAt := Some(startedAt);
      }
      if sourceErrorAfter > 0 && firstFailureAt.Some? && now - firstFailureAt.value > sourceErrorAfter {
        StaysGivenUp(start, attempts, sourceErrorAfter, k + 1);
        return GaveUp(now, k);
      }
      now := now + backoff;
      backoff := NextBackoff(backoff);
      k := k + 1;
    }
    p := Live(now, backoff, firstFailureAt);
  }

  lemma {:induction false} StaysGivenUp(start: int, attempts: seq<Attempt>, sourceErrorAfter: int, n: nat)
    requires n <= |attempts| && Run(start, attempts, sourceErrorAfter, n).GaveUp?
    ensures Run(start, attempts, sourceErrorAfter, |attempts|) == Run(start, attempts, sourceErrorAfter, n)
    decreases |attempts| - n
  {
    if n < |attempts| {
      StaysGivenUp(start, attempts, sourceErrorAfter, n + 1);
    }
  }

  // ---------------------------------------------------------------- a timeline without the loop's state

  function Pow2(n: nat): nat {
    if n == 0 then 1 else 2 * Pow2(n - 1)
  }

  /** The wait of the n-th turn after a fresh backoff: 1, 2, 4, 8, 16, 30, 30, ... seconds. */
  function Wait(n: nat): int {
    if Pow2(n) > 30 then 30 * SECOND else Pow2(n) * SECOND
  }

  /** Turns since the backoff was fresh: since ffmpeg last started, or since the loop began. */
  function SinceFresh(attempts: seq<Attempt>, k: nat): nat
    requires k < |attempts|
  {
    if k == 0 || attempts[k].Runs? then 0 else SinceFresh(attempts, k - 1) + 1
  }

  function StartOf(start: int, attempts: seq<Attempt>, k: nat): int
    requires k <= |attempts|
  {
    if k == 0 then start
    else StartOf(start, attempts, k - 1) + Duration(attempts[k - 1]) + Wait(SinceFresh(attempts, k - 1))
  }

  function EndOf(start: int, attempts: seq<Attempt>, k: nat): int
    requires k < |attempts|
  {
    StartOf(start, attempts, k) + Duration(attempts[k])
  }

  /** First attempt of the unbroken streak of failures that ends with attempt k. */
  function StreakStart(attempts: seq<Attempt>, k: nat): (m: nat)
    requires k < |attempts|
    ensures m <= k
  {
    if k > 0 && Failed(attempts[k - 1]) then StreakStart(attempts, k - 1) else k
  }

  /** The source has been failing for longer than allowed when attempt k ends. */
  ghost predicate TooLong(start: int, attempts: seq<Attempt>, limit: int, k: nat)
    requires k < |attempts|
  {
    && limit > 0
    && Failed(attempts[k])
    && EndOf(start, attempts, k) - StartOf(start, attempts, StreakStart(attempts, k)) > limit
  }

  lemma {:induction false} WaitDoubles(n: nat)
    ensures SECOND <= Wait(n) <= 30 * SECOND
    ensures NextBackoff(Wait(n)) == Wait(n + 1)
  {
    Pow2Positive(n);
    assert Pow2(n + 1) == 2 * Pow2(n);
  }

  lemma {:induction false} Pow2Positive(n: nat)
    ensures Pow2(n) >= 1
  {
    if n > 0 {
      Pow2Positive(n - 1);
    }
  }

  ghost predicate OnTimeline(p: Progress, start: int, attempts: seq<Attempt>, n: nat)
    requires n <= |attempts|
  {
    && p.Live?
    && p.now == StartOf(start, attempts, n)
    && p.backoff == Wait(if n == 0 then 0 else SinceFresh(attempts, n - 1) + 1)
    && p.firstFailureAt == if n > 0 && Failed(attempts[n - 1])
                           then Some(StartOf(start, attempts, StreakStart(attempts, n - 1))) else None
  }

  lemma TurnFollowsTimeline(p: Progress, start: int, attempts: seq<Attempt>, limit: int, k: nat)
    requires k < |attempts| && OnTimeline(p, start, attempts, k)
    ensures var q := Turn(p, k, attempts[k], limit);
            if TooLong(start, attempts, limit, k) then q == GaveUp(EndOf(start, attempts, k), k)
            else OnTimeline(q, start, attempts, k + 1)
  {
    WaitDoubles(SinceFresh(attempts, k));
    assert Pow2(0) == 1;
  }

  /** The loop's three variables are what the timeline says, and it gives up at the first attempt
      that ends a streak of failures of more than the allowed time, and at no other. */
  lemma {:induction false} LoopFollowsTimeline(start: int, attempts: seq<Attempt>, limit: int, n: nat)
    requires n <= |attempts|
    ensures var p := Run(start, attempts, limit, n);
            && (p.Live? <==> forall k | 0 <= k < n :: !TooLong(start, attempts, limit, k))
            && (p.Live? ==> OnTimeline(p, start, attempts, n) && SECOND <= p.backoff <= 30 * SECOND)
            && (p.GaveUp? ==>
                  && p.attempt < n
                  && TooLong(start, attempts, limit, p.attempt)
                  && (forall k | 0 <= k < p.attempt :: !TooLong(start, attempts, limit, k))
                  && p.at == EndOf(start, attempts, p.attempt))
  {
    if n == 0 {
      WaitDoubles(0);
    } else {
      LoopFollowsTimeline(start, attempts, limit, n - 1);
      var p := Run(start, attempts, limit, n - 1);
      if p.Live? {
        TurnFollowsTimeline(p, start, attempts, limit, n - 1);
        WaitDoubles(SinceFresh(attempts, n - 1) + 1);
      }
    }
  }

  // ---------------------------------------------------------------- consequences

  /** The failure window is closed exactly behind a run of more than thirty seconds. */
  lemma WindowCloses(start: int, attempts: seq<Attempt>, limit: int, k: nat)
    requires k < |attempts| && Run(start, attempts, limit, k + 1).Live?
    ensures Run(start, attempts, limit, k + 1).firstFailureAt.None?
            <==> attempts[k].Runs? && attempts[k].duration > 30_000_000_000
  {
    LoopFollowsTimeline(start, attempts, limit, k + 1);
  }

  /** The loop never gives up behind such a run. */
  lemma LongRunIsForgiven(start: int, attempts: seq<Attempt>, limit: int, k: nat)
    requires k < |attempts| && Run(start, attempts, limit, k).Live?
    requires attempts[k].Runs? && attempts[k].duration > 30_000_000_000
    ensures Run(start, attempts, limit, k + 1).Live?
  {
    LoopFollowsTimeline(start, attempts, limit, k + 1);
  }

  ghost predicate AllFailed(attempts: seq<Attempt>, m: nat, n: nat)
    requires n <= |attempts|
  {
    forall k | m <= k < n :: attempts[k].Runs? ==> attempts[k].duration <= 30_000_000_000
  }

  lemma {:induction false} StreakReaches(attempts: seq<Attempt>, m: nat, k: nat)
    requires m <= k < |attempts| && AllFailed(attempts, m, k)
    ensures StreakStart(attempts, k) <= m
  {
    if k > m {
      StreakReaches(attempts, m, k - 1);
    }
  }

  /** Every turn takes at least a second, and with a failed attempt at most a minute. */
  lemma {:induction false} TurnsTakeTime(start: int, attempts: seq<Attempt>, m: nat, k: nat)
    requires m <= k <= |attempts|
    ensures StartOf(start, attempts, k) >= StartOf(start, attempts, m) + (k - m) * SECOND
  {
    if k > m {
      TurnsTakeTime(start, attempts, m, k - 1);
      WaitDoubles(SinceFresh(attempts, k - 1));
    }
  }

  lemma TurnIsShort(start: int, attempts: seq<Attempt>, k: nat)
    requires 0 < k <= |attempts|
    ensures StartOf(start, attempts, k) <= EndOf(start, attempts, k - 1) + 30 * SECOND
  {
  }

  lemma EndsBefore(start: int, attempts: seq<Attempt>, k: nat, m: nat)
    requires k < m <= |attempts|
    ensures EndOf(start, attempts, k) <= StartOf(start, attempts, m)
  {
    TurnsTakeTime(start, attempts, k + 1, m);
    WaitDoubles(SinceFresh(attempts, k));
  }

  /** An unbroken streak from attempt m on is too long at the latest S + 1 attempts later. */
  lemma StreakGetsTooLong(start: int, attempts: seq<Attempt>, seconds: nat, m: nat)
    requires seconds > 0 && m + seconds + 1 < |attempts| && AllFailed(attempts, m, |attempts|)
    ensures TooLong(start, attempts, seconds * SECOND, m + seconds + 1)
  {
    var last := m + seconds + 1;
    StreakReaches(attempts, m, last);
    TurnsTakeTime(start, attempts, m, last);
    TurnsTakeTime(start, attempts, StreakStart(attempts, last), m);
    assert (last - m) * SECOND > seconds * SECOND;
  }

  /** The first attempt that is too long ends at most a minute after the limit has passed. */
  lemma TooLongSoon(start: int, attempts: seq<Attempt>, seconds: nat, m: nat, k: nat)
    requires m <= k < |attempts| && AllFailed(attempts, m, |attempts|)
    requires k == 0 || !TooLong(start, attempts, seconds * SECOND, k - 1)
    requires seconds > 0
    ensures EndOf(start, attempts, k) <= StartOf(start, attempts, m) + (seconds + 60) * SECOND
  {
    if k > m {
      StreakReaches(attempts, m, k - 1);
      TurnsTakeTime(start, attempts, StreakStart(attempts, k - 1), m);
      TurnIsShort(start, attempts, k);
    }
  }

  /** Auto-disable terminates: if from attempt m on ffmpeg always fails to start or runs for at most
      thirty seconds, then with a limit of S > 0 seconds the loop has returned after at most S + 2 of
      these attempts and within S + 60 seconds of the start of the first.  Times are in nanoseconds. */
  lemma GivesUpInTime(start: int, attempts: seq<Attempt>, seconds: nat, m: nat)
    requires seconds > 0 && m + seconds + 2 <= |attempts|
    requires forall k | m <= k < |attempts| :: attempts[k].StartFails? || attempts[k].duration <= 30_000_000_000
    ensures var p := Run(start, attempts, seconds * 1_000_000_000, |attempts|);
            && p.GaveUp?
            && p.attempt < m + seconds + 2
            && p.at <= StartOf(start, attempts, m) + (seconds + 60) * 1_000_000_000
  {
    var p := Run(start, attempts, seconds * SECOND, |attempts|);
    LoopFollowsTimeline(start, attempts, seconds * SECOND, |attempts|);
    StreakGetsTooLong(start, attempts, seconds, m);
    if p.attempt < m {
      EndsBefore(start, attempts, p.attempt, m);
    } else {
      TooLongSoon(start, attempts, seconds, m, p.attempt);
    }
  }

  /** Auto-disable is safe: a loop that gave up for its source had for more than the allowed time seen
      nothing but failed starts and runs of at most thirty seconds, since it began or since a longer run;
      with no limit configured it never gives up. */
  lemma GivesUpOnlyOnBadSource(start: int, attempts: seq<Attempt>, limit: int)
    requires Run(start, attempts, limit, |attempts|).GaveUp?
    ensures var p := Run(start, attempts, limit, |attempts|);
            && limit > 0
            && exists m | 0 <= m <= p.attempt < |attempts| ::
                 && (forall k | m <= k <= p.attempt ::
                       attempts[k].StartFails? || attempts[k].duration <= 30_000_000_000)
                 && (m == 0 || (attempts[m - 1].Runs? && attempts[m - 1].duration > 30_000_000_000))
                 && p.at - StartOf(start, attempts, m) > limit
  {
    var p := Run(start, attempts, limit, |attempts|);
    LoopFollowsTimeline(start, attempts, limit, |attempts|);
    StreakIsUnbroken(attempts, p.attempt);
  }

  lemma {:induction false} StreakIsUnbroken(attempts: seq<Attempt>, k: nat)
    requires k < |attempts| && Failed(attempts[k])
    ensures var m := StreakStart(attempts, k);
            && (forall i | m <= i <= k :: Failed(attempts[i]))
            && (m == 0 || !Failed(attempts[m - 1]))
  {
    if k > 0 && Failed(attempts[k - 1]) {
      StreakIsUnbroken(attempts, k - 1);
    }
  }

  function Seconds(n: nat): int {
    if n == 0 then 1 else if n == 1 then 2 else if n == 2 then 4 else if n == 3 then 8 else if n == 4 then 16 else 30
  }

  lemma TurnWaits(start: int, attempts: seq<Attempt>, limit: int, k: nat)
    requires k < |attempts| && Run(start, attempts, limit, k + 1).Live?
    ensures var before, after := Run(start, attempts, limit, k), Run(start, attempts, limit, k + 1);
            before.Live? && after.now == before.now + Duration(attempts[k]) + Wait(SinceFresh(attempts, k))
  {
    LoopFollowsTimeline(start, attempts, limit, k);
    LoopFollowsTimeline(start, attempts, limit, k + 1);
  }

  /** Behind a run, or the loop's first attempt, the wait is one second; behind the n-th start failure in a
      row after it, it is 2, 4, 8, 16 and then always 30 seconds. */
  lemma {:induction false} WaitsDouble(start: int, attempts: seq<Attempt>, limit: int, m: nat, n: nat)
    requires m + n < |attempts| && (m == 0 || attempts[m].Runs?)
    requires forall i | m < i <= m + n :: attempts[i].StartFails?
    requires Run(start, attempts, limit, m + n + 1).Live?
    ensures var before, after := Run(start, attempts, limit, m + n), Run(start, attempts, limit, m + n + 1);
            var ran := if attempts[m + n].Runs? then attempts[m + n].duration else 0;
            before.Live? && after.now == before.now + ran + Seconds(n) * 1_000_000_000
  {
    AllStartFailures(attempts, m, m + n);
    TurnWaits(start, attempts, limit, m + n);
    WaitInSeconds(n);
  }

  lemma WaitInSeconds(n: nat)
    ensures Wait(n) == Seconds(n) * SECOND
  {
    assert Pow2(0) == 1 && Pow2(1) == 2 && Pow2(2) == 4 && Pow2(3) == 8 && Pow2(4) == 16 && Pow2(5) == 32;
    if n > 5 {
      PowersGrow(5, n);
    }
  }

  lemma {:induction false} PowersGrow(m: nat, n: nat)
    requires m <= n
    ensures Pow2(m) <= Pow2(n)
  {
    if m < n {
      PowersGrow(m, n - 1);
      Pow2Positive(n - 1);
    }
  }

  lemma {:induction false} AllStartFailures(attempts: seq<Attempt>, m: nat, k: nat)
    requires m <= k < |attempts| && (m == 0 || attempts[m].Runs?)
    requires forall i | m < i <= k :: attempts[i].StartFails?
    ensures SinceFresh(attempts, k) == k - m
  {
    if k > m {
      AllStartFailures(attempts, m, k - 1);
    }
  }
}

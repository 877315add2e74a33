/** RecordViewer and LiveViewers of relay/manager.go: the pruned map of recent viewers against the
    full log of requests. */
module Viewers {
  import opened Text

  type Buckets = map<string, map<string, int>>

  /** Times are in nanoseconds. */
  const WINDOW: int := 60 * 1_000_000_000

  function Bucket(v: Buckets, channel: string): map<string, int> {
    if channel in v then v[channel] else map[]
  }

  function Recorded(v: Buckets, channel: string, ip: string, at: int): Buckets {
    if channel == "" || ip == "" then v else v[channel := Bucket(v, channel)[ip := at]]
  }

  function Sweep(bucket: map<string, int>, cutoff: int): map<string, int> {
    map ip | ip in bucket && bucket[ip] >= cutoff :: bucket[ip]
  }

  function Pruned(v: Buckets, channel: string, cutoff: int): Buckets {
    var bucket := Sweep(Bucket(v, channel), cutoff);
    if bucket == map[] then v - {channel} else v[channel := bucket]
  }

  // ---------------------------------------------------------------- runs

  /** A request that was recorded, or a count; `at` is the clock under the lock, `asked` the clock
      that the count read before it waited for the lock. */
  datatype Step = Hit(channel: string, ip: string, at: int) | Count(channel: string, asked: int, at: int)

  function Run(steps: seq<Step>): Buckets {
    if steps == [] then map[]
    else
      var v := Run(steps[..|steps| - 1]);
      match steps[|steps| - 1]
      case Hit(channel, ip, at) => Recorded(v, channel, ip, at)
      case Count(channel, asked, _) => Pruned(v, channel, asked - WINDOW)
  }

  /** The clock never goes back. */
  ghost predicate Ordered(steps: seq<Step>) {
    && (forall i, j | 0 <= i < j < |steps| :: steps[i].at <= steps[j].at)
    && (forall i | 0 <= i < |steps| && steps[i].Count? :: steps[i].asked <= steps[i].at)
  }

  predicate Logged(step: Step, channel: string, cutoff: int) {
    step.Hit? && step.channel == channel && channel != "" && step.ip != "" && step.at >= cutoff
  }

  /** The distinct addresses in the full log with a request at or after the cutoff. */
  function Watching(steps: seq<Step>, channel: string, cutoff: int): set<string> {
    set s | s in steps && Logged(s, channel, cutoff) :: s.ip
  }

  /** The highest cutoff that a count of the channel has used. */
  function Swept(steps: seq<Step>, channel: string): Option<int> {
    if steps == [] then None
    else
      var before, last := Swept(steps[..|steps| - 1], channel), steps[|steps| - 1];
      if last.Count? && last.channel == channel && (before.None? || before.value < last.asked - WINDOW)
      then Some(last.asked - WINDOW) else before
  }

  function LastHit(steps: seq<Step>, channel: string, ip: string): Option<int> {
    if steps == [] then None
    else
      var last := steps[|steps| - 1];
      if last.Hit? && last.channel == channel && last.ip == ip && channel != "" && ip != "" then Some(last.at)
      else LastHit(steps[..|steps| - 1], channel, ip)
  }

  predicate Survives(hit: Option<int>, bar: Option<int>) {
    hit.Some? && (bar.None? || hit.value >= bar.value)
  }

  lemma {:induction false} LastHitIsLatest(steps: seq<Step>, channel: string, ip: string, cutoff: int)
    requires Ordered(steps)
    ensures ip in Watching(steps, channel, cutoff)
            <==> LastHit(steps, channel, ip).Some? && LastHit(steps, channel, ip).value >= cutoff
  {
    if steps != [] {
      var n := |steps| - 1;
      LastHitIsLatest(steps[..n], channel, ip, cutoff);
      var last := steps[n];
      if s :| s in steps[..n] && Logged(s, channel, cutoff) && s.ip == ip {
        assert s in steps && s.at <= last.at;
      }
      if s :| s in steps && Logged(s, channel, cutoff) && s.ip == ip {
        assert s == last || s in steps[..n];
      }
    }
  }

  lemma {:induction false} SweptIsPast(steps: seq<Step>, channel: string, now: int)
    requires Ordered(steps) && forall i | 0 <= i < |steps| :: steps[i].at <= now
    ensures Swept(steps, channel).Some? ==> Swept(steps, channel).value <= now
  {
    if steps != [] {
      SweptIsPast(steps[..|steps| - 1], channel, now);
      assert steps[|steps| - 1].at <= now;
    }
  }

  /** The pruned map holds exactly the last hits that no count has swept away. */
  lemma {:induction false} BucketIsUnswept(steps: seq<Step>, channel: string, ip: string)
    requires Ordered(steps)
    ensures ip in Bucket(Run(steps), channel) <==> Survives(LastHit(steps, channel, ip), Swept(steps, channel))
    ensures ip in Bucket(Run(steps), channel) ==> Bucket(Run(steps), channel)[ip] == LastHit(steps, channel, ip).value
  {
    if steps != [] {
      var n := |steps| - 1;
      BucketIsUnswept(steps[..n], channel, ip);
      if steps[n].Hit? {
        SweptIsPast(steps[..n], channel, steps[n].at);
      }
    }
  }

  lemma SameSize(small: set<string>, large: set<string>)
    requires small <= large
    ensures |small| == |large| <==> small == large
  {
    var rest := large - small;
    assert large == small + rest && small !! rest;
    assert |large| == |small| + |rest|;
  }

  /** No address has its last hit at `from` or later but before `to`. */
  ghost predicate NobodyLastSeen(steps: seq<Step>, channel: string, from: int, to: int) {
    forall ip :: !(LastHit(steps, channel, ip).Some? && from <= LastHit(steps, channel, ip).value < to)
  }

  lemma {:induction false} BetweenCutoffs(steps: seq<Step>, channel: string, from: int, to: int)
    requires Ordered(steps) && from <= to
    ensures Watching(steps, channel, to) <= Watching(steps, channel, from)
    ensures Watching(steps, channel, to) == Watching(steps, channel, from) <==> NobodyLastSeen(steps, channel, from, to)
  {
    forall ip: string
      ensures ip in Watching(steps, channel, to)
              <==> LastHit(steps, channel, ip).Some? && LastHit(steps, channel, ip).value >= to
      ensures ip in Watching(steps, channel, from)
              <==> LastHit(steps, channel, ip).Some? && LastHit(steps, channel, ip).value >= from
    {
      LastHitIsLatest(steps, channel, ip, to);
      LastHitIsLatest(steps, channel, ip, from);
    }
  }

  /** A count is the number of distinct addresses in the full log since its own cutoff or the highest
      one used before it, whichever is later.  So it is the number since its own cutoff exactly when no
      address was seen for the last time between the two.  In particular what earlier counts deleted
      never matters unless their cutoff was later, which happens only when counts overtake one another
      on the way to the lock. */
  lemma {:induction false} CountMatchesLog(steps: seq<Step>, channel: string, asked: int)
    requires Ordered(steps)
    ensures var cutoff, swept := asked - 60_000_000_000, Swept(steps, channel);
            var n := |Sweep(Bucket(Run(steps), channel), cutoff)|;
            && n == |Watching(steps, channel, if swept.Some? && swept.value > cutoff then swept.value else cutoff)|
            && (n == |Watching(steps, channel, cutoff)|
                <==> swept.Some? ==> NobodyLastSeen(steps, channel, cutoff, swept.value))
  {
    var cutoff, swept := asked - WINDOW, Swept(steps, channel);
    var later := if swept.Some? && swept.value > cutoff then swept.value else cutoff;
    var kept := Sweep(Bucket(Run(steps), channel), cutoff);
    forall ip: string
      ensures ip in kept.Keys <==> ip in Watching(steps, channel, later)
    {
      BucketIsUnswept(steps, channel, ip);
      LastHitIsLatest(steps, channel, ip, later);
    }
    assert kept.Keys == Watching(steps, channel, later);
    BetweenCutoffs(steps, channel, cutoff, later);
    SameSize(Watching(steps, channel, later), Watching(steps, channel, cutoff));
  }

  /** Two counts that overtake one another: the one that read its clock first gets the lock last, and
      misses a viewer whom the log still shows since its cutoff. */
  lemma OvertakenCountMisses(channel: string, ip: string)
    requires channel != "" && ip != ""
    ensures var minute := 60_000_000_000;
            var hit, overtaking, asked := Hit(channel, ip, 0), Count(channel, minute + 1, minute + 1), minute;
            && Ordered([hit, overtaking])
            && |Sweep(Bucket(Run([hit, overtaking]), channel), asked - minute)| == 0
            && |Watching([hit, overtaking], channel, asked - minute)| == 1
  {
    var hit, overtaking := Hit(channel, ip, 0), Count(channel, WINDOW + 1, WINDOW + 1);
    var steps := [hit, overtaking];
    assert steps[..1] == [hit] && [hit][..0] == [];
    assert Run([hit]) == Recorded(Run([]), channel, ip, 0);
    assert Run(steps) == Pruned(Run([hit]), channel, 1);
    assert Watching(steps, channel, 0) == {ip} by {
      assert hit in steps && Logged(hit, channel, 0);
    }
  }

  // ---------------------------------------------------------------- the manager's code

  class ViewerMap {
    var viewers: Buckets

    constructor ()
      ensures viewers == map[]
    {
      viewers := map[];
    }

    method RecordViewer(channelID: string, ip: string, now: int)
      modifies this
      ensures viewers == Recorded(old(viewers), channelID, ip, now)
    {
      if channelID == "" || ip == "" {
        return;
      }
      if channelID !in viewers {
        viewers := viewers[channelID := map[]];
      }
      viewers := viewers[channelID := viewers[channelID][ip := now]];
    }

    /** The loop over the bucket, which deletes as it goes. */
    static method DeleteOld(bucket: map<string, int>, cutoff: int) returns (left: map<string, int>)
      ensures left == Sweep(bucket, cutoff)
    {
      left := bucket;
      var todo := bucket.Keys;
      while todo != {}
        invariant todo <= bucket.Keys && left.Keys <= bucket.Keys
        invariant forall ip | ip in bucket :: ip in left <==> ip in todo || bucket[ip] >= cutoff
        invariant forall ip | ip in left :: left[ip] == bucket[ip]
      {
        var ip :| ip in todo;
        todo := todo - {ip};
        if bucket[ip] < cutoff {
          left := left - {ip};
        }
      }
    }

    method LiveViewers(channelID: string, asked: int) returns (live: nat)
      modifies this
      ensures live == |Sweep(Bucket(old(viewers), channelID), asked - 60_000_000_000)|
      ensures viewers == Pruned(old(viewers), channelID, asked - 60_000_000_000)
      ensures channelID in viewers <==> live > 0
    {
      var cutoff := asked - WINDOW;
      if channelID !in viewers {
        assert viewers - {channelID} == viewers;
        return 0;
      }
      var bucket := DeleteOld(viewers[channelID], cutoff);
      if |bucket| == 0 {
        assert bucket == map[];
        viewers := viewers - {channelID};
        return 0;
      }
      viewers := viewers[channelID := bucket];
      live := |bucket|;
      assert bucket != map[];
    }
  }
}

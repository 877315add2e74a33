/** Counters on their way from a node to the control plane: nodeagent/memstore.go, flushReports of
    nodeagent/agent.go and handleNodeReport of httpapi/nodes.go, over a link that loses batches. */
module Reports {
  import opened Text
  import opened MemStores
  import opened ControlPlane

  // ---------------------------------------------------------------- a batch

  /** The entries list the drained counters, each once, in some order. */
  ghost predicate Lists(entries: seq<MetricEntry>, metrics: map<MetricKey, int>) {
    && (forall i | 0 <= i < |entries| ::
          var key := MetricKey(entries[i].channel, entries[i].field);
          key in metrics && metrics[key] == entries[i].amount)
    && (forall key | key in metrics ::
          exists i :: 0 <= i < |entries| && entries[i] == MetricEntry(key.channel, key.field, metrics[key]))
    && (forall i, j | 0 <= i < j < |entries| ::
          entries[i].channel != entries[j].channel || entries[i].field != entries[j].field)
  }

  ghost predicate ListsStatuses(entries: seq<StatusEntry>, statuses: map<string, StatusReport>) {
    && (forall i | 0 <= i < |entries| ::
          entries[i].channel in statuses && entries[i] == EntryFor(statuses, entries[i].channel))
    && (forall id | id in statuses :: exists i :: 0 <= i < |entries| && entries[i].channel == id)
    && (forall i, j | 0 <= i < j < |entries| :: entries[i].channel != entries[j].channel)
  }

  function EntryFor(statuses: map<string, StatusReport>, id: string): StatusEntry
    requires id in statuses
  {
    StatusEntry(id, statuses[id].workerStatus, statuses[id].lastError, statuses[id].sourceStatus)
  }

  function Share(e: MetricEntry, key: MetricKey): int {
    if e.channel == key.channel && e.field == key.field then e.amount else 0
  }

  /** The amount that the entries carry for a counter. */
  function Sum(entries: seq<MetricEntry>, key: MetricKey): int {
    if entries == [] then 0 else Sum(entries[..|entries| - 1], key) + Share(entries[|entries| - 1], key)
  }

  const EVER: int -> bool := _ => true

  /** The part of it that reaches the table, in some of the windows. */
  function StoredSum(entries: seq<MetricEntry>, times: nat -> Option<int>, key: MetricKey, windows: int -> bool): int {
    if entries == [] then 0
    else
      var n := |entries| - 1;
      StoredSum(entries[..n], times, key, windows)
      + if Stored(entries[n], times(n)) && windows(times(n).value - times(n).value % 60)
        then Share(entries[n], key) else 0
  }

  predicate Carries(e: MetricEntry, key: MetricKey) {
    e.channel == key.channel && e.field == key.field
  }

  lemma {:induction false} SumOfDistinct(entries: seq<MetricEntry>, key: MetricKey)
    requires forall i, j | 0 <= i < j < |entries| ::
               entries[i].channel != entries[j].channel || entries[i].field != entries[j].field
    ensures forall i | 0 <= i < |entries| && Carries(entries[i], key) :: Sum(entries, key) == entries[i].amount
    ensures (forall i | 0 <= i < |entries| :: !Carries(entries[i], key)) ==> Sum(entries, key) == 0
  {
    if entries != [] {
      var n := |entries| - 1;
      SumOfDistinct(entries[..n], key);
      forall i | 0 <= i < |entries| && Carries(entries[i], key)
        ensures Sum(entries, key) == entries[i].amount
      {
        assert i < n ==> entries[..n][i] == entries[i];
      }
    }
  }

  /** Building the payload neither loses nor repeats a counter. */
  lemma PayloadIsComplete(entries: seq<MetricEntry>, metrics: map<MetricKey, int>, key: MetricKey)
    requires Lists(entries, metrics)
    ensures Sum(entries, key) == Amount(metrics, key)
  {
    SumOfDistinct(entries, key);
    if key in metrics {
      var i :| 0 <= i < |entries| && entries[i] == MetricEntry(key.channel, key.field, metrics[key]);
      assert Carries(entries[i], key);
    } else {
      forall i | 0 <= i < |entries|
        ensures !Carries(entries[i], key)
      {
        assert MetricKey(entries[i].channel, entries[i].field) in metrics;
      }
    }
  }

  lemma {:induction false} AppliedTotal(rows: seq<Row>, entries: seq<MetricEntry>, times: nat -> Option<int>,
                                        key: MetricKey, windows: int -> bool)
    ensures Total(ApplyMetrics(rows, entries, times), key.channel, windows, key.field)
            == Total(rows, key.channel, windows, key.field) + StoredSum(entries, times, key, windows)
    ensures Unique(rows) ==> Unique(ApplyMetrics(rows, entries, times))
  {
    if entries != [] {
      var n := |entries| - 1;
      var e, before := entries[n], ApplyMetrics(rows, entries[..n], times);
      AppliedTotal(rows, entries[..n], times, key, windows);
      if Stored(e, times(n)) {
        UpsertAdds(before, e.channel, Minute(times(n).value), e.field, e.amount, key.channel, windows, key.field);
        if Unique(rows) {
          UpsertKeepsUnique(before, e.channel, Minute(times(n).value), e.field, e.amount);
        }
      }
    }
  }

  // ---------------------------------------------------------------- runs

  /** A batch is applied at most once; the node never learns of some that are. */
  datatype Fate = InFlight | Lost | Handled(times: nat -> Option<int>)

  datatype Batch = Batch(entries: seq<MetricEntry>, fate: Fate)

  datatype System = System(metrics: map<MetricKey, int>, batches: seq<Batch>, rows: seq<Row>)

  datatype Step =
    | Increment(channel: string, field: string, amount: int)
    | Flush(entries: seq<MetricEntry>)
    | Settle(batch: nat, fate: Fate)

  const INITIAL := System(map[], [], [])

  predicate Open(s: System, batch: nat) {
    batch < |s.batches| && s.batches[batch].fate.InFlight?
  }

  ghost predicate Legal(s: System, step: Step) {
    match step
    case Increment(_, _, _) => true
    case Flush(entries) => Lists(entries, s.metrics)
    case Settle(batch, fate) => Open(s, batch) && !fate.InFlight?
  }

  function Apply(s: System, step: Step): System {
    match step
    case Increment(channel, field, amount) => s.(metrics := Incremented(s.metrics, channel, field, amount))
    case Flush(entries) => System(map[], s.batches + [Batch(entries, InFlight)], s.rows)
    case Settle(batch, fate) =>
      if !Open(s, batch) then s
      else
        var entries := s.batches[batch].entries;
        System(s.metrics, s.batches[batch := Batch(entries, fate)],
               if fate.Handled? then ApplyMetrics(s.rows, entries, fate.times) else s.rows)
  }

  function Run(steps: seq<Step>): System {
    if steps == [] then INITIAL else Apply(Run(steps[..|steps| - 1]), steps[|steps| - 1])
  }

  ghost predicate LegalRun(steps: seq<Step>) {
    steps == [] || (LegalRun(steps[..|steps| - 1]) && Legal(Run(steps[..|steps| - 1]), steps[|steps| - 1]))
  }

  /** All that the node's relay has ever counted under a key. */
  function Counted(steps: seq<Step>, key: MetricKey): int {
    if steps == [] then 0
    else
      var before, last := Counted(steps[..|steps| - 1], key), steps[|steps| - 1];
      if last.Increment? && key == MetricKey(last.channel, last.field) && last.channel != "" && last.field != ""
      then before + last.amount else before
  }

  // ---------------------------------------------------------------- where the amounts are

  datatype Place = Travelling | Dropped | InTable(windows: int -> bool)

  function BatchShare(b: Batch, key: MetricKey, place: Place): int {
    match place
    case Travelling => if b.fate.InFlight? then Sum(b.entries, key) else 0
    case InTable(windows) => if b.fate.Handled? then StoredSum(b.entries, b.fate.times, key, windows) else 0
    case Dropped =>
      if b.fate.Lost? then Sum(b.entries, key)
      else if b.fate.Handled? then Sum(b.entries, key) - StoredSum(b.entries, b.fate.times, key, EVER)
      else 0
  }

  function Held(batches: seq<Batch>, key: MetricKey, place: Place): int {
    if batches == [] then 0
    else Held(batches[..|batches| - 1], key, place) + BatchShare(batches[|batches| - 1], key, place)
  }

  lemma HeldSnoc(batches: seq<Batch>, b: Batch, key: MetricKey, place: Place)
    ensures Held(batches + [b], key, place) == Held(batches, key, place) + BatchShare(b, key, place)
  {
  }

  lemma {:induction false} HeldUpdate(batches: seq<Batch>, i: nat, b: Batch, key: MetricKey, place: Place)
    requires i < |batches|
    ensures Held(batches[i := b], key, place)
            == Held(batches, key, place) - BatchShare(batches[i], key, place) + BatchShare(b, key, place)
  {
    var n := |batches| - 1;
    if i == n {
      assert batches[i := b] == batches[..n] + [b];
      HeldSnoc(batches[..n], b, key, place);
    } else {
      HeldUpdate(batches[..n], i, b, key, place);
      assert batches[i := b] == batches[..n][i := b] + [batches[n]];
      HeldSnoc(batches[..n][i := b], batches[n], key, place);
    }
  }

  // ---------------------------------------------------------------- conservation

  ghost predicate Balanced(s: System, counted: int, key: MetricKey, windows: int -> bool) {
    && counted == Amount(s.metrics, key) + Held(s.batches, key, Travelling) + Held(s.batches, key, Dropped)
                  + Held(s.batches, key, InTable(EVER))
    && Total(s.rows, key.channel, windows, key.field) == Held(s.batches, key, InTable(windows))
    && Unique(s.rows)
  }

  lemma FlushBalances(s: System, entries: seq<MetricEntry>, counted: int, key: MetricKey, windows: int -> bool)
    requires Balanced(s, counted, key, windows) && Sum(entries, key) == Amount(s.metrics, key)
    ensures Balanced(System(map[], s.batches + [Batch(entries, InFlight)], s.rows), counted, key, windows)
  {
  }

  lemma SettleBalances(s: System, batch: nat, fate: Fate, counted: int, key: MetricKey, windows: int -> bool)
    requires Balanced(s, counted, key, windows) && Open(s, batch) && !fate.InFlight?
    ensures Balanced(Apply(s, Settle(batch, fate)), counted, key, windows)
  {
    var entries := s.batches[batch].entries;
    var b := Batch(entries, fate);
    HeldUpdate(s.batches, batch, b, key, Travelling);
    HeldUpdate(s.batches, batch, b, key, Dropped);
    HeldUpdate(s.batches, batch, b, key, InTable(EVER));
    HeldUpdate(s.batches, batch, b, key, InTable(windows));
    if fate.Handled? {
      AppliedTotal(s.rows, entries, fate.times, key, windows);
    }
  }

  /** In every run, each amount counted on the node is in exactly one place: still on the node, in a
      batch under way, in a batch or statement that failed, or in the control plane's table.  The
      table holds nothing else, and holds each amount in the minute in which it was stored: over any
      choice of windows it shows what was stored in their minutes. */
  lemma {:induction false} MetricsConserved(steps: seq<Step>, key: MetricKey, windows: int -> bool)
    requires LegalRun(steps)
    ensures var s := Run(steps);
            && Counted(steps, key)
               == Amount(s.metrics, key) + Held(s.batches, key, Travelling) + Held(s.batches, key, Dropped)
                  + Held(s.batches, key, InTable(EVER))
            && Total(s.rows, key.channel, windows, key.field) == Held(s.batches, key, InTable(windows))
            && Unique(s.rows)
  {
    if steps != [] {
      var before, step := steps[..|steps| - 1], steps[|steps| - 1];
      MetricsConserved(before, key, windows);
      match step
      case Increment(channel, field, amount) =>
        IncrementedAmount(Run(before).metrics, channel, field, amount, key);
      case Flush(entries) =>
        PayloadIsComplete(entries, Run(before).metrics, key);
        FlushBalances(Run(before), entries, Counted(before, key), key, windows);
      case Settle(batch, fate) => SettleBalances(Run(before), batch, fate, Counted(before, key), key, windows);
    }
  }

  // ---------------------------------------------------------------- delivery

  /** Every flushed batch was handled and every statement in it succeeded. */
  ghost predicate AllDelivered(s: System) {
    forall i | 0 <= i < |s.batches| ::
      s.batches[i].fate.Handled? && forall k: nat | k < |s.batches[i].entries| :: s.batches[i].fate.times(k).Some?
  }

  lemma {:induction false} FullyStored(entries: seq<MetricEntry>, times: nat -> Option<int>, key: MetricKey)
    requires Allowed(key.field) && key.channel != "" && key.field != ""
    requires forall k: nat | k < |entries| :: times(k).Some?
    ensures StoredSum(entries, times, key, EVER) == Sum(entries, key)
  {
    if entries != [] {
      FullyStored(entries[..|entries| - 1], times, key);
    }
  }

  lemma {:induction false} NothingElsewhere(batches: seq<Batch>, key: MetricKey)
    requires Allowed(key.field) && key.channel != "" && key.field != ""
    requires forall i | 0 <= i < |batches| ::
               batches[i].fate.Handled? && forall k: nat | k < |batches[i].entries| :: batches[i].fate.times(k).Some?
    ensures Held(batches, key, Travelling) == 0 && Held(batches, key, Dropped) == 0
  {
    if batches != [] {
      var n := |batches| - 1;
      assert forall i | 0 <= i < n :: batches[..n][i] == batches[i];
      NothingElsewhere(batches[..n], key);
      FullyStored(batches[n].entries, batches[n].fate.times, key);
    }
  }

  /** With nothing lost, the table and the node's pending counters add up to all that was counted. */
  lemma DeliveredTotalsMatch(steps: seq<Step>, key: MetricKey)
    requires LegalRun(steps) && AllDelivered(Run(steps)) && key.channel != ""
    requires key.field in {"playlist_requests", "segment_requests", "upstream_requests", "cache_hits",
                           "cache_misses", "bytes_sent", "bytes_upstream", "worker_errors"}
    ensures Total(Run(steps).rows, key.channel, EVER, key.field)
            == Counted(steps, key) - Amount(Run(steps).metrics, key)
  {
    MetricsConserved(steps, key, EVER);
    NothingElsewhere(Run(steps).batches, key);
  }

  lemma {:induction false} OtherFieldsAreNotHeld(batches: seq<Batch>, key: MetricKey, windows: int -> bool)
    requires !Allowed(key.field)
    ensures Held(batches, key, InTable(windows)) == 0
  {
    if batches != [] {
      var last := batches[|batches| - 1];
      OtherFieldsAreNotHeld(batches[..|batches| - 1], key, windows);
      if last.fate.Handled? {
        OtherFieldsAreNotStored(last.entries, last.fate.times, key, windows);
      }
    }
  }

  lemma {:induction false} OtherFieldsAreNotStored(entries: seq<MetricEntry>, times: nat -> Option<int>, key: MetricKey,
                                                   windows: int -> bool)
    requires !Allowed(key.field)
    ensures StoredSum(entries, times, key, windows) == 0
  {
    if entries != [] {
      OtherFieldsAreNotStored(entries[..|entries| - 1], times, key, windows);
    }
  }

  /** No other field ever reaches the table. */
  lemma OtherFieldsAreDropped(steps: seq<Step>, key: MetricKey, windows: int -> bool)
    requires LegalRun(steps)
    requires key.field !in {"playlist_requests", "segment_requests", "upstream_requests", "cache_hits",
                            "cache_misses", "bytes_sent", "bytes_upstream", "worker_errors"}
    ensures Total(Run(steps).rows, key.channel, windows, key.field) == 0
  {
    MetricsConserved(steps, key, windows);
    OtherFieldsAreNotHeld(Run(steps).batches, key, windows);
  }

  predicate OnlyCountsUp(steps: seq<Step>) {
    forall i | 0 <= i < |steps| :: steps[i].Increment? ==> steps[i].amount >= 0
  }

  ghost predicate NonNegative(s: System) {
    && (forall key | key in s.metrics :: s.metrics[key] >= 0)
    && (forall b, e | b in s.batches && e in b.entries :: e.amount >= 0)
  }

  lemma {:induction false} RunsAreNonNegative(steps: seq<Step>)
    requires LegalRun(steps) && OnlyCountsUp(steps)
    ensures NonNegative(Run(steps))
  {
    if steps != [] {
      var before, step := steps[..|steps| - 1], steps[|steps| - 1];
      assert forall i | 0 <= i < |before| :: before[i] == steps[i];
      RunsAreNonNegative(before);
      var s := Run(before);
      match step
      case Increment(_, _, _) =>
      case Flush(entries) =>
        forall e | e in entries
          ensures e.amount >= 0
        {
          var i :| 0 <= i < |entries| && entries[i] == e;
          assert MetricKey(entries[i].channel, entries[i].field) in s.metrics;
        }
      case Settle(batch, fate) =>
        assert s.batches[batch] in s.batches;
    }
  }

  lemma {:induction false} SumsAreNonNegative(entries: seq<MetricEntry>, times: nat -> Option<int>, key: MetricKey,
                                              windows: int -> bool)
    requires forall e | e in entries :: e.amount >= 0
    ensures 0 <= StoredSum(entries, times, key, windows) <= StoredSum(entries, times, key, EVER) <= Sum(entries, key)
  {
    if entries != [] {
      SumsAreNonNegative(entries[..|entries| - 1], times, key, windows);
      assert entries[|entries| - 1] in entries;
    }
  }

  lemma {:induction false} HeldIsNonNegative(batches: seq<Batch>, key: MetricKey, windows: int -> bool)
    requires forall b, e | b in batches && e in b.entries :: e.amount >= 0
    ensures Held(batches, key, Travelling) >= 0 && Held(batches, key, Dropped) >= 0
    ensures 0 <= Held(batches, key, InTable(windows)) <= Held(batches, key, InTable(EVER))
  {
    if batches != [] {
      var last := batches[|batches| - 1];
      HeldIsNonNegative(batches[..|batches| - 1], key, windows);
      assert last in batches;
      SumsAreNonNegative(last.entries, if last.fate.Handled? then last.fate.times else _ => None, key, windows);
    }
  }

  /** The control plane never shows more than the node counted, over any windows, whatever is lost,
      reordered or applied without the node's knowledge. */
  lemma NeverOvercounts(steps: seq<Step>, key: MetricKey, windows: int -> bool)
    requires LegalRun(steps) && OnlyCountsUp(steps)
    ensures 0 <= Total(Run(steps).rows, key.channel, windows, key.field) <= Counted(steps, key)
  {
    MetricsConserved(steps, key, windows);
    RunsAreNonNegative(steps);
    HeldIsNonNegative(Run(steps).batches, key, windows);
  }

  /** Store.Metrics shows exactly what was stored in the minutes that began less than an hour ago. */
  lemma HourIsShown(steps: seq<Step>, key: MetricKey, now: int)
    requires LegalRun(steps)
    ensures Shown(Run(steps).rows, key.channel, key.field, now)
            == Held(Run(steps).batches, key, InTable(window => now - window < 3_600))
  {
    MetricsConserved(steps, key, LastHour(now));
    SameWindows(Run(steps).batches, key, LastHour(now), window => now - window < 3_600);
  }

  lemma {:induction false} SameWindows(batches: seq<Batch>, key: MetricKey, a: int -> bool, b: int -> bool)
    requires forall window :: a(window) == b(window)
    ensures Held(batches, key, InTable(a)) == Held(batches, key, InTable(b))
  {
    if batches != [] {
      var last := batches[|batches| - 1];
      SameWindows(batches[..|batches| - 1], key, a, b);
      if last.fate.Handled? {
        SameStored(last.entries, last.fate.times, key, a, b);
      }
    }
  }

  lemma {:induction false} SameStored(entries: seq<MetricEntry>, times: nat -> Option<int>, key: MetricKey,
                                      a: int -> bool, b: int -> bool)
    requires forall window :: a(window) == b(window)
    ensures StoredSum(entries, times, key, a) == StoredSum(entries, times, key, b)
  {
    if entries != [] {
      SameStored(entries[..|entries| - 1], times, key, a, b);
    }
  }

  // ---------------------------------------------------------------- building a batch

  lemma ListsMore(entries: seq<MetricEntry>, m: map<MetricKey, int>, key: MetricKey, amount: int)
    requires Lists(entries, m) && key !in m
    ensures Lists(entries + [MetricEntry(key.channel, key.field, amount)], m[key := amount])
  {
    var e := MetricEntry(key.channel, key.field, amount);
    var longer := entries + [e];
    assert longer[|entries|] == e;
    assert forall i | 0 <= i < |entries| :: longer[i] == entries[i];
    forall k | k in m
      ensures exists i :: 0 <= i < |longer| && longer[i] == MetricEntry(k.channel, k.field, m[k])
    {
      var i :| 0 <= i < |entries| && entries[i] == MetricEntry(k.channel, k.field, m[k]);
      assert longer[i] == entries[i];
    }
    forall i | 0 <= i < |entries|
      ensures entries[i].channel != key.channel || entries[i].field != key.field
    {
      assert MetricKey(entries[i].channel, entries[i].field) in m;
    }
  }

  lemma ListsStatusMore(entries: seq<StatusEntry>, m: map<string, StatusReport>, id: string, rep: StatusReport)
    requires ListsStatuses(entries, m) && id !in m
    ensures ListsStatuses(entries + [StatusEntry(id, rep.workerStatus, rep.lastError, rep.sourceStatus)], m[id := rep])
  {
    var e := StatusEntry(id, rep.workerStatus, rep.lastError, rep.sourceStatus);
    var longer := entries + [e];
    assert longer[|entries|] == e;
    assert forall i | 0 <= i < |entries| :: longer[i] == entries[i];
    forall k | k in m
      ensures exists i :: 0 <= i < |longer| && longer[i].channel == k
    {
      var i :| 0 <= i < |entries| && entries[i].channel == k;
      assert longer[i].channel == k;
    }
  }

  method ListMetrics(metrics: map<MetricKey, int>) returns (entries: seq<MetricEntry>)
    ensures Lists(entries, metrics)
  {
    entries := [];
    var todo := metrics.Keys;
    ghost var done: map<MetricKey, int> := map[];
    while todo != {}
      invariant todo <= metrics.Keys && done.Keys == metrics.Keys - todo
      invariant forall key | key in done :: done[key] == metrics[key]
      invariant Lists(entries, done)
    {
      var key :| key in todo;
      todo := todo - {key};
      ListsMore(entries, done, key, metrics[key]);
      entries := entries + [MetricEntry(key.channel, key.field, metrics[key])];
      done := done[key := metrics[key]];
    }
    assert done == metrics;
  }

  method ListStatuses(statuses: map<string, StatusReport>) returns (entries: seq<StatusEntry>)
    ensures ListsStatuses(entries, statuses)
  {
    entries := [];
    var todo := statuses.Keys;
    ghost var done: map<string, StatusReport> := map[];
    while todo != {}
      invariant todo <= statuses.Keys && done.Keys == statuses.Keys - todo
      invariant forall id | id in done :: done[id] == statuses[id]
      invariant ListsStatuses(entries, done)
    {
      var id :| id in todo;
      todo := todo - {id};
      var rep := statuses[id];
      ListsStatusMore(entries, done, id, rep);
      entries := entries + [StatusEntry(id, rep.workerStatus, rep.lastError, rep.sourceStatus)];
      done := done[id := rep];
    }
    assert done == statuses;
  }

  /** flushReports up to the request: `send` is false when there is nothing to report. */
  method FlushReports(store: MemStore) returns (send: bool, statuses: seq<StatusEntry>, metrics: seq<MetricEntry>)
    requires store.Valid()
    modifies store
    ensures store.Valid() && store.statuses == map[] && store.metrics == map[]
    ensures send <==> old(store.statuses) != map[] || old(store.metrics) != map[]
    ensures Lists(metrics, old(store.metrics)) && ListsStatuses(statuses, old(store.statuses))
  {
    var reports, counters := store.DrainReports();
    send := reports != map[] || counters != map[];
    if !send {
      return send, [], [];
    }
    statuses := ListStatuses(reports);
    metrics := ListMetrics(counters);
  }
}

/** The control plane's side of a node report: handleNodeReport of httpapi/nodes.go and the table
    updates of store/store.go that it makes. */
module ControlPlane {
  import opened Text
  import opened MemStores

  // ---------------------------------------------------------------- channel_metrics

  /** A row of channel_metrics; (channel, window) is its unique index. */
  datatype Row = Row(channel: string, window: int, counts: map<string, int>)

  predicate Allowed(field: string) {
    field in {"playlist_requests", "segment_requests", "upstream_requests", "cache_hits",
              "cache_misses", "bytes_sent", "bytes_upstream", "worker_errors"}
  }

  function Count(row: Row, field: string): int {
    if field in row.counts then row.counts[field] else 0
  }

  /** insert … on conflict (channel_id, window_start) do update */
  function Upsert(rows: seq<Row>, channel: string, window: int, field: string, amount: int): seq<Row> {
    if rows == [] then [Row(channel, window, map[field := amount])]
    else if rows[0].channel == channel && rows[0].window == window then
      [rows[0].(counts := rows[0].counts[field := Count(rows[0], field) + amount])] + rows[1..]
    else [rows[0]] + Upsert(rows[1..], channel, window, field, amount)
  }

  /** time.Truncate to the minute; times are in seconds. */
  function Minute(at: int): int {
    at - at % 60
  }

  /** The counter of a channel over some of its windows. */
  function Total(rows: seq<Row>, channel: string, windows: int -> bool, field: string): int {
    if rows == [] then 0
    else
      (if rows[0].channel == channel && windows(rows[0].window) then Count(rows[0], field) else 0)
      + Total(rows[1..], channel, windows, field)
  }

  function LastHour(now: int): int -> bool {
    window => window > now - 3_600
  }

  /** A counter as Store.Metrics shows it. */
  function Shown(rows: seq<Row>, channel: string, field: string, now: int): int {
    Total(rows, channel, LastHour(now), field)
  }

  /** What is counted in a moment is shown for 59 minutes at least and for an hour at most. */
  lemma ShownForAnHour(at: int, now: int)
    requires at <= now
    ensures now - at <= 59 * 60 ==> LastHour(now)(Minute(at))
    ensures LastHour(now)(Minute(at)) ==> now - at < 60 * 60
  {
  }

  ghost predicate Unique(rows: seq<Row>) {
    forall i, j | 0 <= i < j < |rows| :: rows[i].channel != rows[j].channel || rows[i].window != rows[j].window
  }

  /** An upsert adds its amount to its own counter in its own window, and to no other. */
  lemma {:induction false} UpsertAdds(rows: seq<Row>, channel: string, window: int, field: string, amount: int,
                                      channel': string, windows: int -> bool, field': string)
    ensures Total(Upsert(rows, channel, window, field, amount), channel', windows, field')
            == Total(rows, channel', windows, field')
               + if channel == channel' && field == field' && windows(window) then amount else 0
  {
    if rows == [] {
    } else if rows[0].channel == channel && rows[0].window == window {
      assert Upsert(rows, channel, window, field, amount)[1..] == rows[1..];
    } else {
      UpsertAdds(rows[1..], channel, window, field, amount, channel', windows, field');
      assert Upsert(rows, channel, window, field, amount)[1..] == Upsert(rows[1..], channel, window, field, amount);
    }
  }

  predicate Indexed(row: Row, channel: string, window: int) {
    row.channel == channel && row.window == window
  }

  /** An upsert keeps the index unique. */
  lemma {:induction false} UpsertKeepsUnique(rows: seq<Row>, channel: string, window: int, field: string, amount: int)
    requires Unique(rows)
    ensures Unique(Upsert(rows, channel, window, field, amount))
    ensures forall i | 0 <= i < |Upsert(rows, channel, window, field, amount)| ::
              var r := Upsert(rows, channel, window, field, amount)[i];
              Indexed(r, channel, window) || exists j :: 0 <= j < |rows| && Indexed(rows[j], r.channel, r.window)
  {
    var after := Upsert(rows, channel, window, field, amount);
    if rows == [] {
    } else if Indexed(rows[0], channel, window) {
      forall i | 0 <= i < |after|
        ensures Indexed(rows[i], after[i].channel, after[i].window)
      {
      }
    } else {
      var rest := Upsert(rows[1..], channel, window, field, amount);
      UpsertKeepsUnique(rows[1..], channel, window, field, amount);
      assert Indexed(rows[0], rows[0].channel, rows[0].window);
      forall i | 0 <= i < |rest|
        ensures !Indexed(rest[i], rows[0].channel, rows[0].window)
        ensures Indexed(rest[i], channel, window)
                || exists j :: 0 <= j < |rows| && Indexed(rows[j], rest[i].channel, rest[i].window)
      {
        if !Indexed(rest[i], channel, window) {
          var j :| 0 <= j < |rows| - 1 && Indexed(rows[1..][j], rest[i].channel, rest[i].window);
          assert rows[1..][j] == rows[j + 1];
        }
      }
    }
  }

  // ---------------------------------------------------------------- channels

  /** The columns of channels that reports change. */
  datatype ChannelRow =
    ChannelRow(workerStatus: string, status: string, lastSourceStatus: Option<int>, lastError: Option<string>)

  function WithWorker(row: ChannelRow, workerStatus: string, lastError: Option<string>): ChannelRow {
    row.(workerStatus := workerStatus, lastError := lastError)
  }

  function WithSource(row: ChannelRow, statusCode: int, errMessage: Option<string>): ChannelRow {
    row.(status := if errMessage.Some? then "source_error" else "active",
         lastSourceStatus := Some(statusCode),
         lastError := errMessage)
  }

  // ---------------------------------------------------------------- reports

  datatype StatusEntry =
    StatusEntry(channel: string, workerStatus: string, lastError: Option<string>, sourceStatus: Option<int>)

  datatype MetricEntry = MetricEntry(channel: string, field: string, amount: int)

  /** What becomes of the statements for one entry: an update that fails is ignored; a counter's
      statement that succeeds does so at some time. */
  datatype Updates = Updates(worker: bool, source: bool)

  function ApplyStatus(channels: map<string, ChannelRow>, e: StatusEntry, u: Updates): map<string, ChannelRow> {
    if e.channel == "" || e.channel !in channels then channels
    else
      var row := channels[e.channel];
      var row' := if e.workerStatus != "" && u.worker then WithWorker(row, e.workerStatus, e.lastError) else row;
      channels[e.channel :=
        if e.sourceStatus.Some? && u.source then WithSource(row', e.sourceStatus.value, e.lastError) else row']
  }

  /** The two updates of an entry do not depend on one another's success, and change no other row. */
  lemma UpdatesAreIndependent(channels: map<string, ChannelRow>, e: StatusEntry, u: Updates)
    requires e.channel != "" && e.channel in channels
    ensures var after, row := ApplyStatus(channels, e, u), channels[e.channel];
            var worker, source := e.workerStatus != "" && u.worker, e.sourceStatus.Some? && u.source;
            && after.Keys == channels.Keys
            && (forall id | id in channels && id != e.channel :: after[id] == channels[id])
            && after[e.channel].workerStatus == (if worker then e.workerStatus else row.workerStatus)
            && after[e.channel].lastSourceStatus == (if source then e.sourceStatus else row.lastSourceStatus)
            && after[e.channel].status == (if !source then row.status
                                           else if e.lastError.Some? then "source_error" else "active")
            && after[e.channel].lastError == (if worker || source then e.lastError else row.lastError)
  {
  }

  function ApplyStatuses(channels: map<string, ChannelRow>, entries: seq<StatusEntry>, updates: nat -> Updates)
    : map<string, ChannelRow>
  {
    if entries == [] then channels
    else
      var n := |entries| - 1;
      ApplyStatus(ApplyStatuses(channels, entries[..n], updates), entries[n], updates(n))
  }

  predicate Stored(e: MetricEntry, at: Option<int>) {
    Counts(e.channel, e.field, e.amount) && Allowed(e.field) && at.Some?
  }

  function ApplyMetric(rows: seq<Row>, e: MetricEntry, at: Option<int>): seq<Row> {
    if Stored(e, at) then Upsert(rows, e.channel, Minute(at.value), e.field, e.amount) else rows
  }

  function ApplyMetrics(rows: seq<Row>, entries: seq<MetricEntry>, times: nat -> Option<int>): seq<Row> {
    if entries == [] then rows
    else
      var n := |entries| - 1;
      ApplyMetric(ApplyMetrics(rows, entries[..n], times), entries[n], times(n))
  }

  class Store {
    var channels: map<string, ChannelRow>
    var rows: seq<Row>

    constructor (channels: map<string, ChannelRow>)
      ensures this.channels == channels && rows == []
    {
      this.channels := channels;
      rows := [];
    }

    method SetWorkerStatus(id: string, workerStatus: string, lastError: Option<string>, ok: bool)
      modifies this`channels
      ensures channels == if ok && id in old(channels)
                          then old(channels)[id := WithWorker(old(channels)[id], workerStatus, lastError)]
                          else old(channels)
    {
      if ok && id in channels {
        channels := channels[id := channels[id].(workerStatus := workerStatus, lastError := lastError)];
      }
    }

    method SetSourceStatus(id: string, statusCode: int, errMessage: Option<string>, ok: bool)
      modifies this`channels
      ensures channels == if ok && id in old(channels)
                          then old(channels)[id := WithSource(old(channels)[id], statusCode, errMessage)]
                          else old(channels)
    {
      var status := "active";
      if errMessage.Some? {
        status := "source_error";
      }
      if ok && id in channels {
        channels := channels[id := channels[id].(status := status, lastSourceStatus := Some(statusCode),
          lastError := errMessage)];
      }
    }

    method IncrementMetric(channelID: string, field: string, amount: int, at: Option<int>)
      modifies this`rows
      ensures rows == if at.Some?
                         && field in {"playlist_requests", "segment_requests", "upstream_requests", "cache_hits",
                                      "cache_misses", "bytes_sent", "bytes_upstream", "worker_errors"}
                      then Upsert(old(rows), channelID, at.value - at.value % 60, field, amount) else old(rows)
    {
      if !Allowed(field) {
        return;
      }
      if at.Some? {
        rows := Upsert(rows, channelID, Minute(at.value), field, amount);
      }
    }

    method ApplyOneStatus(st: StatusEntry, u: Updates)
      modifies this`channels
      ensures channels == ApplyStatus(old(channels), st, u)
    {
      if st.channel == "" {
        return;
      }
      if st.workerStatus != "" {
        SetWorkerStatus(st.channel, st.workerStatus, st.lastError, u.worker);
      }
      if st.sourceStatus.Some? {
        SetSourceStatus(st.channel, st.sourceStatus.value, st.lastError, u.source);
      }
      assert st.channel in old(channels) ==> channels == old(channels)[st.channel := channels[st.channel]];
    }

    method ApplyOneMetric(m: MetricEntry, at: Option<int>)
      modifies this`rows
      ensures rows == ApplyMetric(old(rows), m, at)
    {
      if m.channel == "" || m.field == "" || m.amount == 0 {
        return;
      }
      IncrementMetric(m.channel, m.field, m.amount, at);
    }

    /** handleNodeReport after authentication and decoding. */
    method HandleNodeReport(statuses: seq<StatusEntry>, metrics: seq<MetricEntry>,
                            updates: nat -> Updates, times: nat -> Option<int>)
      modifies this
      ensures channels == ApplyStatuses(old(channels), statuses, updates)
      ensures rows == ApplyMetrics(old(rows), metrics, times)
    {
      for i := 0 to |statuses|
        invariant channels == ApplyStatuses(old(channels), statuses[..i], updates) && rows == old(rows)
      {
        assert statuses[..i + 1][..i] == statuses[..i];
        ApplyOneStatus(statuses[i], updates(i));
      }
      assert statuses[..|statuses|] == statuses;
      for i := 0 to |metrics|
        invariant rows == ApplyMetrics(old(rows), metrics[..i], times)
        invariant channels == ApplyStatuses(old(channels), statuses, updates)
      {
        assert metrics[..i + 1][..i] == metrics[..i];
        ApplyOneMetric(metrics[i], times(i));
      }
      assert metrics[..|metrics|] == metrics;
    }
  }
}

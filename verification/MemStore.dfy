/** The node's in-memory channel store: nodeagent/memstore.go. */
module MemStores {
  import opened Text
  import opened Channels

  datatype StatusReport =
    StatusReport(workerStatus: string, lastError: Option<string>, sourceStatus: Option<int>, dirty: bool)

  /** Go's zero value. */
  const BLANK := StatusReport("", None, None, false)

  datatype MetricKey = MetricKey(channel: string, field: string)

  // ---------------------------------------------------------------- assignments

  /** The last channel of the list wins its key. */
  function ById(channels: seq<Channel>): map<string, Channel> {
    if channels == [] then map[]
    else var last := channels[|channels| - 1]; ById(channels[..|channels| - 1])[last.id := last]
  }

  function BySlug(channels: seq<Channel>): map<string, Channel> {
    if channels == [] then map[]
    else var last := channels[|channels| - 1]; BySlug(channels[..|channels| - 1])[last.slug := last]
  }

  /** Channel i is the last one of the list with this key. */
  ghost predicate LastWith(channels: seq<Channel>, key: Channel -> string, k: string, i: int) {
    0 <= i < |channels| && key(channels[i]) == k && forall j | i < j < |channels| :: key(channels[j]) != k
  }

  ghost predicate Listed(channels: seq<Channel>, key: Channel -> string, k: string) {
    exists i :: LastWith(channels, key, k, i)
  }

  /** The map holds exactly the keys of the list, and under each the last channel with that key. */
  ghost predicate Keyed(m: map<string, Channel>, channels: seq<Channel>, key: Channel -> string) {
    && (forall k :: k in m <==> Listed(channels, key, k))
    && (forall k, i | LastWith(channels, key, k, i) && k in m :: m[k] == channels[i])
  }

  lemma KeyedSnoc(m: map<string, Channel>, before: seq<Channel>, key: Channel -> string, last: Channel)
    requires Keyed(m, before, key)
    ensures Keyed(m[key(last) := last], before + [last], key)
  {
    var channels := before + [last];
    forall k, i
      ensures LastWith(channels, key, k, i)
              <==> if k == key(last) then i == |before| else LastWith(before, key, k, i)
    {
      assert forall j | 0 <= j < |before| :: channels[j] == before[j];
      assert channels[|before|] == last;
    }
    forall k
      ensures Listed(channels, key, k) <==> k == key(last) || Listed(before, key, k)
    {
      assert LastWith(channels, key, key(last), |before|);
      if i :| LastWith(before, key, k, i) && k != key(last) {
        assert LastWith(channels, key, k, i);
      }
    }
  }

  lemma {:induction false} ByIdIsKeyed(channels: seq<Channel>)
    ensures Keyed(ById(channels), channels, (c: Channel) => c.id)
    ensures forall id | id in ById(channels) :: ById(channels)[id].id == id
  {
    if channels != [] {
      var n := |channels| - 1;
      ByIdIsKeyed(channels[..n]);
      KeyedSnoc(ById(channels[..n]), channels[..n], (c: Channel) => c.id, channels[n]);
      assert channels[..n] + [channels[n]] == channels;
    }
  }

  lemma {:induction false} BySlugIsKeyed(channels: seq<Channel>)
    ensures Keyed(BySlug(channels), channels, (c: Channel) => c.slug)
  {
    if channels != [] {
      var n := |channels| - 1;
      BySlugIsKeyed(channels[..n]);
      KeyedSnoc(BySlug(channels[..n]), channels[..n], (c: Channel) => c.slug, channels[n]);
      assert channels[..n] + [channels[n]] == channels;
    }
  }

  /** The list holds the map's channels with these keys, each once, in some order. */
  ghost predicate Enumerates(list: seq<Channel>, m: map<string, Channel>, keys: set<string>) {
    && (forall i | 0 <= i < |list| :: list[i].id in keys && list[i].id in m && m[list[i].id] == list[i])
    && (forall k | k in keys :: exists i :: 0 <= i < |list| && list[i].id == k)
    && (forall i, j | 0 <= i < j < |list| :: list[i].id != list[j].id)
  }

  lemma EnumeratesMore(list: seq<Channel>, m: map<string, Channel>, keys: set<string>, id: string)
    requires Enumerates(list, m, keys) && id !in keys && id in m && m[id].id == id
    ensures Enumerates(list + [m[id]], m, keys + {id})
  {
    var longer := list + [m[id]];
    forall k | k in keys + {id}
      ensures exists i :: 0 <= i < |longer| && longer[i].id == k
    {
      if k == id {
        assert longer[|list|].id == k;
      } else {
        var i :| 0 <= i < |list| && list[i].id == k;
        assert longer[i].id == k;
      }
    }
  }

  method Absent(these: map<string, Channel>, others: map<string, Channel>) returns (list: seq<Channel>)
    requires forall id | id in these :: these[id].id == id
    ensures Enumerates(list, these, these.Keys - others.Keys)
  {
    list := [];
    var todo := these.Keys;
    while todo != {}
      invariant todo <= these.Keys
      invariant Enumerates(list, these, these.Keys - others.Keys - todo)
    {
      var id :| id in todo;
      ghost var listed := these.Keys - others.Keys - todo;
      todo := todo - {id};
      if id !in others {
        EnumeratesMore(list, these, listed, id);
        list := list + [these[id]];
        assert these.Keys - others.Keys - todo == listed + {id};
      } else {
        assert these.Keys - others.Keys - todo == listed;
      }
    }
    assert these.Keys - others.Keys - {} == these.Keys - others.Keys;
  }

  // ---------------------------------------------------------------- reports

  function Report(statuses: map<string, StatusReport>, id: string): StatusReport {
    if id in statuses then statuses[id] else BLANK
  }

  function WithWorkerStatus(rep: StatusReport, workerStatus: string, lastError: Option<string>): StatusReport {
    StatusReport(workerStatus, lastError, rep.sourceStatus, true)
  }

  function WithSourceStatus(rep: StatusReport, statusCode: int, errMessage: Option<string>): StatusReport {
    StatusReport(rep.workerStatus, if errMessage.Some? then errMessage else rep.lastError, Some(statusCode), true)
  }

  function Amount(metrics: map<MetricKey, int>, key: MetricKey): int {
    if key in metrics then metrics[key] else 0
  }

  predicate Counts(channel: string, field: string, amount: int) {
    channel != "" && field != "" && amount != 0
  }

  function Incremented(metrics: map<MetricKey, int>, channel: string, field: string, amount: int): map<MetricKey, int> {
    if Counts(channel, field, amount)
    then metrics[MetricKey(channel, field) := Amount(metrics, MetricKey(channel, field)) + amount]
    else metrics
  }

  /** A count adds to its own counter, unless it names no channel or no field, and to no other. */
  lemma IncrementedAmount(metrics: map<MetricKey, int>, channel: string, field: string, amount: int, key: MetricKey)
    ensures Amount(Incremented(metrics, channel, field, amount), key)
            == Amount(metrics, key)
               + if key == MetricKey(channel, field) && channel != "" && field != "" then amount else 0
  {
  }

  class MemStore {
    var bySlug: map<string, Channel>
    var byID: map<string, Channel>
    var statuses: map<string, StatusReport>
    var metrics: map<MetricKey, int>

    ghost predicate Valid()
      reads this
    {
      && (forall id | id in byID :: byID[id].id == id)
      && (forall id | id in statuses :: statuses[id].dirty)
    }

    constructor ()
      ensures Valid() && bySlug == map[] && byID == map[] && statuses == map[] && metrics == map[]
    {
      bySlug, byID, statuses, metrics := map[], map[], map[], map[];
    }

    method Replace(channels: seq<Channel>) returns (added: seq<Channel>, removed: seq<Channel>)
      requires Valid()
      modifies this`byID, this`bySlug
      ensures Valid() && byID == ById(channels) && bySlug == BySlug(channels)
      ensures Keyed(byID, channels, (c: Channel) => c.id) && Keyed(bySlug, channels, (c: Channel) => c.slug)
      ensures Enumerates(added, byID, byID.Keys - old(byID).Keys)
      ensures Enumerates(removed, old(byID), old(byID).Keys - byID.Keys)
    {
      var next: map<string, Channel> := map[];
      var nextBySlug: map<string, Channel> := map[];
      for i := 0 to |channels|
        invariant next == ById(channels[..i]) && nextBySlug == BySlug(channels[..i])
      {
        assert channels[..i + 1][..i] == channels[..i];
        next := next[channels[i].id := channels[i]];
        nextBySlug := nextBySlug[channels[i].slug := channels[i]];
      }
      assert channels[..|channels|] == channels;
      ByIdIsKeyed(channels);
      BySlugIsKeyed(channels);
      added := Absent(next, byID);
      removed := Absent(byID, next);
      byID := next;
      bySlug := nextBySlug;
    }

    method SetWorkerStatus(id: string, workerStatus: string, lastError: Option<string>)
      requires Valid()
      modifies this`statuses
      ensures Valid()
      ensures statuses == old(statuses)[id := WithWorkerStatus(Report(old(statuses), id), workerStatus, lastError)]
    {
      var rep := if id in statuses then statuses[id] else BLANK;
      rep := rep.(workerStatus := workerStatus);
      rep := rep.(lastError := lastError);
      rep := rep.(dirty := true);
      statuses := statuses[id := rep];
    }

    method SetSourceStatus(id: string, statusCode: int, errMessage: Option<string>)
      requires Valid()
      modifies this`statuses
      ensures Valid()
      ensures statuses == old(statuses)[id := WithSourceStatus(Report(old(statuses), id), statusCode, errMessage)]
    {
      var rep := if id in statuses then statuses[id] else BLANK;
      rep := rep.(sourceStatus := Some(statusCode));
      if errMessage.Some? {
        rep := rep.(lastError := errMessage);
      }
      rep := rep.(dirty := true);
      statuses := statuses[id := rep];
    }

    method IncrementMetric(channelID: string, field: string, amount: int)
      requires Valid()
      modifies this`metrics
      ensures Valid() && metrics == Incremented(old(metrics), channelID, field, amount)
    {
      if channelID == "" || field == "" || amount == 0 {
        return;
      }
      var key := MetricKey(channelID, field);
      metrics := metrics[key := (if key in metrics then metrics[key] else 0) + amount];
    }

    /** Every queued report is dirty, so nothing is left behind. */
    method DrainReports() returns (drained: map<string, StatusReport>, counters: map<MetricKey, int>)
      requires Valid()
      modifies this`statuses, this`metrics
      ensures Valid() && statuses == map[] && metrics == map[]
      ensures drained == old(statuses) && counters == old(metrics)
    {
      drained := map[];
      var todo := statuses.Keys;
      while todo != {}
        invariant todo <= statuses.Keys && statuses == old(statuses)
        invariant drained.Keys == statuses.Keys - todo
        invariant forall id | id in drained :: drained[id] == statuses[id]
      {
        var id :| id in todo;
        todo := todo - {id};
        if statuses[id].dirty {
          drained := drained[id := statuses[id]];
        }
      }
      statuses := map[];
      counters := metrics;
      metrics := map[];
    }
  }
}

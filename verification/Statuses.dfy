/** Channel statuses on their way from a node to the control plane, merged per channel between two
    flushes, compared with writing each one to the table at once. */
module Statuses {
  import opened Text
  import opened MemStores
  import opened ControlPlane
  import opened Reports

  /** A call of SetWorkerStatus or SetSourceStatus. */
  datatype Change = Worker(status: string, error: Option<string>) | Source(code: int, error: Option<string>)

  /** The node's way: merge into the queued report. */
  function Merge(rep: StatusReport, change: Change): StatusReport {
    match change
    case Worker(status, error) => WithWorkerStatus(rep, status, error)
    case Source(code, error) => WithSourceStatus(rep, code, error)
  }

  function Merged(sets: seq<Change>): StatusReport {
    if sets == [] then BLANK else Merge(Merged(sets[..|sets| - 1]), sets[|sets| - 1])
  }

  /** The control plane's own way: update the row. */
  function Write(row: ChannelRow, change: Change): ChannelRow {
    match change
    case Worker(status, error) => WithWorker(row, status, error)
    case Source(code, error) => WithSource(row, code, error)
  }

  function Written(row: ChannelRow, sets: seq<Change>): ChannelRow {
    if sets == [] then row else Write(Written(row, sets[..|sets| - 1]), sets[|sets| - 1])
  }

  lemma {:induction false} WrittenConcat(row: ChannelRow, a: seq<Change>, b: seq<Change>)
    ensures Written(row, a + b) == Written(Written(row, a), b)
  {
    if b == [] {
      assert a + b == a;
    } else {
      assert (a + b)[..|a + b| - 1] == a + b[..|b| - 1];
      WrittenConcat(row, a, b[..|b| - 1]);
    }
  }

  /** handleNodeReport applied to one merged report. */
  function AfterBatch(row: ChannelRow, rep: StatusReport): ChannelRow {
    var row' := if rep.workerStatus != "" then WithWorker(row, rep.workerStatus, rep.lastError) else row;
    if rep.sourceStatus.Some? then WithSource(row', rep.sourceStatus.value, rep.lastError) else row'
  }

  predicate Named(sets: seq<Change>) {
    forall i | 0 <= i < |sets| :: sets[i].Worker? ==> sets[i].status != ""
  }

  predicate HasSource(sets: seq<Change>) {
    exists i | 0 <= i < |sets| :: sets[i].Source?
  }

  /** The error that came with the last source status. */
  function SourceError(sets: seq<Change>): Option<string> {
    if sets == [] then None
    else if sets[|sets| - 1].Source? then sets[|sets| - 1].error
    else SourceError(sets[..|sets| - 1])
  }

  lemma HasSourceSnoc(sets: seq<Change>)
    requires sets != []
    ensures HasSource(sets) <==> HasSource(sets[..|sets| - 1]) || sets[|sets| - 1].Source?
  {
  }

  /** What merging keeps and what it forgets. */
  lemma {:induction false} MergedColumns(sets: seq<Change>, row: ChannelRow)
    requires Named(sets)
    ensures var rep, direct := Merged(sets), Written(row, sets);
            && direct.workerStatus == (if rep.workerStatus != "" then rep.workerStatus else row.workerStatus)
            && direct.lastSourceStatus == (if rep.sourceStatus.Some? then rep.sourceStatus else row.lastSourceStatus)
            && (rep.sourceStatus.Some? <==> HasSource(sets))
            && (sets != [] ==> rep.workerStatus != "" || rep.sourceStatus.Some?)
            && direct.status == (if !HasSource(sets) then row.status
                                 else if SourceError(sets).Some? then "source_error" else "active")
            && (sets != [] ==> direct.lastError == sets[|sets| - 1].error)
            && (sets != [] && (sets[|sets| - 1].Worker? || sets[|sets| - 1].error.Some?) ==>
                  rep.lastError == sets[|sets| - 1].error)
  {
    if sets != [] {
      MergedColumns(sets[..|sets| - 1], row);
      HasSourceSnoc(sets);
    }
  }

  /** One merged report leaves the worker status and the source status code as the separate writes
      would have left them. */
  lemma BatchKeepsStatuses(row: ChannelRow, sets: seq<Change>)
    requires Named(sets)
    ensures AfterBatch(row, Merged(sets)).workerStatus == Written(row, sets).workerStatus
    ensures AfterBatch(row, Merged(sets)).lastSourceStatus == Written(row, sets).lastSourceStatus
  {
  }

  /** The error of the last write that says anything about it: a worker status, with or without an
      error, or a source status with one. */
  function StandingError(sets: seq<Change>): Option<string> {
    if sets == [] then None
    else
      var last := sets[|sets| - 1];
      if last.Worker? || last.error.Some? then last.error else StandingError(sets[..|sets| - 1])
  }

  lemma {:induction false} MergedError(sets: seq<Change>)
    ensures Merged(sets).lastError == StandingError(sets)
  {
    if sets != [] {
      MergedError(sets[..|sets| - 1]);
    }
  }

  /** There is an error standing exactly when the last source status came with one. */
  predicate Faithful(sets: seq<Change>) {
    HasSource(sets) ==> (StandingError(sets).Some? <==> SourceError(sets).Some?)
  }

  /** The whole row comes out right exactly for the faithful batches. */
  lemma BatchAgrees(row: ChannelRow, sets: seq<Change>)
    requires Named(sets)
    ensures AfterBatch(row, Merged(sets)) == Written(row, sets) <==> Faithful(sets)
  {
    MergedColumns(sets, row);
    MergedError(sets);
    var rep, direct := Merged(sets), Written(row, sets);
    if sets != [] && HasSource(sets) {
      assert "source_error" != "active" by {
        assert "source_error"[0] != "active"[0];
      }
      assert AfterBatch(row, rep).status == if rep.lastError.Some? then "source_error" else "active";
      assert AfterBatch(row, rep).lastError == rep.lastError;
      if Faithful(sets) {
        assert sets[|sets| - 1].Source? ==> SourceError(sets) == sets[|sets| - 1].error;
        assert direct.lastError == rep.lastError;
      }
    } else if sets != [] {
      NoSourceMeansWorker(sets);
    }
  }

  lemma NoSourceMeansWorker(sets: seq<Change>)
    requires sets != [] && !HasSource(sets)
    ensures sets[|sets| - 1].Worker?
  {
  }

  /** A fetch that fails and one that succeeds between the same two flushes leave the channel in
      error on the control plane. */
  lemma RecoveryIsHidden(row: ChannelRow, error: string)
    ensures var sets := [Source(0, Some(error)), Source(200, None)];
            && Written(row, sets).status == "active" && Written(row, sets).lastError == None
            && AfterBatch(row, Merged(sets)).status == "source_error"
            && AfterBatch(row, Merged(sets)).lastError == Some(error)
  {
  }

  // ---------------------------------------------------------------- runs

  /** A write on the node, a flush whose batch is applied, or a flush whose batch is lost. */
  datatype Step = Put(id: string, entry: Change) | Deliver(entries: seq<StatusEntry>) | Lose

  datatype Board = Board(statuses: map<string, StatusReport>, channels: map<string, ChannelRow>)

  const EVERY_UPDATE: nat -> Updates := _ => Updates(true, true)

  function Apply(s: Board, step: Step): Board {
    match step
    case Put(id, entry) => s.(statuses := s.statuses[id := Merge(Report(s.statuses, id), entry)])
    case Deliver(entries) => Board(map[], ApplyStatuses(s.channels, entries, EVERY_UPDATE))
    case Lose => Board(map[], s.channels)
  }

  function Run(channels: map<string, ChannelRow>, steps: seq<Step>): Board {
    if steps == [] then Board(map[], channels) else Apply(Run(channels, steps[..|steps| - 1]), steps[|steps| - 1])
  }

  ghost predicate LegalRun(channels: map<string, ChannelRow>, steps: seq<Step>) {
    steps == [] ||
    (var before, last := steps[..|steps| - 1], steps[|steps| - 1];
     LegalRun(channels, before)
     && match last
        case Put(_, entry) => Named([entry])
        case Deliver(entries) => ListsStatuses(entries, Run(channels, before).statuses)
        case Lose => true)
  }

  /** The writes to a channel since the last flush. */
  function Queued(steps: seq<Step>, id: string): seq<Change> {
    if steps == [] then []
    else
      var before, last := Queued(steps[..|steps| - 1], id), steps[|steps| - 1];
      if !last.Put? then [] else if last.id == id then before + [last.entry] else before
  }

  /** The writes to a channel in the batches that were applied. */
  function Flushed(steps: seq<Step>, id: string): seq<Change> {
    if steps == [] then []
    else
      var before, last := Flushed(steps[..|steps| - 1], id), steps[|steps| - 1];
      if last.Deliver? then before + Queued(steps[..|steps| - 1], id) else before
  }

  /** The last applied batch with a source status was faithful. */
  predicate StatusRight(steps: seq<Step>, id: string) {
    if steps == [] then true
    else
      var before, last := steps[..|steps| - 1], steps[|steps| - 1];
      if last.Deliver? && HasSource(Queued(before, id)) then Faithful(Queued(before, id)) else StatusRight(before, id)
  }

  /** In the last applied batch of the channel the error left standing was that of the last write. */
  predicate ErrorRight(steps: seq<Step>, id: string) {
    if steps == [] then true
    else
      var before, last := steps[..|steps| - 1], steps[|steps| - 1];
      var sets := Queued(before, id);
      if last.Deliver? && sets != [] then StandingError(sets) == sets[|sets| - 1].error else ErrorRight(before, id)
  }

  lemma {:induction false} AppliedRow(channels: map<string, ChannelRow>, entries: seq<StatusEntry>, id: string)
    requires id != "" && id in channels
    requires forall i, j | 0 <= i < j < |entries| :: entries[i].channel != entries[j].channel
    ensures var after := ApplyStatuses(channels, entries, EVERY_UPDATE);
            && id in after
            && (forall i | 0 <= i < |entries| && entries[i].channel == id ::
                  var e := entries[i];
                  after[id] == AfterBatch(channels[id],
                    StatusReport(e.workerStatus, e.lastError, e.sourceStatus, true)))
            && ((forall i | 0 <= i < |entries| :: entries[i].channel != id) ==> after[id] == channels[id])
  {
    if entries != [] {
      var n := |entries| - 1;
      AppliedRow(channels, entries[..n], id);
      var before, after := ApplyStatuses(channels, entries[..n], EVERY_UPDATE),
        ApplyStatuses(channels, entries, EVERY_UPDATE);
      if entries[n].channel == id {
        forall i | 0 <= i < n
          ensures entries[..n][i].channel != id
        {
          assert entries[i].channel != entries[n].channel;
        }
      } else {
        assert after[id] == before[id];
        forall i | 0 <= i < |entries| && entries[i].channel == id
          ensures i < n && entries[..n][i] == entries[i]
        {
        }
      }
    }
  }

  lemma DeliveredRow(s: Board, entries: seq<StatusEntry>, id: string, sets: seq<Change>)
    requires id != "" && id in s.channels && ListsStatuses(entries, s.statuses)
    requires id in s.statuses <==> sets != []
    requires Report(s.statuses, id) == Merged(sets)
    ensures id in Apply(s, Deliver(entries)).channels
    ensures Apply(s, Deliver(entries)).channels[id] == AfterBatch(s.channels[id], Merged(sets))
  {
    AppliedRow(s.channels, entries, id);
    if id in s.statuses {
      var i :| 0 <= i < |entries| && entries[i].channel == id;
      assert entries[i] == EntryFor(s.statuses, id);
    }
  }

  lemma {:induction false} NamedConcat(steps: seq<Step>, channels: map<string, ChannelRow>, id: string)
    requires LegalRun(channels, steps)
    ensures Named(Queued(steps, id))
  {
    if steps != [] {
      NamedConcat(steps[..|steps| - 1], channels, id);
      var last := steps[|steps| - 1];
      if last.Put? {
        assert Named([last.entry]) && [last.entry][0] == last.entry;
      }
    }
  }

  lemma {:induction false} QueueIsMerged(channels: map<string, ChannelRow>, steps: seq<Step>, id: string)
    requires LegalRun(channels, steps)
    ensures id in Run(channels, steps).statuses <==> Queued(steps, id) != []
    ensures Report(Run(channels, steps).statuses, id) == Merged(Queued(steps, id))
  {
    if steps != [] {
      var before, last := steps[..|steps| - 1], steps[|steps| - 1];
      QueueIsMerged(channels, before, id);
      if last.Put? && last.id == id {
        assert (Queued(before, id) + [last.entry])[..|Queued(before, id)|] == Queued(before, id);
      }
    }
  }

  /** Each column after one batch agrees with the separate writes under its own condition. */
  lemma BatchColumns(row: ChannelRow, direct: ChannelRow, sets: seq<Change>)
    requires Named(sets)
    requires row.workerStatus == direct.workerStatus && row.lastSourceStatus == direct.lastSourceStatus
    ensures var batched, written := AfterBatch(row, Merged(sets)), Written(direct, sets);
            && batched.workerStatus == written.workerStatus
            && batched.lastSourceStatus == written.lastSourceStatus
            && (batched.status == written.status
                <==> if HasSource(sets) then Faithful(sets) else row.status == direct.status)
            && (batched.lastError == written.lastError
                <==> if sets != [] then StandingError(sets) == sets[|sets| - 1].error
                     else row.lastError == direct.lastError)
  {
    MergedColumns(sets, direct);
    MergedError(sets);
    assert "source_error" != "active" by {
      assert "source_error"[0] != "active"[0];
    }
  }

  /** Wherever the flushes fall and whichever batches are lost, a channel's row shows the worker status
      and the source status code that were written last in the batches that were applied.  The whole row
      is what the separate writes in them would have made it exactly when the last of them with a source
      status was faithful and the last of them left the last write's error standing. */
  lemma {:induction false} StatusesArrive(channels: map<string, ChannelRow>, steps: seq<Step>, id: string)
    requires LegalRun(channels, steps) && id != "" && id in channels
    ensures id in Run(channels, steps).channels
    ensures var row, direct := Run(channels, steps).channels[id], Written(channels[id], Flushed(steps, id));
            && row.workerStatus == direct.workerStatus
            && row.lastSourceStatus == direct.lastSourceStatus
            && (row.status == direct.status <==> StatusRight(steps, id))
            && (row.lastError == direct.lastError <==> ErrorRight(steps, id))
            && (row == direct <==> StatusRight(steps, id) && ErrorRight(steps, id))
  {
    if steps != [] {
      var before, last := steps[..|steps| - 1], steps[|steps| - 1];
      StatusesArrive(channels, before, id);
      if last.Deliver? {
        var s, sets := Run(channels, before), Queued(before, id);
        QueueIsMerged(channels, before, id);
        NamedConcat(before, channels, id);
        DeliveredRow(s, last.entries, id, sets);
        WrittenConcat(channels[id], Flushed(before, id), sets);
        BatchColumns(s.channels[id], Written(channels[id], Flushed(before, id)), sets);
      }
    }
  }
}

/** The worker lifecycle of relay/manager.go: StartWorker, StopWorker, StopAll and releaseWorker,
    interleaved with goroutines that exit when they please.

    Every critical section under the manager's mutex is one step.  A goroutine is identified by its
    handle, a handle by its position in the order of creation. */
module Workers {
  import opened Channels

  datatype Goroutine = Goroutine(channel: string, cancelled: bool, released: bool)

  datatype Protocol = Protocol(entries: map<string, nat>, goroutines: seq<Goroutine>)

  datatype Step = Start(channel: string) | Stop(channel: string) | StopAll | Exit(handle: nat)

  const INITIAL := Protocol(map[], [])

  function Cancel(g: Goroutine): Goroutine {
    g.(cancelled := true)
  }

  function CancelAll(goroutines: seq<Goroutine>, handles: set<nat>): (r: seq<Goroutine>)
    ensures |r| == |goroutines|
    ensures forall h | 0 <= h < |r| :: r[h] == if h in handles then Cancel(goroutines[h]) else goroutines[h]
  {
    seq(|goroutines|, h requires 0 <= h < |goroutines| => if h in handles then Cancel(goroutines[h]) else goroutines[h])
  }

  function Apply(s: Protocol, step: Step): Protocol {
    match step
    case Start(channel) =>
      if channel in s.entries then s
      else Protocol(s.entries[channel := |s.goroutines|], s.goroutines + [Goroutine(channel, false, false)])
    case Stop(channel) =>
      if channel !in s.entries then s
      else Protocol(s.entries - {channel}, CancelAll(s.goroutines, {s.entries[channel]}))
    case StopAll =>
      Protocol(map[], CancelAll(s.goroutines, s.entries.Values))
    case Exit(h) => // the deferred releaseWorker of goroutine h
      if h >= |s.goroutines| || s.goroutines[h].released then s
      else
        var channel := s.goroutines[h].channel;
        Protocol(if channel in s.entries && s.entries[channel] == h then s.entries - {channel} else s.entries,
                 s.goroutines[h := s.goroutines[h].(released := true)])
  }

  function Run(s: Protocol, steps: seq<Step>): Protocol {
    if steps == [] then s else Apply(Run(s, steps[..|steps| - 1]), steps[|steps| - 1])
  }

  /** A goroutine that nobody has told to stop and that has not left. */
  predicate Active(s: Protocol, h: nat) {
    h < |s.goroutines| && !s.goroutines[h].cancelled && !s.goroutines[h].released
  }

  /** The map and the goroutines agree: an active goroutine is the entry of its channel, and every
      entry is an active goroutine. */
  ghost predicate Consistent(s: Protocol) {
    && (forall c | c in s.entries :: Active(s, s.entries[c]) && s.goroutines[s.entries[c]].channel == c)
    && (forall h: nat | Active(s, h) :: s.goroutines[h].channel in s.entries && s.entries[s.goroutines[h].channel] == h)
  }

  lemma StepKeepsConsistent(s: Protocol, step: Step)
    requires Consistent(s)
    ensures Consistent(Apply(s, step))
  {
    var t := Apply(s, step);
    forall h: nat | Active(t, h)
      ensures t.goroutines[h].channel in t.entries && t.entries[t.goroutines[h].channel] == h
    {
      if h < |s.goroutines| {
        assert Active(s, h);
        assert s.entries[s.goroutines[h].channel] in s.entries.Values;
      }
    }
  }

  lemma {:induction false} RunsAreConsistent(steps: seq<Step>)
    ensures Consistent(Run(INITIAL, steps))
  {
    if steps != [] {
      RunsAreConsistent(steps[..|steps| - 1]);
      StepKeepsConsistent(Run(INITIAL, steps[..|steps| - 1]), steps[|steps| - 1]);
    }
  }

  /** In every interleaving a channel has at most one active worker, and WorkerRunning says whether
      it has one. */
  lemma OneWorkerPerChannel(steps: seq<Step>, channel: string)
    ensures var s := Run(INITIAL, steps);
            && (channel in s.entries <==> exists h: nat :: Active(s, h) && s.goroutines[h].channel == channel)
            && (forall h: nat, k: nat | Active(s, h) && Active(s, k) ::
                  s.goroutines[h].channel == channel == s.goroutines[k].channel ==> h == k)
  {
    RunsAreConsistent(steps);
    var s := Run(INITIAL, steps);
    if channel in s.entries {
      assert Active(s, s.entries[channel]);
    }
  }

  /** The steps that end a worker's time as the entry of its channel. */
  predicate Ends(step: Step, channel: string, h: nat) {
    step == Stop(channel) || step == StopAll || step == Exit(h)
  }

  /** Goroutine h is the entry of the channel. */
  predicate Holds(s: Protocol, channel: string, h: nat) {
    channel in s.entries && s.entries[channel] == h
  }

  lemma EntryStep(s: Protocol, step: Step, channel: string, h: nat)
    requires Consistent(s) && h < |s.goroutines|
    ensures h < |Apply(s, step).goroutines|
    ensures Holds(Apply(s, step), channel, h) <==> Holds(s, channel, h) && !Ends(step, channel, h)
  {
    if Holds(s, channel, h) {
      assert Active(s, h) && s.goroutines[h].channel == channel;
    }
  }

  predicate NoneEnds(steps: seq<Step>, channel: string, h: nat) {
    forall i | 0 <= i < |steps| :: !Ends(steps[i], channel, h)
  }

  /** A worker that holds the entry of its channel keeps it exactly until it is stopped or exits
      itself.  In particular the late release of a stopped predecessor never removes a successor,
      wherever it falls in the run. */
  lemma {:induction false} EntryLasts(s: Protocol, steps: seq<Step>, channel: string, h: nat)
    requires Consistent(s) && Holds(s, channel, h)
    ensures Consistent(Run(s, steps)) && h < |Run(s, steps).goroutines|
    ensures Holds(Run(s, steps), channel, h) <==> NoneEnds(steps, channel, h)
  {
    if steps == [] {
      assert Active(s, h);
    } else {
      var n := |steps| - 1;
      EntryLasts(s, steps[..n], channel, h);
      NoneEndsSnoc(steps, channel, h);
      StepKeepsConsistent(Run(s, steps[..n]), steps[n]);
      EntryStep(Run(s, steps[..n]), steps[n], channel, h);
    }
  }

  lemma NoneEndsSnoc(steps: seq<Step>, channel: string, h: nat)
    requires steps != []
    ensures var n := |steps| - 1;
            NoneEnds(steps, channel, h) <==> NoneEnds(steps[..n], channel, h) && !Ends(steps[n], channel, h)
  {
  }

  predicate NoStart(steps: seq<Step>, channel: string) {
    forall i | 0 <= i < |steps| :: steps[i] != Start(channel)
  }

  lemma {:induction false} StaysStopped(s: Protocol, steps: seq<Step>, channel: string)
    requires Consistent(s) && channel !in s.entries && NoStart(steps, channel)
    ensures var t := Run(s, steps);
            Consistent(t) && channel !in t.entries && |t.goroutines| >= |s.goroutines|
  {
    if steps != [] {
      StaysStopped(s, steps[..|steps| - 1], channel);
      StepKeepsConsistent(Run(s, steps[..|steps| - 1]), steps[|steps| - 1]);
    }
  }

  /** PATCH stops and restarts a worker.  Whatever other channels do and whichever goroutines leave
      between the stop and the start, the restarted worker is a new goroutine; and whatever happens
      afterwards, it keeps running exactly until it is stopped or leaves itself.  The exit of the old
      goroutine, before or after the start, makes no difference. */
  lemma {:induction false} RestartSurvivesPredecessor(s: Protocol, channel: string, between: seq<Step>,
                                                      after: seq<Step>)
    requires Consistent(s) && channel in s.entries && NoStart(between, channel)
    ensures var stopped := Run(Apply(s, Stop(channel)), between);
            var h := |stopped.goroutines|;
            && h > s.entries[channel]
            && Holds(Apply(stopped, Start(channel)), channel, h)
            && (Holds(Run(Apply(stopped, Start(channel)), after), channel, h) <==> NoneEnds(after, channel, h))
  {
    assert Active(s, s.entries[channel]);
    StepKeepsConsistent(s, Stop(channel));
    StaysStopped(Apply(s, Stop(channel)), between, channel);
    var stopped := Run(Apply(s, Stop(channel)), between);
    StepKeepsConsistent(stopped, Start(channel));
    EntryLasts(Apply(stopped, Start(channel)), after, channel, |stopped.goroutines|);
  }

  /** t is s after some of the entries have been cancelled and deleted. */
  ghost predicate Draining(s: Protocol, t: Protocol) {
    && (forall c | c in t.entries :: c in s.entries && t.entries[c] == s.entries[c])
    && |t.goroutines| == |s.goroutines|
    && (forall h | 0 <= h < |s.goroutines| ::
          t.goroutines[h] == if h in s.entries.Values && h !in t.entries.Values
                             then Cancel(s.goroutines[h]) else s.goroutines[h])
  }

  lemma DrainStep(s: Protocol, t: Protocol, channel: string)
    requires Consistent(s) && Draining(s, t) && channel in t.entries
    ensures Draining(s, Apply(t, Stop(channel)))
  {
    var u := Apply(t, Stop(channel));
    var gone := t.entries[channel];
    assert gone in t.entries.Values && s.entries[channel] == gone && gone in s.entries.Values;
    forall h: nat
      ensures h in u.entries.Values <==> h in t.entries.Values && h != gone
    {
      if h in t.entries.Values && h != gone {
        var c :| c in t.entries && t.entries[c] == h;
        assert c in u.entries && u.entries[c] == h;
      }
      if h in u.entries.Values {
        var c :| c in u.entries && u.entries[c] == h;
        assert t.entries[c] == h && c != channel;
        assert Active(s, s.entries[c]) && Active(s, s.entries[channel]);
      }
    }
  }

  lemma Drained(s: Protocol, t: Protocol)
    requires Draining(s, t) && t.entries == map[]
    ensures t == Apply(s, StopAll)
  {
  }

  // ---------------------------------------------------------------- the manager

  class WorkerHandle {
    ghost const serial: nat
    ghost const channel: string
    var cancelled: bool

    constructor (ghost serial: nat, ghost channel: string)
      ensures this.serial == serial && this.channel == channel && !cancelled
    {
      this.serial := serial;
      this.channel := channel;
      cancelled := false;
    }
  }

  class Manager {
    var workers: map<string, WorkerHandle>
    ghost var spawned: seq<WorkerHandle>
    ghost var released: set<nat>

    ghost predicate Known(h: WorkerHandle)
      reads this
    {
      h.serial < |spawned| && spawned[h.serial] == h
    }

    ghost predicate Valid()
      reads this, spawned
    {
      && (forall i | 0 <= i < |spawned| :: spawned[i].serial == i)
      && (forall c | c in workers :: Known(workers[c]))
      && Consistent(State())
    }

    /** The protocol state that the fields stand for. */
    ghost function State(): Protocol
      reads this, spawned
    {
      Protocol(map c | c in workers :: workers[c].serial,
               seq(|spawned|, i requires 0 <= i < |spawned| reads this, spawned =>
                 Goroutine(spawned[i].channel, spawned[i].cancelled, i in released)))
    }

    constructor ()
      ensures Valid() && State() == INITIAL
    {
      workers := map[];
      spawned := [];
      released := {};
    }

    method StartWorker(channel: Channel)
      requires Valid()
      modifies this
      ensures Valid()
      ensures State() == if channel.status == "active" && (channel.mode == "ingest" || channel.mode == "transmux")
                         then Apply(old(State()), Start(channel.id)) else old(State())
      ensures channel.status == "active" && (channel.mode == "ingest" || channel.mode == "transmux") ==>
                channel.id in State().entries
    {
      if channel.status != "active" {
        return;
      }
      if channel.mode != "ingest" && channel.mode != "transmux" {
        return;
      }
      ghost var before := State();
      if channel.id in workers {
        assert channel.id in before.entries;
        return;
      }
      var handle := new WorkerHandle(|spawned|, channel.id);
      workers := workers[channel.id := handle];
      spawned := spawned + [handle];
      released := released - {handle.serial};
      assert State().entries == before.entries[channel.id := |before.goroutines|];
      assert State().goroutines == before.goroutines + [Goroutine(channel.id, false, false)];
      StepKeepsConsistent(before, Start(channel.id));
    }

    /** The two statements that StopWorker and StopAll share. */
    method CancelAndDelete(channelID: string)
      requires Valid() && channelID in workers
      modifies this`workers, spawned
      ensures Valid() && spawned == old(spawned)
      ensures workers == old(workers) - {channelID}
      ensures State() == Apply(old(State()), Stop(channelID))
    {
      ghost var before := State();
      var handle := workers[channelID];
      handle.cancelled := true;
      workers := workers - {channelID};
      StepKeepsConsistent(before, Stop(channelID));
      assert State() == Apply(before, Stop(channelID));
    }

    method StopWorker(channelID: string)
      requires Valid()
      modifies this`workers, spawned
      ensures Valid() && spawned == old(spawned)
      ensures State() == Apply(old(State()), Stop(channelID))
    {
      if channelID in workers {
        CancelAndDelete(channelID);
      }
    }

    /** Called once by each worker goroutine when it leaves. */
    method ReleaseWorker(channelID: string, h: WorkerHandle)
      requires Valid() && Known(h) && h.channel == channelID && h.serial !in released
      modifies this
      ensures Valid()
      ensures State() == Apply(old(State()), Exit(h.serial))
    {
      ghost var before := State();
      if channelID in workers && workers[channelID] == h {
        workers := workers - {channelID};
      }
      released := released + {h.serial};
      StepKeepsConsistent(before, Exit(h.serial));
      assert State() == Apply(before, Exit(h.serial));
    }

    method StopAllWorkers()
      requires Valid()
      modifies this`workers, spawned
      ensures Valid()
      ensures State() == Apply(old(State()), StopAll)
    {
      ghost var before := State();
      while workers != map[]
        invariant Valid() && spawned == old(spawned)
        invariant Draining(before, State())
        decreases |workers|
      {
        var id :| id in workers;
        ghost var s := State();
        assert id in s.entries;
        CancelAndDelete(id);
        DrainStep(before, s, id);
      }
      Drained(before, State());
    }

    method WorkerRunning(channelID: string) returns (running: bool)
      requires Valid()
      ensures running <==> exists h: nat :: Active(State(), h) && State().goroutines[h].channel == channelID
    {
      running := channelID in workers;
      ghost var s := State();
      if running {
        assert channelID in s.entries;
        assert Active(s, s.entries[channelID]);
      }
    }
  }
}

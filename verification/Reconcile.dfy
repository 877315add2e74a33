/** A node's config sync: syncConfig of nodeagent/agent.go over the channel store and the worker
    protocol, with workers exiting by themselves between any two critical sections. */
module Reconcile {
  import opened Channels
  import opened Workers
  import opened MemStores

  // ---------------------------------------------------------------- what one sync does

  function Stops(removed: seq<Channel>): seq<Step> {
    if removed == [] then [] else Stops(removed[..|removed| - 1]) + [Stop(removed[|removed| - 1].id)]
  }

  function Starts(added: seq<Channel>): seq<Step> {
    if added == [] then []
    else
      var before, last := Starts(added[..|added| - 1]), added[|added| - 1];
      if WantsWorker(last) then before + [Start(last.id)] else before
  }

  /** Removed workers are stopped before any added one is started. */
  function Plan(removed: seq<Channel>, added: seq<Channel>): seq<Step> {
    Stops(removed) + Starts(added)
  }

  function WithoutExits(steps: seq<Step>): seq<Step> {
    if steps == [] then []
    else
      var before, last := WithoutExits(steps[..|steps| - 1]), steps[|steps| - 1];
      if last.Exit? then before else before + [last]
  }

  /** A completed sync: the configuration received, the two lists that Replace returned, and the
      critical sections that ran from the previous sync to the end of this one. */
  datatype Sync = Sync(config: seq<Channel>, removed: seq<Channel>, added: seq<Channel>, steps: seq<Step>)

  datatype Node = Node(channels: map<string, Channel>, workers: Protocol)

  ghost predicate Legal(node: Node, sync: Sync) {
    var next := ById(sync.config);
    && Enumerates(sync.added, next, next.Keys - node.channels.Keys)
    && Enumerates(sync.removed, node.channels, node.channels.Keys - next.Keys)
    && WithoutExits(sync.steps) == Plan(sync.removed, sync.added)
  }

  function AfterSync(node: Node, sync: Sync): Node {
    Node(ById(sync.config), Run(node.workers, sync.steps))
  }

  function After(syncs: seq<Sync>): Node {
    if syncs == [] then Node(map[], INITIAL) else AfterSync(After(syncs[..|syncs| - 1]), syncs[|syncs| - 1])
  }

  ghost predicate LegalRun(syncs: seq<Sync>) {
    syncs == [] || (LegalRun(syncs[..|syncs| - 1]) && Legal(After(syncs[..|syncs| - 1]), syncs[|syncs| - 1]))
  }

  // ---------------------------------------------------------------- assignments

  /** The record under which a channel was assigned, and the number of goroutines there were at
      the start of the sync that assigned it. */
  datatype Assignment = Assignment(channel: Channel, since: nat)

  function Assignments(syncs: seq<Sync>): map<string, Assignment> {
    if syncs == [] then map[]
    else
      var before, last := syncs[..|syncs| - 1], syncs[|syncs| - 1];
      var earlier := Assignments(before);
      map id | id in ById(last.config) ::
        if id in earlier then earlier[id] else Assignment(ById(last.config)[id], |After(before).workers.goroutines|)
  }

  /** Among the goroutines of the channel, those from `since` on are exactly `own`, which nobody has
      cancelled; all the earlier ones are finished. */
  ghost predicate Tracks(s: Protocol, id: string, since: nat, own: set<nat>) {
    && (forall h | h in own ::
          since <= h < |s.goroutines| && s.goroutines[h].channel == id && !s.goroutines[h].cancelled)
    && (forall h: nat | h < |s.goroutines| && s.goroutines[h].channel == id && h !in own :: h < since && !Active(s, h))
  }

  predicate Mentions(step: Step, id: string) {
    (step.Start? && step.channel == id) || (step.Stop? && step.channel == id) || step.StopAll?
  }

  predicate Quiet(steps: seq<Step>, id: string) {
    forall i | 0 <= i < |steps| :: !Mentions(steps[i], id)
  }

  lemma QuietStep(s: Protocol, step: Step, id: string, since: nat, own: set<nat>)
    requires Consistent(s) && Tracks(s, id, since, own) && !Mentions(step, id)
    ensures Tracks(Apply(s, step), id, since, own)
    ensures |Apply(s, step).goroutines| >= |s.goroutines|
  {
    var t := Apply(s, step);
    forall h: nat | h < |t.goroutines| && t.goroutines[h].channel == id
      ensures h < |s.goroutines| && s.goroutines[h].channel == id
      ensures t.goroutines[h].cancelled == s.goroutines[h].cancelled
      ensures Active(t, h) ==> Active(s, h)
    {
      if step.Stop? && step.channel in s.entries {
        assert s.goroutines[s.entries[step.channel]].channel == step.channel;
      }
    }
    if step.Stop? && step.channel in s.entries {
      assert Active(s, s.entries[step.channel]);
    }
  }

  lemma {:induction false} QuietRun(s: Protocol, steps: seq<Step>, id: string, since: nat, own: set<nat>)
    requires Consistent(s) && Tracks(s, id, since, own) && Quiet(steps, id)
    ensures Consistent(Run(s, steps)) && Tracks(Run(s, steps), id, since, own)
    ensures |Run(s, steps).goroutines| >= |s.goroutines|
  {
    if steps != [] {
      var n := |steps| - 1;
      QuietRun(s, steps[..n], id, since, own);
      StepKeepsConsistent(Run(s, steps[..n]), steps[n]);
      QuietStep(Run(s, steps[..n]), steps[n], id, since, own);
    }
  }

  /** Stopping a channel, or having no worker for it, leaves nothing to track. */
  lemma StopForgets(s: Protocol, id: string, since: nat, own: set<nat>)
    requires Consistent(s) && Tracks(s, id, since, own)
    ensures var t := Apply(s, Stop(id)); Tracks(t, id, |t.goroutines|, {})
  {
  }

  lemma StartTracks(s: Protocol, id: string, since: nat)
    requires Consistent(s) && Tracks(s, id, since, {}) && since <= |s.goroutines|
    ensures Tracks(Apply(s, Start(id)), id, since, {|s.goroutines|})
  {
  }

  // ---------------------------------------------------------------- steps of a plan

  lemma {:induction false} RunConcat(s: Protocol, a: seq<Step>, b: seq<Step>)
    ensures Run(s, a + b) == Run(Run(s, a), b)
  {
    if b == [] {
      assert a + b == a;
    } else {
      assert (a + b)[..|a + b| - 1] == a + b[..|b| - 1];
      RunConcat(s, a, b[..|b| - 1]);
    }
  }

  lemma {:induction false} QuietWithoutExits(steps: seq<Step>, id: string)
    requires Quiet(WithoutExits(steps), id)
    ensures Quiet(steps, id)
  {
    if steps != [] {
      var n := |steps| - 1;
      var before := WithoutExits(steps[..n]);
      assert forall i | 0 <= i < |before| :: WithoutExits(steps)[i] == before[i];
      QuietWithoutExits(steps[..n], id);
      assert !steps[n].Exit? ==> WithoutExits(steps)[|before|] == steps[n];
      assert forall i | 0 <= i < n :: steps[i] == steps[..n][i];
    }
  }

  /** A step of the plan has its place among the steps that ran. */
  lemma {:induction false} Locate(steps: seq<Step>, p: seq<Step>, x: Step, q: seq<Step>)
    returns (a: seq<Step>, b: seq<Step>)
    requires WithoutExits(steps) == p + [x] + q
    ensures steps == a + [x] + b && WithoutExits(a) == p && WithoutExits(b) == q
  {
    assert (p + [x] + q)[|p|] == x;
    var n := |steps| - 1;
    var last := steps[n];
    if last.Exit? {
      a, b := Locate(steps[..n], p, x, q);
      b := b + [last];
      assert b[..|b| - 1] + [last] == b;
    } else if q == [] {
      assert (p + [x])[..|p|] == p;
      a, b := steps[..n], [];
      assert WithoutExits(steps)[..|p|] == WithoutExits(a);
    } else {
      var m := |q| - 1;
      assert p + [x] + q == (p + [x] + q[..m]) + [q[m]];
      assert WithoutExits(steps)[..|p| + 1 + m] == WithoutExits(steps[..n]);
      a, b := Locate(steps[..n], p, x, q[..m]);
      b := b + [last];
      assert b[..|b| - 1] + [last] == b;
    }
    assert steps == a + [x] + b;
  }

  /** The channel appears nowhere in the list. */
  predicate Unlisted(list: seq<Channel>, id: string) {
    forall i | 0 <= i < |list| :: list[i].id != id
  }

  lemma {:induction false} QuietLists(removed: seq<Channel>, added: seq<Channel>, id: string)
    requires Unlisted(removed, id)
    requires forall i | 0 <= i < |added| :: added[i].id == id ==> !WantsWorker(added[i])
    ensures Quiet(Stops(removed), id) && Quiet(Starts(added), id)
    decreases |removed| + |added|
  {
    if removed != [] {
      QuietLists(removed[..|removed| - 1], added, id);
    } else if added != [] {
      QuietLists(removed, added[..|added| - 1], id);
    }
  }

  lemma StopsSnoc(removed: seq<Channel>, last: Channel)
    ensures Stops(removed + [last]) == Stops(removed) + [Stop(last.id)]
  {
  }

  lemma StartsSnoc(added: seq<Channel>, last: Channel)
    ensures Starts(added + [last]) == Starts(added) + if WantsWorker(last) then [Start(last.id)] else []
  {
  }

  lemma TakeLast(list: seq<Channel>)
    requires list != []
    ensures list == list[..|list| - 1] + [list[|list| - 1]]
  {
  }

  /** The list without its last channel, cut at position i. */
  lemma CutAt(list: seq<Channel>, i: nat)
    requires i < |list| - 1
    ensures var n := |list| - 1;
            list[..n][..i] == list[..i] && list[i + 1..] == list[..n][i + 1..] + [list[n]]
  {
  }

  lemma {:induction false} StopsAt(removed: seq<Channel>, i: nat)
    requires i < |removed|
    ensures Stops(removed) == Stops(removed[..i]) + [Stop(removed[i].id)] + Stops(removed[i + 1..])
  {
    var n := |removed| - 1;
    TakeLast(removed);
    StopsSnoc(removed[..n], removed[n]);
    if i == n {
      assert removed[i + 1..] == [];
    } else {
      CutAt(removed, i);
      StopsAt(removed[..n], i);
      StopsSnoc(removed[..n][i + 1..], removed[n]);
    }
  }

  lemma {:induction false} StartsAt(added: seq<Channel>, i: nat)
    requires i < |added| && WantsWorker(added[i])
    ensures Starts(added) == Starts(added[..i]) + [Start(added[i].id)] + Starts(added[i + 1..])
  {
    var n := |added| - 1;
    TakeLast(added);
    StartsSnoc(added[..n], added[n]);
    if i == n {
      assert added[i + 1..] == [];
    } else {
      CutAt(added, i);
      StartsAt(added[..n], i);
      StartsSnoc(added[..n][i + 1..], added[n]);
    }
  }

  // ---------------------------------------------------------------- one sync, one channel

  lemma KeptChannel(node: Node, sync: Sync, id: string, since: nat, own: set<nat>)
    requires Legal(node, sync) && Consistent(node.workers) && Tracks(node.workers, id, since, own)
    requires id in node.channels <==> id in ById(sync.config)
    ensures Tracks(AfterSync(node, sync).workers, id, since, own)
  {
    QuietLists(sync.removed, sync.added, id);
    QuietWithoutExits(sync.steps, id);
    QuietRun(node.workers, sync.steps, id, since, own);
  }

  lemma RunAround(s: Protocol, a: seq<Step>, x: Step, b: seq<Step>)
    ensures Run(s, a + [x] + b) == Run(Apply(Run(s, a), x), b)
  {
    RunConcat(s, a + [x], b);
    assert (a + [x])[..|a|] == a;
  }

  lemma StoppedOnce(s: Protocol, a: seq<Step>, b: seq<Step>, id: string, since: nat, own: set<nat>)
    requires Consistent(s) && Tracks(s, id, since, own) && Quiet(a, id) && Quiet(b, id)
    ensures var t := Run(s, a + [Stop(id)] + b); Tracks(t, id, |t.goroutines|, {})
  {
    QuietRun(s, a, id, since, own);
    var u := Run(s, a);
    StopForgets(u, id, since, own);
    StepKeepsConsistent(u, Stop(id));
    var v := Apply(u, Stop(id));
    QuietRun(v, b, id, |v.goroutines|, {});
    Rebase(Run(v, b), id, |v.goroutines|);
    RunAround(s, a, Stop(id), b);
  }

  lemma {:induction false} StartedOnce(s: Protocol, a: seq<Step>, b: seq<Step>, id: string) returns (h: nat)
    requires Consistent(s) && Tracks(s, id, |s.goroutines|, {}) && Quiet(a, id) && Quiet(b, id)
    ensures Tracks(Run(s, a + [Start(id)] + b), id, |s.goroutines|, {h})
  {
    QuietRun(s, a, id, |s.goroutines|, {});
    var u := Run(s, a);
    h := |u.goroutines|;
    StartTracks(u, id, |s.goroutines|);
    StepKeepsConsistent(u, Start(id));
    QuietRun(Apply(u, Start(id)), b, id, |s.goroutines|, {h});
    RunAround(s, a, Start(id), b);
  }

  /** The plan around its one step for a removed channel. */
  lemma PlannedStop(removed: seq<Channel>, added: seq<Channel>, i: nat) returns (p: seq<Step>, q: seq<Step>)
    requires i < |removed| && Unlisted(added, removed[i].id)
    requires Unlisted(removed[..i], removed[i].id) && Unlisted(removed[i + 1..], removed[i].id)
    ensures Plan(removed, added) == p + [Stop(removed[i].id)] + q
    ensures Quiet(p, removed[i].id) && Quiet(q, removed[i].id)
  {
    var id, front, back := removed[i].id, removed[..i], removed[i + 1..];
    StopsAt(removed, i);
    QuietLists(front, [], id);
    QuietLists(back, added, id);
    p, q := Stops(front), Stops(back) + Starts(added);
  }

  /** The plan around its one step for an added channel. */
  lemma PlannedStart(removed: seq<Channel>, added: seq<Channel>, i: nat) returns (p: seq<Step>, q: seq<Step>)
    requires i < |added| && Unlisted(removed, added[i].id) && WantsWorker(added[i])
    requires Unlisted(added[..i], added[i].id) && Unlisted(added[i + 1..], added[i].id)
    ensures Plan(removed, added) == p + [Start(added[i].id)] + q
    ensures Quiet(p, added[i].id) && Quiet(q, added[i].id)
  {
    var id, front, back := added[i].id, added[..i], added[i + 1..];
    StartsAt(added, i);
    QuietLists(removed, front, id);
    QuietLists([], back, id);
    p, q := Stops(removed) + Starts(front), Starts(back);
  }

  lemma ListedOnce(list: seq<Channel>, m: map<string, Channel>, keys: set<string>, id: string) returns (i: nat)
    requires Enumerates(list, m, keys) && id in keys
    ensures i < |list| && list[i].id == id && list[i] == m[id] && Unlisted(list[..i], id) && Unlisted(list[i + 1..], id)
  {
    i :| 0 <= i < |list| && list[i].id == id;
  }

  lemma StepHasItsPlace(steps: seq<Step>, p: seq<Step>, x: Step, q: seq<Step>, id: string)
    returns (a: seq<Step>, b: seq<Step>)
    requires WithoutExits(steps) == p + [x] + q && Quiet(p, id) && Quiet(q, id)
    ensures steps == a + [x] + b && Quiet(a, id) && Quiet(b, id)
  {
    a, b := Locate(steps, p, x, q);
    QuietWithoutExits(a, id);
    QuietWithoutExits(b, id);
  }

  lemma RemovedChannel(node: Node, sync: Sync, id: string, since: nat, own: set<nat>)
    requires Legal(node, sync) && Consistent(node.workers) && Tracks(node.workers, id, since, own)
    requires id in node.channels && id !in ById(sync.config)
    ensures var t := AfterSync(node, sync).workers; Tracks(t, id, |t.goroutines|, {})
  {
    var next := ById(sync.config);
    var i := ListedOnce(sync.removed, node.channels, node.channels.Keys - next.Keys, id);
    var p, q := PlannedStop(sync.removed, sync.added, i);
    var a, b := StepHasItsPlace(sync.steps, p, Stop(id), q, id);
    StoppedOnce(node.workers, a, b, id, since, own);
  }

  lemma AddedChannel(node: Node, sync: Sync, id: string)
    requires Legal(node, sync) && Consistent(node.workers)
    requires Tracks(node.workers, id, |node.workers.goroutines|, {})
    requires id !in node.channels && id in ById(sync.config)
    ensures var since := |node.workers.goroutines|;
            if WantsWorker(ById(sync.config)[id]) then exists h: nat ::
              Tracks(AfterSync(node, sync).workers, id, since, {h})
            else Tracks(AfterSync(node, sync).workers, id, since, {})
  {
    if WantsWorker(ById(sync.config)[id]) {
      var next := ById(sync.config);
      var i := ListedOnce(sync.added, next, next.Keys - node.channels.Keys, id);
      var p, q := PlannedStart(sync.removed, sync.added, i);
      var a, b := StepHasItsPlace(sync.steps, p, Start(id), q, id);
      var h := StartedOnce(node.workers, a, b, id);
      assert Tracks(AfterSync(node, sync).workers, id, |node.workers.goroutines|, {h});
    } else {
      QuietLists(sync.removed, sync.added, id);
      QuietWithoutExits(sync.steps, id);
      QuietRun(node.workers, sync.steps, id, |node.workers.goroutines|, {});
    }
  }

  // ---------------------------------------------------------------- whole runs

  /** The goroutines of a channel after a run: one of its own if it is assigned and wanted a worker
      when it was assigned, none otherwise. */
  ghost predicate Explained(s: Protocol, records: map<string, Assignment>, id: string) {
    if id !in records then Tracks(s, id, |s.goroutines|, {})
    else if WantsWorker(records[id].channel) then exists h: nat :: Tracks(s, id, records[id].since, {h})
    else Tracks(s, id, records[id].since, {})
  }

  lemma {:induction false} RunsAreExplained(syncs: seq<Sync>, id: string)
    requires LegalRun(syncs)
    ensures Consistent(After(syncs).workers)
    ensures Assignments(syncs).Keys == After(syncs).channels.Keys
    ensures Explained(After(syncs).workers, Assignments(syncs), id)
  {
    if syncs != [] {
      var before, sync := syncs[..|syncs| - 1], syncs[|syncs| - 1];
      RunsAreExplained(before, id);
      var node, earlier := After(before), Assignments(before);
      SyncIsConsistent(node.workers, sync.steps);
      var since := if id in earlier then earlier[id].since else |node.workers.goroutines|;
      var own: set<nat> := {};
      if id in earlier && WantsWorker(earlier[id].channel) {
        var h: nat :| Tracks(node.workers, id, since, {h});
        own := {h};
      }
      if id in node.channels <==> id in ById(sync.config) {
        KeptChannel(node, sync, id, since, own);
        if id !in node.channels {
          Rebase(AfterSync(node, sync).workers, id, since);
        }
      } else if id in node.channels {
        RemovedChannel(node, sync, id, since, own);
      } else {
        AddedChannel(node, sync, id);
      }
    }
  }

  lemma {:induction false} SyncIsConsistent(s: Protocol, steps: seq<Step>)
    requires Consistent(s)
    ensures Consistent(Run(s, steps)) && |Run(s, steps).goroutines| >= |s.goroutines|
  {
    if steps != [] {
      SyncIsConsistent(s, steps[..|steps| - 1]);
      StepKeepsConsistent(Run(s, steps[..|steps| - 1]), steps[|steps| - 1]);
    }
  }

  lemma Rebase(s: Protocol, id: string, since: nat)
    requires Tracks(s, id, since, {})
    ensures Tracks(s, id, |s.goroutines|, {})
  {
  }

  /** After every completed sync of every run, whatever workers have exited meanwhile: running
      channels are assigned channels; an assigned channel that did not want a worker when it was
      assigned has had none since; one that did has had exactly one goroutine since, nobody has
      cancelled it, and the channel is running exactly if that goroutine has not left by itself. */
  lemma Reconciled(syncs: seq<Sync>, id: string)
    requires LegalRun(syncs)
    ensures var s, records := After(syncs).workers, Assignments(syncs);
            && records.Keys == After(syncs).channels.Keys
            && (id !in records ==> id !in s.entries)
            && (id in records && (records[id].channel.status != "active"
                                  || (records[id].channel.mode != "ingest" && records[id].channel.mode != "transmux"))
                ==>
                  && id !in s.entries
                  && forall h: nat | records[id].since <= h < |s.goroutines| :: s.goroutines[h].channel != id)
            && (id in records && records[id].channel.status == "active"
                && (records[id].channel.mode == "ingest" || records[id].channel.mode == "transmux")
                ==>
                  exists h: nat | records[id].since <= h < |s.goroutines| ::
                    && s.goroutines[h].channel == id
                    && (forall k: nat | records[id].since <= k < |s.goroutines| && s.goroutines[k].channel == id ::
                       k == h)
                    && !s.goroutines[h].cancelled
                    && (id in s.entries <==> !s.goroutines[h].released))
  {
    RunsAreExplained(syncs, id);
    var s, records := After(syncs).workers, Assignments(syncs);
    if id in s.entries {
      assert Active(s, s.entries[id]);
    }
    if id in records && WantsWorker(records[id].channel) {
      var h: nat :| Tracks(s, id, records[id].since, {h});
      assert h in {h};
      assert Active(s, h) <==> !s.goroutines[h].released;
    }
  }

  /** A channel that stays assigned keeps the record it was assigned under: changing its fields in
      the configuration starts and stops nothing. */
  lemma {:induction false} FieldChangesAreIgnored(syncs: seq<Sync>, sync: Sync, id: string)
    requires LegalRun(syncs) && Legal(After(syncs), sync)
    requires id in After(syncs).channels && id in ById(sync.config)
    ensures Assignments(syncs + [sync])[id] == Assignments(syncs)[id]
    ensures Quiet(sync.steps, id)
  {
    RunsAreExplained(syncs, id);
    assert (syncs + [sync])[..|syncs|] == syncs;
    QuietLists(sync.removed, sync.added, id);
    QuietWithoutExits(sync.steps, id);
  }

  /** The worker that the channel's assignment started has left by itself. */
  ghost predicate HasLeft(s: Protocol, id: string, since: nat) {
    exists h: nat | since <= h < |s.goroutines| ::
      s.goroutines[h].channel == id && s.goroutines[h].released && !s.goroutines[h].cancelled
  }

  /** Whether an assigned channel runs as its current record wants: if that wants a worker, exactly when
      the record it was assigned under did too and that worker has not left; if not, exactly when that
      record wanted none either or the worker has left. */
  lemma {:induction false} ConfigurationIsFollowed(syncs: seq<Sync>, id: string)
    requires LegalRun(syncs) && id in After(syncs).channels
    ensures Assignments(syncs).Keys == After(syncs).channels.Keys
    ensures var s, current, origin := After(syncs).workers, After(syncs).channels[id], Assignments(syncs)[id];
            (id in s.entries <==> WantsWorker(current))
            <==> if WantsWorker(current) then WantsWorker(origin.channel) && !HasLeft(s, id, origin.since)
                 else !WantsWorker(origin.channel) || HasLeft(s, id, origin.since)
  {
    Reconciled(syncs, id);
  }

  lemma OneChannel(channel: Channel)
    ensures ById([channel]) == map[channel.id := channel]
    ensures !WantsWorker(channel) ==> Plan([], [channel]) == []
  {
    assert [channel][..0] == [];
    assert ById([]) == map[];
    assert !WantsWorker(channel) ==> Starts([channel]) == Starts([]) == [];
    assert Stops([]) + [] == [];
  }

  lemma Tracked(s: Protocol, id: string, since: nat)
    ensures Tracks(s, id, since, {}) ==> forall h: nat | since <= h < |s.goroutines| :: s.goroutines[h].channel != id
    ensures forall h: nat | Tracks(s, id, since, {h}) :: since <= h < |s.goroutines| && s.goroutines[h].channel == id
  {
    forall h: nat | Tracks(s, id, since, {h})
      ensures since <= h < |s.goroutines| && s.goroutines[h].channel == id
    {
      assert h in {h};
    }
  }

  /** The sync in which a channel first appears starts it exactly when it is an active one to ingest or to
      transmux, whatever else happens in that sync: then one goroutine is made for it. */
  lemma {:induction false} AddedChannelsStart(syncs: seq<Sync>, sync: Sync, id: string)
    requires LegalRun(syncs) && Legal(After(syncs), sync)
    requires id !in After(syncs).channels && id in ById(sync.config)
    ensures var before, s := After(syncs).workers, AfterSync(After(syncs), sync).workers;
            var channel := ById(sync.config)[id];
            (exists h: nat | |before.goroutines| <= h < |s.goroutines| :: s.goroutines[h].channel == id)
            <==> channel.status == "active" && (channel.mode == "ingest" || channel.mode == "transmux")
  {
    RunsAreExplained(syncs, id);
    AddedChannel(After(syncs), sync, id);
    Tracked(AfterSync(After(syncs), sync).workers, id, |After(syncs).workers.goroutines|);
  }

  /** An active channel is assigned in proxy mode and switched to ingest afterwards: its worker does not
      start. */
  lemma SwitchToIngestIsIgnored(channel: Channel)
    requires channel.status == "active" && channel.mode == "ingest"
    ensures var proxied := channel.(mode := "proxy");
            var syncs := [Sync([proxied], [], [proxied], []), Sync([channel], [], [], [])];
            && LegalRun(syncs)
            && After(syncs).channels == map[channel.id := channel] && WantsWorker(channel)
            && channel.id !in After(syncs).workers.entries
  {
    var proxied := channel.(mode := "proxy");
    var first, second := Sync([proxied], [], [proxied], []), Sync([channel], [], [], []);
    OneChannel(proxied);
    OneChannel(channel);
    assert Plan([], []) == [] && WithoutExits([]) == [];
    assert [first, second][..1] == [first] && [first][..0] == [];
    assert [proxied][0].id == channel.id;
    assert Legal(Node(map[], INITIAL), first);
    assert After([first]) == AfterSync(Node(map[], INITIAL), first);
    assert Legal(After([first]), second);
  }

  // ---------------------------------------------------------------- the agent

  predicate NoExits(steps: seq<Step>) {
    forall i | 0 <= i < |steps| :: !steps[i].Exit?
  }

  lemma {:induction false} NothingToLeaveOut(steps: seq<Step>)
    requires NoExits(steps)
    ensures WithoutExits(steps) == steps
  {
    if steps != [] {
      var n := |steps| - 1;
      assert NoExits(steps[..n]) && !steps[n].Exit?;
      NothingToLeaveOut(steps[..n]);
      assert steps == steps[..n] + [steps[n]];
    }
  }

  lemma {:induction false} StopsHaveNoExits(removed: seq<Channel>)
    ensures NoExits(Stops(removed))
  {
    if removed != [] {
      StopsHaveNoExits(removed[..|removed| - 1]);
    }
  }

  lemma {:induction false} StartsHaveNoExits(added: seq<Channel>)
    ensures NoExits(Starts(added))
  {
    if added != [] {
      StartsHaveNoExits(added[..|added| - 1]);
    }
  }

  lemma PlanHasNoExits(removed: seq<Channel>, added: seq<Channel>)
    ensures WithoutExits(Plan(removed, added)) == Plan(removed, added)
  {
    StopsHaveNoExits(removed);
    StartsHaveNoExits(added);
    NothingToLeaveOut(Plan(removed, added));
  }

  lemma RunSnoc(s: Protocol, steps: seq<Step>, step: Step)
    ensures Run(s, steps + [step]) == Apply(Run(s, steps), step)
  {
  }

  class Agent {
    const store: MemStore
    const relay: Manager

    ghost predicate Valid()
      reads store, relay, relay.spawned
    {
      store.Valid() && relay.Valid()
    }

    ghost function State(): Node
      reads store, relay, relay.spawned
    {
      Node(store.byID, relay.State())
    }

    constructor (store: MemStore, relay: Manager)
      ensures this.store == store && this.relay == relay
    {
      this.store := store;
      this.relay := relay;
    }

    method StopRemoved(removed: seq<Channel>)
      requires relay.Valid()
      modifies relay, relay.spawned
      ensures relay.Valid() && relay.spawned == old(relay.spawned)
      ensures relay.State() == Run(old(relay.State()), Stops(removed))
    {
      ghost var before := relay.State();
      var i := 0;
      while i < |removed|
        invariant 0 <= i <= |removed|
        invariant relay.Valid() && relay.spawned == old(relay.spawned)
        invariant relay.State() == Run(before, Stops(removed[..i]))
      {
        assert removed[..i + 1][..i] == removed[..i];
        RunSnoc(before, Stops(removed[..i]), Stop(removed[i].id));
        relay.StopWorker(removed[i].id);
        i := i + 1;
      }
      assert removed[..i] == removed;
    }

    method StartAdded(added: seq<Channel>)
      requires relay.Valid()
      modifies relay
      ensures relay.Valid()
      ensures relay.State() == Run(old(relay.State()), Starts(added))
    {
      ghost var before := relay.State();
      var i := 0;
      while i < |added|
        invariant 0 <= i <= |added|
        invariant relay.Valid()
        invariant relay.State() == Run(before, Starts(added[..i]))
      {
        assert added[..i + 1][..i] == added[..i];
        if added[i].status == "active" && (added[i].mode == "ingest" || added[i].mode == "transmux") {
          RunSnoc(before, Starts(added[..i]), Start(added[i].id));
          relay.StartWorker(added[i]);
        }
        i := i + 1;
      }
      assert added[..i] == added;
    }

    /** The end of syncConfig, once the configuration has been decoded and the relay is up, without
        the purge of the removed channels' caches. */
    method SyncConfig(channels: seq<Channel>) returns (added: seq<Channel>, removed: seq<Channel>)
      requires Valid()
      modifies store, relay, relay.spawned
      ensures Valid()
      ensures var sync := Sync(channels, removed, added, Plan(removed, added));
              Legal(old(State()), sync) && State() == AfterSync(old(State()), sync)
    {
      ghost var before := relay.State();
      added, removed := store.Replace(channels);
      PlanHasNoExits(removed, added);
      StopRemoved(removed);
      StartAdded(added);
      RunConcat(before, Stops(removed), Starts(added));
    }
  }
}

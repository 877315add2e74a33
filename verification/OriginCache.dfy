/** The allowed-origins cache of httpapi/auth.go against the database.

    A lookup that misses takes the lock, checks again and queries the database before releasing it,
    so every critical section is one step; database writes need no lock and fall anywhere. */
module OriginCaches {
  import opened Text

  // ---------------------------------------------------------------- the database

  /** A row of allowed_origins, its origin as the query normalises it; "" stands for null. */
  datatype AllowedOrigin = AllowedOrigin(origin: string, owner: string, channel: string, enabled: bool)

  /** `bypass` holds the allowed_origins_bypass column of the channels by slug. */
  datatype Database = Database(origins: set<AllowedOrigin>, bypass: map<string, bool>)

  datatype Ask =
    Everyone | ForOwner(owner: string) | ForChannel(channel: string, owner: string) | ForBypass(slug: string)

  datatype Answer = Origins(origins: set<string>) | Bypass(bypass: bool)

  function Query(db: Database, ask: Ask): Answer {
    match ask
    case Everyone => Origins(set r | r in db.origins && r.enabled :: r.origin)
    case ForOwner(owner) => Origins(set r | r in db.origins && r.enabled && r.owner == owner :: r.origin)
    case ForChannel(channel, owner) =>
      Origins(set r | r in db.origins && r.enabled
        && (r.channel == channel || (r.channel == "" && r.owner == owner)) :: r.origin)
    case ForBypass(slug) => Bypass(slug in db.bypass && db.bypass[slug])
  }

  // ---------------------------------------------------------------- the cache

  datatype Entry = Entry(answer: Answer, expires: Option<int>)

  /** `all` is kept when it expires, the others are entries of maps. */
  datatype Cache =
    Cache(all: Entry, owners: map<string, Entry>, channels: map<string, Entry>, bypass: map<string, Entry>)

  const EMPTY := Cache(Entry(Origins({}), None), map[], map[], map[])

  /** An entry of the cache is found without the owner that a channel was asked for with. */
  datatype Key = AllKey | OwnerKey(owner: string) | ChannelKey(channel: string) | BypassKey(slug: string)

  function KeyOf(ask: Ask): Key {
    match ask
    case Everyone => AllKey
    case ForOwner(owner) => OwnerKey(owner)
    case ForChannel(channel, _) => ChannelKey(channel)
    case ForBypass(slug) => BypassKey(slug)
  }

  function Ttl(key: Key): int {
    if key.BypassKey? then 15 else 30
  }

  function Lookup(m: map<string, Entry>, k: string): Option<Entry> {
    if k in m then Some(m[k]) else None
  }

  function Find(c: Cache, key: Key): Option<Entry> {
    match key
    case AllKey => Some(c.all)
    case OwnerKey(owner) => Lookup(c.owners, owner)
    case ChannelKey(channel) => Lookup(c.channels, channel)
    case BypassKey(slug) => Lookup(c.bypass, slug)
  }

  function Put(c: Cache, key: Key, entry: Entry): Cache {
    match key
    case AllKey => c.(all := entry)
    case OwnerKey(owner) => c.(owners := c.owners[owner := entry])
    case ChannelKey(channel) => c.(channels := c.channels[channel := entry])
    case BypassKey(slug) => c.(bypass := c.bypass[slug := entry])
  }

  predicate Fresh(entry: Option<Entry>, now: int) {
    entry.Some? && entry.value.expires.Some? && now < entry.value.expires.value
  }

  /** What is answered when the query fails. */
  function OnError(c: Cache, key: Key): Answer {
    match key
    case AllKey => c.all.answer
    case BypassKey(_) => Bypass(false)
    case _ => Origins({})
  }

  /** The section under the lock. */
  function Locked(c: Cache, db: Database, ask: Ask, now: int, done: int, ok: bool): Cache {
    var key := KeyOf(ask);
    if Fresh(Find(c, key), now) then c
    else Put(c, key, Entry(if ok then Query(db, ask) else OnError(c, key), Some(done + Ttl(key))))
  }

  function Invalidated(c: Cache): Cache {
    c.(all := c.all.(expires := None), owners := map[], channels := map[])
  }

  function BypassInvalidated(c: Cache, slug: string): Cache {
    c.(bypass := if slug == "" then map[] else c.bypass - {slug})
  }

  // ---------------------------------------------------------------- runs

  datatype Step =
    | Write(db: Database)
    | Invalidate
    | InvalidateBypass(slug: string)
    | LockedLookup(ask: Ask, now: int, done: int, ok: bool)

  datatype World = World(db: Database, cache: Cache)

  function Apply(w: World, step: Step): World {
    match step
    case Write(db) => w.(db := db)
    case Invalidate => w.(cache := Invalidated(w.cache))
    case InvalidateBypass(slug) => w.(cache := BypassInvalidated(w.cache, slug))
    case LockedLookup(ask, now, done, ok) => w.(cache := Locked(w.cache, w.db, ask, now, done, ok))
  }

  function Run(db: Database, steps: seq<Step>): World {
    if steps == [] then World(db, EMPTY) else Apply(Run(db, steps[..|steps| - 1]), steps[|steps| - 1])
  }

  predicate Clears(step: Step, key: Key) {
    match step
    case Invalidate => !key.BypassKey?
    case InvalidateBypass(slug) => key.BypassKey? && (slug == "" || slug == key.slug)
    case _ => false
  }

  /** Step i queries the database for the key. */
  predicate Loads(db: Database, steps: seq<Step>, i: nat, key: Key) {
    && i < |steps|
    && steps[i].LockedLookup?
    && KeyOf(steps[i].ask) == key
    && !Fresh(Find(Run(db, steps[..i]).cache, key), steps[i].now)
  }

  /** Step i is the last one to load the key, and nothing has cleared the key since. */
  ghost predicate LastLoad(db: Database, steps: seq<Step>, i: nat, key: Key) {
    Loads(db, steps, i, key) && forall j: nat | i < j < |steps| :: !Clears(steps[j], key) && !Loads(db, steps, j, key)
  }

  /** The entry is the one that step i loaded, and nothing has cleared or replaced it since. */
  ghost predicate LoadedBy(db: Database, steps: seq<Step>, i: nat, key: Key, entry: Entry) {
    && Loads(db, steps, i, key)
    && entry.expires == Some(steps[i].done + Ttl(key))
    && (entry.answer == if steps[i].ok then Query(Run(db, steps[..i]).db, steps[i].ask)
                        else OnError(Run(db, steps[..i]).cache, key))
    && LastLoad(db, steps, i, key)
  }

  lemma FindPut(c: Cache, key: Key, key': Key, entry: Entry)
    ensures Find(Put(c, key, entry), key') == if key == key' then Some(entry) else Find(c, key')
  {
  }

  lemma StepKeepsEntry(w: World, step: Step, key: Key)
    ensures var entry := Find(Apply(w, step).cache, key);
            && (Clears(step, key) ==> entry.None? || entry.value.expires.None?)
            && (entry == Find(w.cache, key)
                || Clears(step, key)
                || (step.LockedLookup? && KeyOf(step.ask) == key && !Fresh(Find(w.cache, key), step.now)))
  {
    if step.LockedLookup? && !Fresh(Find(w.cache, KeyOf(step.ask)), step.now) {
      var k := KeyOf(step.ask);
      var answer := if step.ok then Query(w.db, step.ask) else OnError(w.cache, k);
      FindPut(w.cache, k, key, Entry(answer, Some(step.done + Ttl(k))));
    }
  }

  lemma LoadsBefore(db: Database, steps: seq<Step>, n: nat, i: nat, key: Key)
    requires i < n <= |steps|
    ensures Loads(db, steps[..n], i, key) <==> Loads(db, steps, i, key)
  {
    assert steps[..n][..i] == steps[..i] && steps[..n][i] == steps[i];
  }

  lemma LoadedBefore(db: Database, steps: seq<Step>, i: nat, key: Key, entry: Entry)
    requires steps != [] && LoadedBy(db, steps[..|steps| - 1], i, key, entry)
    requires !Clears(steps[|steps| - 1], key) && !Loads(db, steps, |steps| - 1, key)
    ensures LoadedBy(db, steps, i, key, entry)
  {
    var before := steps[..|steps| - 1];
    assert before[..i] == steps[..i] && before[i] == steps[i];
    forall j: nat | i < j < |steps|
      ensures !Clears(steps[j], key) && !Loads(db, steps, j, key)
    {
      if j < |before| {
        assert before[..j] == steps[..j] && before[j] == steps[j];
        assert !Clears(before[j], key) && !Loads(db, before, j, key);
      }
    }
  }

  lemma JustLoaded(db: Database, steps: seq<Step>, key: Key)
    requires steps != [] && Loads(db, steps, |steps| - 1, key)
    ensures Find(Run(db, steps).cache, key).Some?
    ensures LoadedBy(db, steps, |steps| - 1, key, Find(Run(db, steps).cache, key).value)
  {
  }

  /** Every entry that can still be served comes from the last load of its key, after which nothing
      cleared it. */
  lemma {:induction false} EntriesAreLoaded(db: Database, steps: seq<Step>, key: Key) returns (i: nat)
    requires Find(Run(db, steps).cache, key).Some? && Find(Run(db, steps).cache, key).value.expires.Some?
    ensures LoadedBy(db, steps, i, key, Find(Run(db, steps).cache, key).value)
  {
    var before, step := steps[..|steps| - 1], steps[|steps| - 1];
    StepKeepsEntry(Run(db, before), step, key);
    if Loads(db, steps, |steps| - 1, key) {
      JustLoaded(db, steps, key);
      i := |steps| - 1;
    } else {
      i := EntriesAreLoaded(db, before, key);
      LoadedBefore(db, steps, i, key, Find(Run(db, steps).cache, key).value);
    }
  }

  // ---------------------------------------------------------------- what a lookup returns

  /** The load that an entry comes from succeeded and was made for this very question; but for a
      channel asked for under another owner, the key says the latter already. */
  ghost predicate LoadAnswers(db: Database, steps: seq<Step>, ask: Ask) {
    forall i: nat | LastLoad(db, steps, i, KeyOf(ask)) :: steps[i].ok && steps[i].ask == ask
  }

  /** The database as it was after the first i steps. */
  function DatabaseAt(db: Database, steps: seq<Step>, i: nat): Database
    requires i <= |steps|
  {
    Run(db, steps[..i]).db
  }

  /** A hit, on the fast path or under the lock, answers with the query's result on a database state
      that is no older than the last invalidation of the key, and that was loaded less than the
      entry's time to live ago. */
  lemma AnswersAreRecent(db: Database, steps: seq<Step>, ask: Ask, now: int)
    requires Fresh(Find(Run(db, steps).cache, KeyOf(ask)), now) && LoadAnswers(db, steps, ask)
    ensures exists i: nat | LastLoad(db, steps, i, KeyOf(ask)) ::
              && Find(Run(db, steps).cache, KeyOf(ask)).value.answer == Query(DatabaseAt(db, steps, i), ask)
              && now < steps[i].done + (if ask.ForBypass? then 15 else 30)
              && forall j | i < j < |steps| :: !Clears(steps[j], KeyOf(ask))
  {
    var i := EntriesAreLoaded(db, steps, KeyOf(ask));
    assert steps[i].ask == ask;
  }

  /** What a load has put into the cache can be served for exactly 30 seconds, a bypass for 15, unless the
      key is cleared or loaded again. */
  lemma {:induction false} ServedUntilExpiry(db: Database, steps: seq<Step>, ask: Ask, i: nat, now: int)
    requires LastLoad(db, steps, i, KeyOf(ask))
    ensures Fresh(Find(Run(db, steps).cache, KeyOf(ask)), now)
            <==> now < steps[i].done + (if ask.ForBypass? then 15 else 30)
    decreases |steps|
  {
    var n, key := |steps| - 1, KeyOf(ask);
    if i == n {
      JustLoaded(db, steps, key);
    } else {
      var before := steps[..n];
      LastLoadBefore(db, steps, i, key);
      ServedUntilExpiry(db, before, ask, i, now);
      assert !Clears(steps[n], key) && !Loads(db, steps, n, key);
      StepKeepsEntry(Run(db, before), steps[n], key);
    }
  }

  /** Unless the key is cleared, it is loaded at most once in 30 seconds, a bypass in 15. */
  lemma {:induction false} LoadsAreApart(db: Database, steps: seq<Step>, ask: Ask, i: nat, j: nat)
    requires i < j < |steps| && LastLoad(db, steps[..j], i, KeyOf(ask)) && Loads(db, steps, j, KeyOf(ask))
    ensures steps[j].now >= steps[i].done + if ask.ForBypass? then 15 else 30
  {
    ServedUntilExpiry(db, steps[..j], ask, i, steps[j].now);
  }

  lemma LastLoadBefore(db: Database, steps: seq<Step>, i: nat, key: Key)
    requires LastLoad(db, steps, i, key) && i < |steps| - 1
    ensures LastLoad(db, steps[..|steps| - 1], i, key)
  {
    var before := steps[..|steps| - 1];
    LoadsBefore(db, steps, |steps| - 1, i, key);
    forall j: nat | i < j < |before|
      ensures !Clears(before[j], key) && !Loads(db, before, j, key)
    {
      LoadsBefore(db, steps, |steps| - 1, j, key);
      assert !Clears(steps[j], key) && !Loads(db, steps, j, key);
    }
  }

  /** Whatever other loads do, the answer is that of the last load; of that load only its success and,
      for a channel, its owner are open. */
  lemma AnswerIsTheLoads(db: Database, steps: seq<Step>, ask: Ask, now: int) returns (i: nat)
    requires Fresh(Find(Run(db, steps).cache, KeyOf(ask)), now)
    ensures LastLoad(db, steps, i, KeyOf(ask)) && (!ask.ForChannel? ==> steps[i].ask == ask)
    ensures Find(Run(db, steps).cache, KeyOf(ask)).value.answer
            == if steps[i].ok then Query(DatabaseAt(db, steps, i), steps[i].ask)
               else OnError(Run(db, steps[..i]).cache, KeyOf(ask))
  {
    i := EntriesAreLoaded(db, steps, KeyOf(ask));
  }

  /** The section under the lock always ends with an entry that can be served. */
  lemma LockedAnswers(db: Database, steps: seq<Step>, ask: Ask, now: int, done: int, ok: bool)
    requires now <= done
    ensures var w := Run(db, steps + [LockedLookup(ask, now, done, ok)]);
            Fresh(Find(w.cache, KeyOf(ask)), now)
  {
    var longer, key := steps + [LockedLookup(ask, now, done, ok)], KeyOf(ask);
    assert longer[..|steps|] == steps;
    var w := Run(db, steps);
    if !Fresh(Find(w.cache, key), now) {
      FindPut(w.cache, key, key, Entry(if ok then Query(w.db, ask) else OnError(w.cache, key), Some(done + Ttl(key))));
    }
  }

  predicate NoWrites(steps: seq<Step>) {
    forall i | 0 <= i < |steps| :: !steps[i].Write?
  }

  lemma {:induction false} OnlyWritesChangeTheDatabase(db: Database, steps: seq<Step>, i: nat)
    requires i <= |steps| && NoWrites(steps[i..])
    ensures Run(db, steps).db == DatabaseAt(db, steps, i)
    decreases |steps|
  {
    if i == |steps| {
      assert steps[..i] == steps;
    } else {
      var n := |steps| - 1;
      assert steps[i..][n - i] == steps[n];
      assert steps[..n][i..] == steps[i..][..n - i];
      assert steps[..n][..i] == steps[..i];
      OnlyWritesChangeTheDatabase(db, steps[..n], i);
    }
  }

  // ---------------------------------------------------------------- the global set

  /** The last load of the global set that succeeded. */
  function LastSuccess(db: Database, steps: seq<Step>): (last: Option<nat>)
    ensures last.Some? ==> last.value < |steps|
  {
    if steps == [] then None
    else
      var n := |steps| - 1;
      if Loads(db, steps, n, AllKey) && steps[n].ok then Some(n) else LastSuccess(db, steps[..n])
  }

  lemma {:induction false} LastSuccessIsLast(db: Database, steps: seq<Step>)
    ensures LastSuccess(db, steps).Some? ==>
              var last := LastSuccess(db, steps).value;
              Loads(db, steps, last, AllKey) && steps[last].ok
    ensures forall i: nat | i < |steps| && Loads(db, steps, i, AllKey) && steps[i].ok ::
              LastSuccess(db, steps).Some? && i <= LastSuccess(db, steps).value
  {
    if steps != [] {
      var n := |steps| - 1;
      LastSuccessIsLast(db, steps[..n]);
      forall i: nat | i < n
        ensures Loads(db, steps[..n], i, AllKey) <==> Loads(db, steps, i, AllKey)
        ensures steps[..n][i] == steps[i]
      {
        LoadsBefore(db, steps, n, i, AllKey);
      }
    }
  }

  lemma GlobalStep(w: World, step: Step)
    ensures Apply(w, step).cache.all.answer
            == if step.LockedLookup? && step.ask.Everyone? && step.ok && !Fresh(Some(w.cache.all), step.now)
               then Query(w.db, Everyone) else w.cache.all.answer
  {
  }

  /** The global set is at all times the query's result at the last load that succeeded, fresh or not,
      whatever was written, invalidated or tried in vain since; before the first one it is empty. */
  lemma {:induction false} GlobalIsLastSuccess(db: Database, steps: seq<Step>)
    ensures Run(db, steps).cache.all.answer
            == match LastSuccess(db, steps)
               case None => Origins({})
               case Some(i) => Query(DatabaseAt(db, steps, i), Everyone)
  {
    if steps != [] {
      var n := |steps| - 1;
      GlobalIsLastSuccess(db, steps[..n]);
      GlobalStep(Run(db, steps[..n]), steps[n]);
      if LastSuccess(db, steps[..n]).Some? {
        assert steps[..n][..LastSuccess(db, steps[..n]).value] == steps[..LastSuccess(db, steps[..n]).value];
      }
    }
  }

  /** Some load of the global set from step v on succeeded. */
  ghost predicate SucceededSince(db: Database, steps: seq<Step>, v: nat) {
    exists i: nat :: v <= i < |steps| && Loads(db, steps, i, AllKey) && steps[i].ok
  }

  lemma NoWritesFrom(steps: seq<Step>, v: nat, i: nat)
    requires v <= i <= |steps| && NoWrites(steps[v..])
    ensures NoWrites(steps[..i][v..]) && NoWrites(steps[i..])
  {
    assert forall k | v <= k < |steps| :: steps[v..][k - v] == steps[k];
  }

  lemma DatabaseSince(db: Database, steps: seq<Step>, v: nat, i: nat)
    requires v <= i <= |steps| && NoWrites(steps[v..])
    ensures DatabaseAt(db, steps, i) == DatabaseAt(db, steps, v)
  {
    NoWritesFrom(steps, v, i);
    OnlyWritesChangeTheDatabase(db, steps[..i], v);
    assert steps[..i][..v] == steps[..v];
  }

  lemma {:induction false} SamePast(db: Database, steps: seq<Step>, v: nat)
    requires v <= |steps| && !SucceededSince(db, steps, v)
    ensures LastSuccess(db, steps) == LastSuccess(db, steps[..v])
    decreases |steps|
  {
    if v < |steps| {
      var n := |steps| - 1;
      forall i: nat | v <= i < n
        ensures !(Loads(db, steps[..n], i, AllKey) && steps[..n][i].ok)
      {
        LoadsBefore(db, steps, n, i, AllKey);
      }
      SamePast(db, steps[..n], v);
      assert steps[..n][..v] == steps[..v];
    } else {
      assert steps[..v] == steps;
    }
  }

  /** With no write since step v the global set shows the database exactly when a load since then has
      succeeded, or it happened to show it at v already. */
  lemma {:induction false} GlobalWriteVisible(db: Database, steps: seq<Step>, v: nat)
    requires v <= |steps| && NoWrites(steps[v..])
    ensures Run(db, steps).cache.all.answer == Query(DatabaseAt(db, steps, v), Everyone)
            <==> SucceededSince(db, steps, v)
                 || Run(db, steps[..v]).cache.all.answer == Query(DatabaseAt(db, steps, v), Everyone)
  {
    GlobalIsLastSuccess(db, steps);
    if SucceededSince(db, steps, v) {
      LastSuccessIsLast(db, steps);
      DatabaseSince(db, steps, v, LastSuccess(db, steps).value);
    } else {
      SamePast(db, steps, v);
      GlobalIsLastSuccess(db, steps[..v]);
      if LastSuccess(db, steps).Some? {
        var i := LastSuccess(db, steps).value;
        assert steps[..v][..i] == steps[..i];
      }
    }
  }

  // ---------------------------------------------------------------- a handler's write

  /** The enabled origins of one channel. */
  function Own(db: Database, channel: string): set<string> {
    set r | r in db.origins && r.enabled && r.channel == channel :: r.origin
  }

  /** The enabled origins that an owner has for all of his channels. */
  function Wide(db: Database, owner: string): set<string> {
    set r | r in db.origins && r.enabled && r.channel == "" && r.owner == owner :: r.origin
  }

  lemma ChannelQuery(db: Database, channel: string, owner: string)
    ensures Query(db, ForChannel(channel, owner)) == Origins(Own(db, channel) + Wide(db, owner))
  {
    var rows := set r | r in db.origins && r.enabled
                        && (r.channel == channel || (r.channel == "" && r.owner == owner)) :: r.origin;
    assert rows == Own(db, channel) + Wide(db, owner);
  }

  /** A row that a question is about. */
  predicate Concerns(r: AllowedOrigin, ask: Ask) {
    match ask
    case Everyone => true
    case ForOwner(owner) => r.owner == owner
    case ForChannel(channel, owner) => r.channel == channel || (r.channel == "" && r.owner == owner)
    case ForBypass(_) => false
  }

  /** A query finds exactly the origins of the enabled rows that it is about. */
  lemma QueryFindsRows(db: Database, ask: Ask, origin: string)
    requires !ask.ForBypass?
    ensures origin in Query(db, ask).origins
            <==> exists r :: r in db.origins && r.enabled && r.origin == origin && Concerns(r, ask)
  {
  }

  /** The right answer is none: no enabled row, or no bypass. */
  predicate NothingToFind(db: Database, ask: Ask) {
    && (forall r | r in db.origins && r.enabled :: !Concerns(r, ask))
    && (ask.ForBypass? ==> ask.slug !in db.bypass || !db.bypass[ask.slug])
  }

  /** What a failed load answers, but for the global set. */
  function Nothing(ask: Ask): Answer {
    if ask.ForBypass? then Bypass(false) else Origins({})
  }

  lemma NothingIsRight(db: Database, ask: Ask)
    ensures Query(db, ask) == Nothing(ask) <==> NothingToFind(db, ask)
  {
    forall r | r in db.origins && r.enabled && Concerns(r, ask)
      ensures Query(db, ask) != Nothing(ask)
    {
      assert r.origin in Query(db, ask).origins;
    }
    if NothingToFind(db, ask) && !ask.ForBypass? {
      assert Query(db, ask).origins == {};
    }
  }

  /** The last load of the key was made behind step v, and answers the question on this database: it
      succeeded, for a channel with origins that are those of the owner now asked for, or it failed
      where there is nothing to find. */
  ghost predicate LoadedRight(db: Database, steps: seq<Step>, v: nat, written: Database, ask: Ask) {
    exists i: nat | LastLoad(db, steps, i, KeyOf(ask)) ::
      && v <= i
      && if steps[i].ok
         then ask.ForChannel? ==>
                Own(written, ask.channel) + Wide(written, steps[i].ask.owner)
                == Own(written, ask.channel) + Wide(written, ask.owner)
         else NothingToFind(written, ask)
  }

  /** The exact condition under which the cache shows a database that has not been written since step
      v, where the key was cleared. */
  lemma {:induction false} ClearedKeyShows(db: Database, steps: seq<Step>, v: nat, ask: Ask, now: int)
    requires 0 < v <= |steps| && Clears(steps[v - 1], KeyOf(ask)) && NoWrites(steps[v..])
    requires Fresh(Find(Run(db, steps).cache, KeyOf(ask)), now)
    ensures var written := DatabaseAt(db, steps, v);
            Find(Run(db, steps).cache, KeyOf(ask)).value.answer == Query(written, ask)
            <==> if ask.Everyone?
                 then SucceededSince(db, steps, v) || Run(db, steps[..v]).cache.all.answer == Query(written, ask)
                 else LoadedRight(db, steps, v, written, ask)
  {
    var written := DatabaseAt(db, steps, v);
    if ask.Everyone? {
      GlobalWriteVisible(db, steps, v);
    } else {
      var i := EntriesAreLoaded(db, steps, KeyOf(ask));
      assert i >= v;
      DatabaseSince(db, steps, v, i);
      NothingIsRight(written, ask);
      if ask.ForChannel? {
        ChannelQuery(written, ask.channel, ask.owner);
        ChannelQuery(written, ask.channel, steps[i].ask.owner);
      }
      OneLastLoad(db, steps, KeyOf(ask), i);
    }
  }

  lemma OneLastLoad(db: Database, steps: seq<Step>, key: Key, i: nat)
    requires LastLoad(db, steps, i, key)
    ensures forall j: nat | LastLoad(db, steps, j, key) :: j == i
  {
  }

  /** A handler writes and then clears a key: the set of origins with invalidate, a channel's flag with
      invalidateSlugBypass.  From then on, until somebody writes again and however lookups interleave, a
      lookup shows the write exactly when the entry it finds was loaded right; the global set, exactly
      when one of its loads since then succeeded or it was right before. */
  lemma {:induction false} WritesAreVisible(db: Database, before: seq<Step>, written: Database, between: seq<Step>,
                                            clear: Step, after: seq<Step>, ask: Ask, now: int)
    requires NoWrites(between) && NoWrites(after)
    requires if ask.ForBypass? then clear == InvalidateBypass("") || clear == InvalidateBypass(ask.slug)
             else clear == Invalidate
    requires var steps := before + [Write(written)] + between + [clear] + after;
             Fresh(Find(Run(db, steps).cache, KeyOf(ask)), now)
    ensures var steps, v := before + [Write(written)] + between + [clear] + after, |before| + |between| + 2;
            Find(Run(db, steps).cache, KeyOf(ask)).value.answer == Query(written, ask)
            <==> if ask.Everyone?
                 then SucceededSince(db, steps, v) || Run(db, steps[..v]).cache.all.answer == Query(written, ask)
                 else LoadedRight(db, steps, v, written, ask)
  {
    var cleared := before + [Write(written)] + between + [clear];
    var steps, v := cleared + after, |cleared|;
    assert steps[..v] == cleared && steps[v..] == after && steps[v - 1] == clear;
    WrittenBefore(db, before, written, between, clear);
    ClearedKeyShows(db, steps, v, ask, now);
  }

  lemma WrittenBefore(db: Database, before: seq<Step>, written: Database, between: seq<Step>, clear: Step)
    requires NoWrites(between) && !clear.Write?
    ensures Run(db, before + [Write(written)] + between + [clear]).db == written
  {
    var w := before + [Write(written)];
    var steps := w + between + [clear];
    assert steps[|w|..] == between + [clear] && steps[..|w|] == w && w[..|before|] == before;
    OnlyWritesChangeTheDatabase(db, steps, |w|);
  }

  /** Clearing origins leaves the bypass flags alone, clearing flags leaves the origins alone, and
      clearing one flag leaves the others alone. */
  lemma ClearingIsLocal(w: World, ask: Ask, clear: Step)
    requires if ask.ForBypass? then clear == Invalidate || (clear.InvalidateBypass? && clear.slug !in {"", ask.slug})
             else clear.InvalidateBypass?
    ensures Find(Apply(w, clear).cache, KeyOf(ask)) == Find(w.cache, KeyOf(ask))
  {
  }

  // ---------------------------------------------------------------- failed loads

  /** A failed last load answers nothing, whatever the database holds; the global set is then still the
      one of the last load that succeeded. */
  lemma {:induction false} FailedLoad(db: Database, steps: seq<Step>, ask: Ask, now: int, i: nat)
    requires Fresh(Find(Run(db, steps).cache, KeyOf(ask)), now)
    requires LastLoad(db, steps, i, KeyOf(ask)) && !steps[i].ok
    ensures var answer := Find(Run(db, steps).cache, KeyOf(ask)).value.answer;
            if !ask.Everyone? then answer == Nothing(ask)
            else answer == match LastSuccess(db, steps)
                           case None => Origins({})
                           case Some(j) => Query(DatabaseAt(db, steps, j), Everyone)
  {
    var j := EntriesAreLoaded(db, steps, KeyOf(ask));
    OneLastLoad(db, steps, KeyOf(ask), j);
    GlobalIsLastSuccess(db, steps);
  }

  lemma RunStep(db: Database, steps: seq<Step>, step: Step)
    ensures Run(db, steps + [step]) == Apply(Run(db, steps), step)
  {
    assert (steps + [step])[..|steps|] == steps;
  }

  /** A deleted origin comes back: it is loaded, deleted and invalidated, and the next load fails. */
  lemma DeletedOriginComesBack(origin: string, owner: string)
    ensures var full := Database({AllowedOrigin(origin, owner, "", true)}, map[]);
            var empty := Database({}, map[]);
            var steps := [LockedLookup(Everyone, 0, 0, true), Write(empty), Invalidate,
                          LockedLookup(Everyone, 1, 1, false)];
            && Fresh(Some(Run(full, steps).cache.all), 1)
            && Run(full, steps).cache.all.answer == Origins({origin})
            && Query(Run(full, steps).db, Everyone) == Origins({})
  {
    var row := AllowedOrigin(origin, owner, "", true);
    var full, empty := Database({row}, map[]), Database({}, map[]);
    var load, again := LockedLookup(Everyone, 0, 0, true), LockedLookup(Everyone, 1, 1, false);
    var none: seq<Step> := [];
    RunStep(full, none, load);
    RunStep(full, none + [load], Write(empty));
    RunStep(full, none + [load] + [Write(empty)], Invalidate);
    RunStep(full, none + [load] + [Write(empty)] + [Invalidate], again);
    assert none + [load] + [Write(empty)] + [Invalidate] + [again] == [load, Write(empty), Invalidate, again];
    assert (set r | r in full.origins && r.enabled :: r.origin) == {origin} by {
      assert row in full.origins;
    }
  }

  // ---------------------------------------------------------------- a channel's owner

  /** The entry of a channel does not remember its owner.  In every run a lookup under any owner gets
      what the last load found for its own owner.  So it is right exactly when the channel's own origins
      then, with those that the load's owner had for all of his channels, are the channel's own origins
      now with those of the owner asked for. */
  lemma {:induction false} OwnerIsForgotten(db: Database, steps: seq<Step>, channel: string, owner: string, now: int)
    returns (i: nat)
    requires Fresh(Find(Run(db, steps).cache, ChannelKey(channel)), now)
    ensures LastLoad(db, steps, i, ChannelKey(channel)) && steps[i].ask.ForChannel? && steps[i].ask.channel == channel
    ensures var past, present := DatabaseAt(db, steps, i), Run(db, steps).db;
            var loaded := if steps[i].ok then Own(past, channel) + Wide(past, steps[i].ask.owner) else {};
            var answer := Find(Run(db, steps).cache, ChannelKey(channel)).value.answer;
            && answer == Origins(loaded)
            && (answer == Query(present, ForChannel(channel, owner))
                <==> loaded == Own(present, channel) + Wide(present, owner))
  {
    i := EntriesAreLoaded(db, steps, ChannelKey(channel));
    ChannelQuery(DatabaseAt(db, steps, i), channel, steps[i].ask.owner);
    ChannelQuery(Run(db, steps).db, channel, owner);
  }

  /** What deleting a user leaves of allowed_origins; his channels lose their owner. */
  function WithoutUser(db: Database, user: string): Database {
    db.(origins := set r | r in db.origins && r.owner != user)
  }

  /** A user is deleted, which invalidates nothing.  For half a minute his channel, now without an
      owner, still answers with his origins; that is right exactly when the rows that remain for the
      channel offer the same. */
  lemma DeletedUserLingers(db: Database, channel: string, user: string, loaded: int, done: int, now: int, later: int,
                           ok: bool)
    requires user != "" && loaded <= done && now < done + 30
    ensures var steps := [LockedLookup(ForChannel(channel, user), loaded, done, true), Write(WithoutUser(db, user)),
                          LockedLookup(ForChannel(channel, ""), now, later, ok)];
            var w := Run(db, steps);
            && Fresh(Find(w.cache, ChannelKey(channel)), now)
            && Find(w.cache, ChannelKey(channel)).value.answer == Origins(Own(db, channel) + Wide(db, user))
            && (Find(w.cache, ChannelKey(channel)).value.answer == Query(w.db, ForChannel(channel, ""))
                <==> Own(db, channel) + Wide(db, user) == Own(WithoutUser(db, user), channel) + Wide(db, ""))
  {
    var load := LockedLookup(ForChannel(channel, user), loaded, done, true);
    var again := LockedLookup(ForChannel(channel, ""), now, later, ok);
    var none: seq<Step>, gone := [], WithoutUser(db, user);
    RunStep(db, none, load);
    RunStep(db, none + [load], Write(gone));
    RunStep(db, none + [load] + [Write(gone)], again);
    assert none + [load] + [Write(gone)] + [again] == [load, Write(gone), again];
    ChannelQuery(db, channel, user);
    ChannelQuery(gone, channel, "");
    assert Wide(gone, "") == Wide(db, "");
  }

  /** With one row, of the deleted user, the answer is wrong. */
  lemma DeletedUsersOriginLingers(channel: string, user: string, origin: string)
    requires user != "" && channel != ""
    ensures var db := Database({AllowedOrigin(origin, user, "", true)}, map[]);
            var steps := [LockedLookup(ForChannel(channel, user), 0, 0, true), Write(WithoutUser(db, user)),
                          LockedLookup(ForChannel(channel, ""), 1, 1, true)];
            && Find(Run(db, steps).cache, ChannelKey(channel)).value.answer == Origins({origin})
            && Query(Run(db, steps).db, ForChannel(channel, "")) == Origins({})
  {
    var row := AllowedOrigin(origin, user, "", true);
    var db := Database({row}, map[]);
    DeletedUserLingers(db, channel, user, 0, 0, 1, 1, true);
    assert row in db.origins;
    assert Own(db, channel) == {} && Wide(db, user) == {origin};
    var load := LockedLookup(ForChannel(channel, user), 0, 0, true);
    var again := LockedLookup(ForChannel(channel, ""), 1, 1, true);
    var gone := WithoutUser(db, user);
    assert [load, Write(gone), again][..2] == [load, Write(gone)];
    assert gone.origins == {};
    ChannelQuery(gone, channel, "");
    assert Own(gone, channel) == {} && Wide(gone, "") == {};
    RunStep(db, [load], Write(gone));
    assert [load] + [Write(gone)] == [load, Write(gone)];
    RunStep(db, [load, Write(gone)], again);
    assert [load, Write(gone)] + [again] == [load, Write(gone), again];
  }

  // ---------------------------------------------------------------- the cache's own code

  class OriginCache {
    var all: Entry
    var owners: map<string, Entry>
    var channels: map<string, Entry>
    var slugBypass: map<string, Entry>

    ghost function State(): Cache
      reads this
    {
      Cache(all, owners, channels, slugBypass)
    }

    /** Each field holds answers of its own kind. */
    ghost predicate Valid()
      reads this
    {
      && all.answer.Origins?
      && (forall k | k in owners :: owners[k].answer.Origins? && owners[k].expires.Some?)
      && (forall k | k in channels :: channels[k].answer.Origins? && channels[k].expires.Some?)
      && (forall k | k in slugBypass :: slugBypass[k].answer.Bypass? && slugBypass[k].expires.Some?)
    }

    constructor ()
      ensures Valid() && State() == EMPTY
    {
      all := Entry(Origins({}), None);
      owners, channels, slugBypass := map[], map[], map[];
    }

    /** The read-locked section of get. */
    method GetFast(now: int) returns (hit: Option<set<string>>)
      requires Valid()
      ensures hit == if Fresh(Find(State(), AllKey), now) then Some(all.answer.origins) else None
    {
      if all.expires.Some? && now < all.expires.value {
        return Some(all.answer.origins);
      }
      return None;
    }

    /** The locked section of get. */
    method GetLocked(db: Database, now: int, done: int, ok: bool) returns (r: set<string>)
      requires Valid()
      modifies this`all
      ensures Valid() && State() == Locked(old(State()), db, Everyone, now, done, ok)
      ensures Origins(r) == all.answer
    {
      if all.expires.Some? && now < all.expires.value {
        return all.answer.origins;
      }
      if ok {
        all := all.(answer := Query(db, Everyone));
      }
      all := all.(expires := Some(done + 30));
      return all.answer.origins;
    }

    method GetForOwnerFast(owner: string, now: int) returns (hit: Option<set<string>>)
      requires Valid()
      ensures hit == if owner == "" then Some({})
                     else if Fresh(Find(State(), OwnerKey(owner)), now) then Some(owners[owner].answer.origins)
                     else None
    {
      if owner == "" {
        return Some({});
      }
      if owner in owners && now < owners[owner].expires.value {
        return Some(owners[owner].answer.origins);
      }
      return None;
    }

    method GetForOwnerLocked(db: Database, owner: string, now: int, done: int, ok: bool) returns (r: set<string>)
      requires Valid() && owner != ""
      modifies this`owners
      ensures Valid() && State() == Locked(old(State()), db, ForOwner(owner), now, done, ok)
      ensures owner in owners && Origins(r) == owners[owner].answer
    {
      if owner in owners && now < owners[owner].expires.value {
        return owners[owner].answer.origins;
      }
      r := {};
      if ok {
        r := Query(db, ForOwner(owner)).origins;
      }
      owners := owners[owner := Entry(Origins(r), Some(done + 30))];
    }

    /** Without a channel the owner's set is asked for. */
    method GetForChannelFast(channel: string, owner: string, now: int) returns (hit: Option<set<string>>)
      requires Valid()
      ensures hit == if channel == "" && owner == "" then Some({})
                     else
                       var key := if channel == "" then OwnerKey(owner) else ChannelKey(channel);
                       if Fresh(Find(State(), key), now) then Some(Find(State(), key).value.answer.origins) else None
    {
      if channel == "" {
        hit := GetForOwnerFast(owner, now);
        return;
      }
      if channel in channels && now < channels[channel].expires.value {
        return Some(channels[channel].answer.origins);
      }
      return None;
    }

    method GetForChannelLocked(db: Database, channel: string, owner: string, now: int, done: int, ok: bool)
      returns (r: set<string>)
      requires Valid() && channel != ""
      modifies this`channels
      ensures Valid() && State() == Locked(old(State()), db, ForChannel(channel, owner), now, done, ok)
      ensures channel in channels && Origins(r) == channels[channel].answer
    {
      if channel in channels && now < channels[channel].expires.value {
        return channels[channel].answer.origins;
      }
      r := {};
      if ok {
        r := Query(db, ForChannel(channel, owner)).origins;
      }
      channels := channels[channel := Entry(Origins(r), Some(done + 30))];
    }

    method ChannelBypassFast(slug: string, now: int) returns (hit: Option<bool>)
      requires Valid()
      ensures hit == if slug == "" then Some(false)
                     else if Fresh(Find(State(), BypassKey(slug)), now) then Some(slugBypass[slug].answer.bypass)
                     else None
    {
      if slug == "" {
        return Some(false);
      }
      if slug in slugBypass && now < slugBypass[slug].expires.value {
        return Some(slugBypass[slug].answer.bypass);
      }
      return None;
    }

    method ChannelBypassLocked(db: Database, slug: string, now: int, done: int, ok: bool) returns (r: bool)
      requires Valid() && slug != ""
      modifies this`slugBypass
      ensures Valid() && State() == Locked(old(State()), db, ForBypass(slug), now, done, ok)
      ensures slug in slugBypass && Bypass(r) == slugBypass[slug].answer
    {
      if slug in slugBypass && now < slugBypass[slug].expires.value {
        return slugBypass[slug].answer.bypass;
      }
      r := false;
      if ok {
        r := Query(db, ForBypass(slug)).bypass;
      }
      slugBypass := slugBypass[slug := Entry(Bypass(r), Some(done + 15))];
    }

    method Invalidate()
      requires Valid()
      modifies this`all, this`owners, this`channels
      ensures Valid() && State() == Invalidated(old(State()))
    {
      all := all.(expires := None);
      owners := map[];
      channels := map[];
    }

    method InvalidateSlugBypass(slug: string)
      requires Valid()
      modifies this`slugBypass
      ensures Valid() && State() == BypassInvalidated(old(State()), slug)
    {
      if slug == "" {
        slugBypass := map[];
        return;
      }
      slugBypass := slugBypass - {slug};
    }
  }
}

/** The relay's registry and playlist cache over time: the fetch branch of ServePlaylist,
    runIngestCycle and PurgeChannel of relay/manager.go. */
module Relays {
  import opened Text
  import opened UriAttributes
  import opened Links
  import opened Signers
  import opened Requests
  import opened Tokens
  import opened Rewriter
  import opened PlaybackChain
  import opened Channels

  /** What RewritePlaylist makes of a source: whether it succeeds, its text, and the URLs that it
      registers. */
  datatype Reading = Reading(ok: bool, body: string, urls: seq<string>)

  datatype Cached = Cached(body: string, expires: int)

  datatype Relay = Relay(assets: Assets, playlists: map<string, Cached>)

  const EMPTY := Relay(map[], map[])

  // ---------------------------------------------------------------- critical sections

  function Registered(signer: Signer, s: Relay, slug: string, urls: seq<string>): Relay {
    s.(assets := RegisterAll(signer, s.assets, slug, urls))
  }

  function Publish(s: Relay, slug: string, body: string, expires: int): Relay {
    s.(playlists := s.playlists[slug := Cached(body, expires)])
  }

  /** Only a playlist that could be rewritten is published. */
  function Fetch(signer: Signer, s: Relay, slug: string, reading: Reading, expires: int): Relay {
    var rewritten := Registered(signer, s, slug, reading.urls);
    if reading.ok then Publish(rewritten, slug, reading.body, expires) else rewritten
  }

  /** An ingest cycle registers the assets once more behind the publication. */
  function Ingest(signer: Signer, s: Relay, slug: string, reading: Reading, expires: int): Relay {
    var t := Fetch(signer, s, slug, reading, expires);
    if reading.ok then Registered(signer, t, slug, reading.urls) else t
  }

  function Purge(s: Relay, slug: string): Relay {
    Relay(s.assets - {slug}, s.playlists - {slug})
  }

  /** What a player is sent. */
  function Served(reading: Reading): Option<string> {
    if reading.ok then Some(reading.body) else None
  }

  // ---------------------------------------------------------------- runs

  datatype Step =
    | Fetched(slug: string, reading: Reading, now: int, ttl: int)
    | Ingested(slug: string, reading: Reading, now: int)
    | Purged(slug: string)

  const DAY := 24 * 60 * 60

  /** When the cached playlist stops being fresh. */
  function Expires(step: Step): int
    requires !step.Purged?
  {
    if step.Fetched? then step.now + step.ttl else step.now + DAY
  }

  function Apply(signer: Signer, s: Relay, step: Step): Relay {
    match step
    case Fetched(slug, reading, now, ttl) => Fetch(signer, s, slug, reading, now + ttl)
    case Ingested(slug, reading, now) => Ingest(signer, s, slug, reading, now + DAY)
    case Purged(slug) => Purge(s, slug)
  }

  function Run(signer: Signer, steps: seq<Step>): Relay {
    if steps == [] then EMPTY else Apply(signer, Run(signer, steps[..|steps| - 1]), steps[|steps| - 1])
  }

  /** The last step that published a playlist for the slug, unless the slug has been purged since. */
  function Current(steps: seq<Step>, slug: string): (current: Option<Step>)
    ensures current.Some? ==> !current.value.Purged? && current.value.slug == slug && current.value.reading.ok
  {
    if steps == [] then None
    else
      var last := steps[|steps| - 1];
      if last == Purged(slug) then None
      else if !last.Purged? && last.slug == slug && last.reading.ok then Some(last)
      else Current(steps[..|steps| - 1], slug)
  }

  // ---------------------------------------------------------------- no dangling references

  /** Each of the URLs is registered for the slug, up to a collision of hashes. */
  ghost predicate AllFound(signer: Signer, assets: Assets, slug: string, urls: seq<string>) {
    forall k | 0 <= k < |urls| ::
      && signer.Ref(urls[k]) in Bucket(assets, slug)
      && signer.Ref(AssetSource(assets, slug, signer.Ref(urls[k]))) == signer.Ref(urls[k])
  }

  lemma FoundStays(signer: Signer, assets: Assets, slug: string, urls: seq<string>, slug': string, more: seq<string>)
    requires AllFound(signer, assets, slug, urls)
    ensures AllFound(signer, RegisterAll(signer, assets, slug', more), slug, urls)
  {
    forall k | 0 <= k < |urls|
      ensures var after, ref := RegisterAll(signer, assets, slug', more), signer.Ref(urls[k]);
              ref in Bucket(after, slug) && signer.Ref(AssetSource(after, slug, ref)) == ref
    {
      ReferenceStays(signer, assets, slug, slug', more, signer.Ref(urls[k]));
    }
  }

  lemma FoundOnceRegistered(signer: Signer, assets: Assets, slug: string, urls: seq<string>)
    ensures AllFound(signer, RegisterAll(signer, assets, slug, urls), slug, urls)
  {
    forall k | 0 <= k < |urls|
      ensures var after, ref := RegisterAll(signer, assets, slug, urls), signer.Ref(urls[k]);
              ref in Bucket(after, slug) && signer.Ref(AssetSource(after, slug, ref)) == ref
    {
      RegisteredAreFound(signer, assets, slug, urls, k);
    }
  }

  /** The cached playlist of the slug is this reading, with no link dangling. */
  ghost predicate Serves(signer: Signer, s: Relay, slug: string, reading: Reading, expires: int) {
    && slug in s.playlists
    && s.playlists[slug] == Cached(reading.body, expires)
    && AllFound(signer, s.assets, slug, reading.urls)
  }

  /** The cache holds what the history says and nothing else. */
  ghost predicate Agrees(signer: Signer, s: Relay, slug: string, current: Option<Step>) {
    if current.None? || current.value.Purged? then slug !in s.playlists
    else Serves(signer, s, slug, current.value.reading, Expires(current.value))
  }

  lemma RegisteringKeeps(signer: Signer, s: Relay, slug: string, current: Option<Step>, slug': string,
                         urls: seq<string>)
    requires Agrees(signer, s, slug, current)
    ensures Agrees(signer, Registered(signer, s, slug', urls), slug, current)
  {
    if current.Some? && !current.value.Purged? {
      FoundStays(signer, s.assets, slug, current.value.reading.urls, slug', urls);
    }
  }

  lemma FetchAgrees(signer: Signer, s: Relay, slug: string, current: Option<Step>, step: Step)
    requires Agrees(signer, s, slug, current) && !step.Purged?
    ensures Agrees(signer, Fetch(signer, s, step.slug, step.reading, Expires(step)), slug,
                   if step.slug == slug && step.reading.ok then Some(step) else current)
  {
    RegisteringKeeps(signer, s, slug, current, step.slug, step.reading.urls);
    FoundOnceRegistered(signer, s.assets, slug, step.reading.urls);
  }

  lemma StepAgrees(signer: Signer, s: Relay, slug: string, current: Option<Step>, step: Step)
    requires Agrees(signer, s, slug, current)
    ensures Agrees(signer, Apply(signer, s, step), slug,
                   if step == Purged(slug) then None
                   else if !step.Purged? && step.slug == slug && step.reading.ok then Some(step)
                   else current)
  {
    if !step.Purged? {
      var next := if step.slug == slug && step.reading.ok then Some(step) else current;
      FetchAgrees(signer, s, slug, current, step);
      RegisteringKeeps(signer, Fetch(signer, s, step.slug, step.reading, Expires(step)), slug, next, step.slug,
                       step.reading.urls);
    }
  }

  /** In every run the cached playlist of a slug is the last one published and not purged since, and all
      of its references are registered. */
  lemma {:induction false} RunsAgree(signer: Signer, steps: seq<Step>, slug: string)
    ensures Agrees(signer, Run(signer, steps), slug, Current(steps, slug))
  {
    if steps != [] {
      var n := |steps| - 1;
      RunsAgree(signer, steps[..n], slug);
      StepAgrees(signer, Run(signer, steps[..n]), slug, Current(steps[..n], slug), steps[n]);
    }
  }

  // ---------------------------------------------------------------- what a player finds

  datatype Environment = Environment(signer: Signer, urls: UrlLibrary)

  function Read(env: Environment, slug: string, base: string, source: string): Reading {
    var lines := ScanLines(source);
    Reading(env.urls.parses(base) && Scannable(lines) == |lines|,
            RewriteText(env.signer, env.urls, base, slug, lines),
            if env.urls.parses(base) then Resolved(env.urls, base, lines[..Scannable(lines)]) else [])
  }

  lemma {:induction false} ReadsOk(env: Environment, slug: string, base: string, source: string)
    ensures Read(env, slug, base, source).ok <==> env.urls.parses(base) && AllShort(Split(source, '\n'))
  {
    ScansAll(source);
  }

  lemma {:induction false} ReadsToTheEnd(env: Environment, base: string, source: string)
    requires Scannable(ScanLines(source)) == |ScanLines(source)|
    ensures Resolved(env.urls, base, ScanLines(source)[..Scannable(ScanLines(source))])
            == MapAll(Resolver(env.urls, base), PlaylistLinks(source))
  {
    ghost var lines := ScanLines(source);
    SourceLinksAreLinks(source);
    assert lines[..|lines|] == lines;
  }

  /** A playlist can be rewritten when its URL parses and no line reaches 64 kilobytes; then all of its links
      are read. */
  lemma {:induction false} ReadsAll(env: Environment, slug: string, base: string, source: string)
    ensures Read(env, slug, base, source).ok <==> env.urls.parses(base) && AllShort(Split(source, '\n'))
    ensures Read(env, slug, base, source).ok ==>
              Read(env, slug, base, source).urls == MapAll(Resolver(env.urls, base), PlaylistLinks(source))
  {
    ReadsOk(env, slug, base, source);
    if Scannable(ScanLines(source)) == |ScanLines(source)| {
      ReadsToTheEnd(env, base, source);
    }
  }

  lemma {:induction false} ServedLink(env: Environment, assets: Assets, slug: string, base: string, source: string,
                                      exp: int, sig: string, k: nat)
    requires env.signer.Valid() && IsBytes(slug) && Servable(slug)
    ensures var links := PlaylistLinks(TokenPass(Read(env, slug, base, source).body, exp, sig));
            && |links| == |PlaylistLinks(source)|
            && (k < |links| ==>
                  ServeAsset(env.signer, assets, links[k])
                  == AssetSource(assets, slug, env.signer.Ref(env.urls.resolve(base, PlaylistLinks(source)[k]))))
  {
    ServedLinks(env.signer, env.urls, base, slug, source, exp, sig);
    if k < |PlaylistLinks(source)| {
      ServeSignedUrl(env.signer, assets, slug, env.urls.resolve(base, PlaylistLinks(source)[k]), exp, sig);
    }
  }

  lemma FoundAt(signer: Signer, assets: Assets, slug: string, urls: seq<string>, k: nat)
    requires AllFound(signer, assets, slug, urls) && k < |urls|
    ensures var ref := signer.Ref(urls[k]);
            ref in Bucket(assets, slug) && signer.Ref(AssetSource(assets, slug, ref)) == ref
  {
  }

  /** In every reachable state a slug has a cached playlist exactly when its last publication has not been
      purged since.  Whatever source that was read from: every link that a player finds in the playlist,
      with or without a token, has its reference registered, under a URL that hashes like the source URL
      at that place. */
  lemma {:induction false} NoDanglingReferences(env: Environment, steps: seq<Step>, slug: string, base: string,
                                                source: string, exp: int, sig: string)
    requires env.signer.Valid() && IsBytes(slug) && Servable(slug)
    ensures var s, current := Run(env.signer, steps), Current(steps, slug);
            && (slug in s.playlists <==> current.Some?)
            && (slug in s.playlists && current.value.reading == Read(env, slug, base, source) ==>
                  var links := PlaylistLinks(TokenPass(s.playlists[slug].body, exp, sig));
                  && s.playlists[slug].expires == Expires(current.value)
                  && |links| == |PlaylistLinks(source)|
                  && forall k | 0 <= k < |links| ::
                       var ref := env.signer.Ref(env.urls.resolve(base, PlaylistLinks(source)[k]));
                       && ref in Bucket(s.assets, slug)
                       && ServeAsset(env.signer, s.assets, links[k]) == s.assets[slug][ref]
                       && env.signer.Ref(s.assets[slug][ref]) == ref)
  {
    var s, current := Run(env.signer, steps), Current(steps, slug);
    RunsAgree(env.signer, steps, slug);
    if current.Some? && current.value.reading == Read(env, slug, base, source) {
      ghost var urls := current.value.reading.urls;
      ReadsAll(env, slug, base, source);
      ServedLink(env, s.assets, slug, base, source, exp, sig, 0);
      forall k | 0 <= k < |PlaylistLinks(source)|
        ensures var ref := env.signer.Ref(env.urls.resolve(base, PlaylistLinks(source)[k]));
                && ref in Bucket(s.assets, slug)
                && env.signer.Ref(AssetSource(s.assets, slug, ref)) == ref
                && ServeAsset(env.signer, s.assets, PlaylistLinks(TokenPass(s.playlists[slug].body, exp, sig))[k])
                   == AssetSource(s.assets, slug, ref)
      {
        ServedLink(env, s.assets, slug, base, source, exp, sig, k);
        FoundAt(env.signer, s.assets, slug, urls, k);
      }
    }
  }

  // ---------------------------------------------------------------- what the registry holds

  lemma {:induction false} OnlyRegistered(signer: Signer, assets: Assets, slug: string, urls: seq<string>, ref: string)
    ensures ref in Bucket(RegisterAll(signer, assets, slug, urls), slug)
            <==> ref in Bucket(assets, slug) || exists j :: 0 <= j < |urls| && signer.Ref(urls[j]) == ref
    decreases |urls|
  {
    if urls != [] {
      var first := Register(signer, assets, slug, urls[0]);
      OnlyRegistered(signer, first, slug, urls[1..], ref);
      if j :| 0 <= j < |urls| - 1 && signer.Ref(urls[1..][j]) == ref {
        assert signer.Ref(urls[j + 1]) == ref;
      }
      if j :| 0 <= j < |urls| && signer.Ref(urls[j]) == ref {
        assert j == 0 || signer.Ref(urls[1..][j - 1]) == ref;
      }
    }
  }

  lemma {:induction false} OthersUnregistered(signer: Signer, assets: Assets, slug: string, urls: seq<string>,
                                              other: string)
    requires other != slug
    ensures Bucket(RegisterAll(signer, assets, slug, urls), other) == Bucket(assets, other)
    decreases |urls|
  {
    if urls != [] {
      OthersUnregistered(signer, Register(signer, assets, slug, urls[0]), slug, urls[1..], other);
    }
  }

  /** One of the URLs has this reference. */
  ghost predicate Names(signer: Signer, urls: seq<string>, ref: string) {
    exists j :: 0 <= j < |urls| && signer.Ref(urls[j]) == ref
  }

  /** A fetch or an ingest cycle of the slug that read a URL with this reference. */
  ghost predicate Reads(signer: Signer, step: Step, slug: string, ref: string) {
    !step.Purged? && step.slug == slug && Names(signer, step.reading.urls, ref)
  }

  /** Some element with the first property has none with the second behind it. */
  ghost predicate SinceLast<T>(steps: seq<T>, learns: T -> bool, forgets: T -> bool) {
    exists i :: 0 <= i < |steps| && learns(steps[i]) && forall j | i < j < |steps| :: !forgets(steps[j])
  }

  lemma SinceLastStep<T>(steps: seq<T>, learns: T -> bool, forgets: T -> bool)
    requires steps != []
    ensures var before, last := steps[..|steps| - 1], steps[|steps| - 1];
            SinceLast(steps, learns, forgets)
            <==> learns(last) || (SinceLast(before, learns, forgets) && !forgets(last))
  {
    var n := |steps| - 1;
    var before := steps[..n];
    assert forall j | 0 <= j < n :: before[j] == steps[j];
    if i :| 0 <= i < |before| && learns(before[i]) && forall j | i < j < |before| :: !forgets(before[j]) {
      assert learns(steps[i]);
    }
    if i :| 0 <= i < |steps| && learns(steps[i]) && forall j | i < j < |steps| :: !forgets(steps[j]) {
      assert i < n ==> learns(before[i]);
    }
  }

  lemma RegisteredStep(signer: Signer, s: Relay, step: Step, slug: string, ref: string)
    ensures ref in Bucket(Apply(signer, s, step).assets, slug)
            <==> step != Purged(slug) && (ref in Bucket(s.assets, slug) || Reads(signer, step, slug, ref))
  {
    if !step.Purged? {
      OnlyNamed(signer, s.assets, step.slug, step.reading.urls, slug, ref);
      OnlyNamed(signer, Registered(signer, s, step.slug, step.reading.urls).assets, step.slug, step.reading.urls, slug,
                ref);
    }
  }

  lemma OnlyNamed(signer: Signer, assets: Assets, slug: string, urls: seq<string>, other: string, ref: string)
    ensures ref in Bucket(RegisterAll(signer, assets, slug, urls), other)
            <==> ref in Bucket(assets, other) || (other == slug && Names(signer, urls, ref))
  {
    if other == slug {
      OnlyRegistered(signer, assets, slug, urls, ref);
    } else {
      OthersUnregistered(signer, assets, slug, urls, other);
    }
  }

  /** In every run the registry knows a reference of a slug exactly when some fetch or ingest cycle since
      the slug's last purge read a URL with that hash. */
  lemma {:induction false} RegistryHoldsWhatWasRead(signer: Signer, steps: seq<Step>, slug: string, ref: string)
    ensures ref in Bucket(Run(signer, steps).assets, slug)
            <==> SinceLast(steps, step => Reads(signer, step, slug, ref), step => step == Purged(slug))
  {
    if steps != [] {
      var n := |steps| - 1;
      var learns, forgets := step => Reads(signer, step, slug, ref), step => step == Purged(slug);
      RegistryHoldsWhatWasRead(signer, steps[..n], slug, ref);
      RegisteredStep(signer, Run(signer, steps[..n]), steps[n], slug, ref);
      SinceLastStep(steps, learns, forgets);
    }
  }

  // ---------------------------------------------------------------- a purge inside a step

  /** Every registration is a critical section of its own; here a purge falls behind the first k. */
  function Interrupted(signer: Signer, assets: Assets, slug: string, urls: seq<string>, k: nat): Assets
    requires k <= |urls|
  {
    RegisterAll(signer, Purge(Relay(RegisterAll(signer, assets, slug, urls[..k]), map[]), slug).assets, slug, urls[k..])
  }

  /** The reference of URL i is registered once more at or behind position k. */
  ghost predicate Repeated(signer: Signer, urls: seq<string>, i: nat, k: nat)
    requires i < |urls|
  {
    exists j :: k <= j < |urls| && signer.Ref(urls[j]) == signer.Ref(urls[i])
  }

  /** Of the URLs registered before the purge, exactly those survive that are registered again. */
  lemma {:induction false} PurgeBetweenRegistrations(signer: Signer, assets: Assets, slug: string, urls: seq<string>,
                                                     k: nat)
    requires k <= |urls|
    ensures AllFound(signer, Interrupted(signer, assets, slug, urls, k), slug, urls)
            <==> forall i | 0 <= i < k :: Repeated(signer, urls, i, k)
  {
    var purged, rest := RegisterAll(signer, assets, slug, urls[..k]) - {slug}, urls[k..];
    var after := RegisterAll(signer, purged, slug, rest);
    FoundOnceRegistered(signer, purged, slug, rest);
    forall i | 0 <= i < |urls|
      ensures signer.Ref(urls[i]) in Bucket(after, slug) <==> Repeated(signer, urls, i, k)
      ensures Repeated(signer, urls, i, k) ==>
              signer.Ref(AssetSource(after, slug, signer.Ref(urls[i]))) == signer.Ref(urls[i])
    {
      var ref := signer.Ref(urls[i]);
      OnlyRegistered(signer, purged, slug, rest, ref);
      if j :| k <= j < |urls| && signer.Ref(urls[j]) == ref {
        assert signer.Ref(rest[j - k]) == ref;
      }
      if j :| 0 <= j < |rest| && signer.Ref(rest[j]) == ref {
        assert signer.Ref(urls[k + j]) == ref;
      }
    }
    assert forall i | k <= i < |urls| :: Repeated(signer, urls, i, k);
  }

  /** The registrations of a reading with a purge behind the first k. */
  function PurgedWhileRead(signer: Signer, s: Relay, slug: string, reading: Reading, k: nat): Relay
    requires k <= |reading.urls|
  {
    Relay(Interrupted(signer, s.assets, slug, reading.urls, k), Purge(s, slug).playlists)
  }

  /** A purge that falls behind k of the registrations of a fetch leaves a cached playlist without
      dangling links exactly when all of these k references are registered again; behind the last
      registration, exactly when there are no links. */
  lemma PurgeDuringFetch(signer: Signer, s: Relay, slug: string, reading: Reading, expires: int, k: nat)
    requires k <= |reading.urls|
    ensures var t := Publish(PurgedWhileRead(signer, s, slug, reading, k), slug, reading.body, expires);
            && (Serves(signer, t, slug, reading, expires)
                <==> forall i | 0 <= i < k :: Repeated(signer, reading.urls, i, k))
            && (k == |reading.urls| ==> (Serves(signer, t, slug, reading, expires) <==> reading.urls == []))
  {
    PurgeBetweenRegistrations(signer, s.assets, slug, reading.urls, k);
    if k == |reading.urls| && reading.urls != [] {
      assert !Repeated(signer, reading.urls, 0, k);
    }
  }

  /** The ingest cycle registers its assets once more after publishing.  So a purge behind any k
      registrations of the first pass leaves a complete playlist, and one behind the publication and
      any k registrations of the second pass leaves none. */
  lemma PurgeDuringIngest(signer: Signer, s: Relay, slug: string, reading: Reading, expires: int, k: nat)
    requires k <= |reading.urls|
    ensures var early := Registered(signer, Publish(PurgedWhileRead(signer, s, slug, reading, k), slug, reading.body,
                                                    expires),
                                    slug, reading.urls);
            var late := PurgedWhileRead(signer, Publish(Registered(signer, s, slug, reading.urls), slug, reading.body,
                                                        expires),
                                        slug, reading, k);
            Serves(signer, early, slug, reading, expires) && slug !in late.playlists
  {
    FoundOnceRegistered(signer, PurgedWhileRead(signer, s, slug, reading, k).assets, slug, reading.urls);
  }

  // ---------------------------------------------------------------- the manager

  class Manager {
    const env: Environment
    const registry: AssetRegistry
    var playlists: map<string, Cached>

    ghost predicate Valid()
      reads this
    {
      registry.signer == env.signer
    }

    ghost function State(): Relay
      reads this, registry
    {
      Relay(registry.assets, playlists)
    }

    constructor (env: Environment)
      ensures Valid() && fresh(registry) && State() == EMPTY && this.env == env
    {
      this.env := env;
      registry := new AssetRegistry(env.signer);
      playlists := map[];
    }

    /** RewritePlaylist with the manager as registry. */
    method Rewritten(channel: Channel, fetched: string) returns (result: Result, ghost reading: Reading)
      requires Valid()
      modifies registry
      ensures reading == Read(env, channel.slug, channel.inputURL, fetched)
      ensures State() == Registered(env.signer, old(State()), channel.slug, reading.urls)
      ensures result.Success? <==> reading.ok
      ensures result.Success? ==> result.playlist == reading.body && result.assets == reading.urls
    {
      ghost var lines := ScanLines(fetched);
      reading := Read(env, channel.slug, channel.inputURL, fetched);
      result := RewritePlaylist(fetched, channel.inputURL, channel.slug, env.urls, registry);
      assert lines[..|lines|] == lines;
    }

    /** The playlist is cached if it could be rewritten. */
    method CacheResult(slug: string, result: Result, expires: int, ghost before: Relay, ghost reading: Reading)
      returns (body: Option<string>)
      requires Valid() && State() == Registered(env.signer, before, slug, reading.urls)
      requires result.Success? <==> reading.ok
      requires result.Success? ==> result.playlist == reading.body && result.assets == reading.urls
      modifies this`playlists
      ensures State() == Fetch(env.signer, before, slug, reading, expires)
      ensures body == Served(reading)
      ensures reading.ok ==> slug in playlists && playlists[slug] == Cached(reading.body, expires)
    {
      if result.Failure? {
        return None;
      }
      playlists := playlists[slug := Cached(result.playlist, expires)];
      body := Some(result.playlist);
    }

    method CacheFor(slug: string, result: Result, now: int, ttl: int, ghost before: Relay, ghost reading: Reading)
      returns (body: Option<string>)
      requires Valid() && State() == Registered(env.signer, before, slug, reading.urls)
      requires result.Success? <==> reading.ok
      requires result.Success? ==> result.playlist == reading.body && result.assets == reading.urls
      modifies this`playlists
      ensures State() == Apply(env.signer, before, Fetched(slug, reading, now, ttl)) && body == Served(reading)
      ensures reading.ok ==> slug in playlists && playlists[slug] == Cached(reading.body, now + ttl)
    {
      body := CacheResult(slug, result, now + ttl, before, reading);
    }

    /** The end of ServePlaylist, once the upstream request has succeeded. */
    method RewriteAndCache(channel: Channel, fetched: string, now: int)
      returns (body: Option<string>, ghost reading: Reading)
      requires Valid()
      modifies this, registry
      ensures reading == Read(env, channel.slug, channel.inputURL, fetched)
      ensures Valid()
      ensures State() == Apply(env.signer, old(State()),
                               Fetched(channel.slug, reading, now, channel.playlistTTLSeconds))
      ensures body == Served(reading)
      ensures reading.ok ==>
                && channel.slug in playlists
                && playlists[channel.slug] == Cached(reading.body, now + channel.playlistTTLSeconds)
    {
      var result;
      result, reading := Rewritten(channel, fetched);
      body := CacheFor(channel.slug, result, now, channel.playlistTTLSeconds, old(State()), reading);
    }

    /** ServePlaylist for the modes other than transmux.  `fetched` is the outcome of the upstream
        request, `now` and `later` are the clock before and after it. */
    method ServePlaylist(channel: Channel, now: int, later: int, fetched: Option<string>) returns (body: Option<string>)
      requires Valid() && channel.mode != "transmux"
      modifies this, registry
      ensures Valid()
      ensures var enabled := channel.status == "active" || channel.status == "source_error";
              var cached := channel.slug in old(playlists);
              if enabled && channel.mode != "ingest" && !(cached && now < old(playlists)[channel.slug].expires)
                && fetched.Some?
              then
                var reading := Read(env, channel.slug, channel.inputURL, fetched.value);
                && State() == Apply(env.signer, old(State()),
                                    Fetched(channel.slug, reading, later, channel.playlistTTLSeconds))
                && body == Served(reading)
              else
                && State() == old(State())
                && (body.Some? <==> enabled && cached
                                    && if channel.mode == "ingest" then old(playlists)[channel.slug].body != ""
                                       else now < old(playlists)[channel.slug].expires)
                && (body.Some? ==> body.value == old(playlists)[channel.slug].body)
    {
      if channel.status != "active" && channel.status != "source_error" {
        return None;
      }
      if channel.mode == "ingest" {
        if channel.slug !in playlists || playlists[channel.slug].body == "" {
          return None;
        }
        return Some(playlists[channel.slug].body);
      }
      if channel.slug in playlists && now < playlists[channel.slug].expires {
        return Some(playlists[channel.slug].body);
      }
      if fetched.None? {
        return None;
      }
      ghost var reading;
      body, reading := RewriteAndCache(channel, fetched.value, later);
    }

    /** runIngestCycle behind the rewriting.  Others may have acted meanwhile, so the state is any: even
        behind a purge, which has emptied the registry, every link is registered in the end. */
    method CacheAndRegister(slug: string, result: Result, now: int, ghost reading: Reading) returns (ok: bool)
      requires Valid()
      requires result.Success? <==> reading.ok
      requires result.Success? ==> result.playlist == reading.body && result.assets == reading.urls
      modifies this`playlists, registry
      ensures ok == reading.ok
      ensures !ok ==> State() == old(State())
      ensures ok ==> Serves(env.signer, State(), slug, reading, now + 86_400)
      ensures ok ==> State() == Registered(env.signer, Publish(old(State()), slug, reading.body, now + DAY), slug,
                                           reading.urls)
    {
      if result.Failure? {
        return false;
      }
      playlists := playlists[slug := Cached(result.playlist, now + DAY)];
      FoundOnceRegistered(env.signer, registry.assets, slug, reading.urls);
      RegisterEach(slug, result.assets);
      ok := true;
    }

    /** The same where nobody has. */
    method CacheAlone(slug: string, result: Result, now: int, ghost before: Relay, ghost reading: Reading)
      returns (ok: bool)
      requires Valid() && State() == Registered(env.signer, before, slug, reading.urls)
      requires result.Success? <==> reading.ok
      requires result.Success? ==> result.playlist == reading.body && result.assets == reading.urls
      modifies this`playlists, registry
      ensures State() == Apply(env.signer, before, Ingested(slug, reading, now)) && ok == reading.ok
      ensures ok ==> slug in playlists && playlists[slug] == Cached(reading.body, now + 86_400)
    {
      ok := CacheAndRegister(slug, result, now, reading);
    }

    /** runIngestCycle after a successful fetch, without the prefetching goroutines. */
    method RunIngestCycle(channel: Channel, fetched: string, now: int) returns (ok: bool, ghost reading: Reading)
      requires Valid()
      modifies this, registry
      ensures reading == Read(env, channel.slug, channel.inputURL, fetched)
      ensures Valid()
      ensures State() == Apply(env.signer, old(State()), Ingested(channel.slug, reading, now)) && ok == reading.ok
      ensures ok ==>
                channel.slug in playlists && playlists[channel.slug] == Cached(reading.body, now + 86_400)
    {
      var result;
      result, reading := Rewritten(channel, fetched);
      ok := CacheAlone(channel.slug, result, now, old(State()), reading);
    }

    /** The loop over the assets, without the prefetching goroutines. */
    method RegisterEach(slug: string, assets: seq<string>)
      requires Valid()
      modifies registry
      ensures registry.assets == RegisterAll(env.signer, old(registry.assets), slug, assets)
    {
      var i := 0;
      while i < |assets|
        invariant 0 <= i <= |assets|
        invariant registry.assets == RegisterAll(env.signer, old(registry.assets), slug, assets[..i])
      {
        RegisterAllConcat(env.signer, old(registry.assets), slug, assets[..i], [assets[i]]);
        assert assets[..i + 1] == assets[..i] + [assets[i]];
        var _, _ := registry.RegisterAsset(slug, assets[i]);
        i := i + 1;
      }
      assert assets[..i] == assets;
    }

    method PurgeChannel(slug: string)
      requires Valid()
      modifies this, registry
      ensures Valid()
      ensures State() == Apply(env.signer, old(State()), Purged(slug))
      ensures slug !in playlists && forall ref :: AssetSource(registry.assets, slug, ref) == ""
      ensures forall other | other != slug ::
                && Bucket(registry.assets, other) == Bucket(old(registry.assets), other)
                && (other in playlists <==> other in old(playlists))
                && (other in playlists ==> playlists[other] == old(playlists)[other])
    {
      playlists := playlists - {slug};
      registry.assets := registry.assets - {slug};
    }
  }
}

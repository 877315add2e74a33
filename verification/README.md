# Verification of the restream backend

The backend is a Go HLS relay: it fetches playlists from a source, rewrites every link to a signed
reference of its own, serves the segments from a disk cache, runs ffmpeg for transmuxed channels, and
can spread its channels over remote nodes that report back to a control plane. This project models the
parts that hold state, parse and print text, or depend on timing, and proves what they promise.
`dafny verify dfyconfig.toml` checks all of it with Dafny 4.11.

Code that changes state is a class or a method with loops, proved equal to a specification function;
what the source promises is then proved about that function, mostly for every run of steps. Each
critical section under a mutex is one step of a run, and other goroutines act between any two steps.
In the runs of `Relay` a whole fetch, ingest cycle or purge is one step, over any outcome of the
rewriting; what a purge does between the critical sections of the others is stated separately. Where the
code fixes a number, a name or a list, the results give it literally.

## Files

- `Text`, `Decimal`, `UrlEncoding`, `Channels`: strings.TrimSpace and Split, decimal printing and
  parsing of int64, percent encoding and url.ParseQuery, the channel record.
- `UriAttributes`, `Links`, `Rewriter`, `Tokens`, `Signer`, `Requests`, `PlaybackChain`: the playlist
  pipeline from source text to the player's request and back to the source URL.
- `Relay`: the asset registry and the playlist cache over time.
- `Samples`: the texts of links, tokens and numbers as they stand in URLs and messages.
- `Transmux`, `TransmuxReader`, `TransmuxTrimming`, `TransmuxTags`, `TransmuxLines`, `TransmuxExamples`,
  `SegmentTokens`: the trimmed ffmpeg playlist, what one reads from it, the tags as a player assigns
  them, the lines that belong to no segment, and the token on its way to the segments.
- `FfmpegLoop`: restarts, backoff and auto-disable.
- `Workers`, `MemStore`, `Reconcile`: worker goroutines, and a node's config sync that drives them.
- `ControlPlane`, `Reports`, `Statuses`: counters and statuses on their way from a node to the tables.
- `OriginCache`, `Viewers`, `DiskCache`: three caches against what they stand for.

## Where the code does less than one may expect

Each of these but the last is a lemma with the exact condition or a concrete run.

- A slug with a slash, or one that is `.` or `..`, does not come back to its own handler although it is
  escaped when the URL is built (`AssetDispatch`).
- Numbers survive trimming only while the kept segments are contiguous (`NumbersKept`, `GapRenumbers`);
  ffmpeg's own discipline guarantees that (`RollingDirectoryIsContiguous`).
- A dropped segment takes along its EXTINF tag and what follows it, but not the tags in front of it.  The
  next kept segment inherits those: `#EXT-X-DISCONTINUITY`, which ffmpeg writes there at the start of a
  session, moves (`TagsKept`, `DiscontinuityMoves`).
- A purge that falls between two registrations of a fetched playlist, or between the last one and the
  caching, leaves links dangling unless their references are registered again (`PurgeDuringFetch`); an
  ingest cycle repairs this by itself wherever the purge falls (`PurgeDuringIngest`).
- A node merges statuses between two flushes, and SetSourceStatus without an error does not clear the
  merged error. A source that failed and recovered in between is therefore shown as `source_error`
  (`RecoveryIsHidden`); worker status and status code always arrive (`BatchAgrees`, `StatusesArrive`).
- The entry of getForChannel forgets the owner it was loaded for (`OwnerIsForgotten`).  Deleting a user
  changes the owner of his channels and invalidates nothing, so his origins stay allowed there for up to
  half a minute (`DeletedUserLingers`, `DeletedUsersOriginLingers`).
- A failed query keeps the global set of the last one that succeeded, also one that an invalidation was
  meant to drop (`GlobalWriteVisible`, `DeletedOriginComesBack`); it empties the set of an owner or a
  channel and turns a bypass off (`FailedLoad`).
- LiveViewers reads its cutoff before it waits for the lock, so counts that overtake one another see
  the later cutoff (`CountMatchesLog`, `OvertakenCountMisses`).
- A channel whose fields change under the same ID is neither stopped nor restarted by a sync
  (`FieldChangesAreIgnored`), so one that is switched from proxy to ingest gets no worker
  (`ConfigurationIsFollowed`, `SwitchToIngestIsIgnored`).
- Two overlapping writes for one reference break publish-by-rename (`OverlapPublishesSecond`,
  `TwoWritersBreakIt`).
- The comment in transmuxLoop says that ffmpeg is healthy from 30 seconds on; the code asks for more
  than 30 seconds, and so does the model.

## Assumptions

- SHA-256 and HMAC are arbitrary functions to 64 hexadecimal digits, url.Parse and ResolveReference
  (section 5.2 of RFC 3986) are arbitrary functions. Freedom from collisions is a hypothesis where it
  is needed, and only for the URLs of one playlist or the grants in question.
- Strings are sequences of bytes. The clock does not go back. Code between two modelled events takes
  no time in `FfmpegLoop`.
- No R2 client is configured.

## Model

| member | source | states |
|---|---|---|
| PlaybackChain.PlaylistEndToEnd | backend/internal/relay/rewriter.go:22-64 | End to end: for every source playlist, rewrite it, append a token or not, and let a player request any of its links: each comes back from the asset handler as exactly the resolved source URL of the link that a player reads at that place of the source itself, and there are as many. Needs a servable slug and no hash collision inside the playlist |
| PlaybackChain.ServedLines | backend/internal/httpapi/server.go:972-990 | The served text line by line, for the whole source text, its last line ended by a line feed or not: outside the links it is the trimmed source, and each link has gone through both passes; no link is created, lost or moved |
| PlaybackChain.RewrittenLines | backend/internal/relay/rewriter.go:30-63 | The rewritten text has one line for each line of the source text, its URI lines are trimmed, and its links are the signed links of the links that a player reads from the source, in order |
| Rewriter.SourceLinksAreLinks | backend/internal/relay/rewriter.go:30-60 | For every text: the scanner's lines, trimmed, hold exactly the links that a player reads from the text |
| Rewriter.ScanLinesIsWhole | backend/internal/relay/rewriter.go:29-31 | The scanner yields every line of the text, the last one whether a line feed ends it or not |
| Rewriter.CarriageReturnsDoNotCount | backend/internal/relay/rewriter.go:31-36 | A source with CRLF line ends gives the same text and the same links as one with LF |
| UriAttributes.CapturesOfTrimmed | backend/internal/relay/rewriter.go:31-39 | White space around a line hides no attribute and makes none |
| PlaybackChain.ServeSignedUrl | backend/internal/httpapi/server.go:849-855 | A signed link, with or without a token appended (and so with a second `sig`), is accepted and looked up under the reference it was made for |
| PlaybackChain.OnlySignedIsServed | backend/internal/relay/manager.go:319-337 | A request that yields a source URL is for an asset, carries the signature of its reference, and the reference is registered for that slug |
| PlaybackChain.ReferenceStays | backend/internal/relay/manager.go:101-116 | Registering any further URLs, for any slug, keeps a reference; its URL changes only to one of the new URLs with the same hash |
| PlaybackChain.RegisteredAreFound | backend/internal/relay/manager.go:419-423 | After a batch of registrations each URL's reference leads to a URL of the batch with the same hash |
| Rewriter.AssetRegistry.RegisterAsset | backend/internal/relay/manager.go:101-116 | The registry after the call, the reference and the signed link returned (no R2 client) |
| Rewriter.RewriteTag | backend/internal/relay/rewriter.go:39-48 | One tag line: every leftmost URI attribute is replaced, the resolved URLs are collected and registered in order |
| Rewriter.RewriteLine | backend/internal/relay/rewriter.go:31-58 | One line: blank, tag or URI; the text written, the URLs found, the registrations made |
| Rewriter.RewritePlaylist | backend/internal/relay/rewriter.go:22-64 | Success exactly when the base URL parses and no line of the text reaches 65,536 bytes; then the asset list is the resolved links of the text, and text, list and registry are those of the specification; on failure the lines before the long one stay registered |
| Rewriter.RewriteLines | backend/internal/relay/rewriter.go:29-62 | The scanner loop: it stops at the first overlong line, and text, asset list and registrations are those of the lines before |
| Rewriter.RewriteNext | backend/internal/relay/rewriter.go:31-58 | One turn of the loop adds one line of text, its links and their registrations to what was there |
| Rewriter.Scannable | backend/internal/relay/rewriter.go:30-62 | The count of lines before the first one that the scanner rejects |
| UriAttributes.PassesAgree | backend/internal/relay/rewriter.go:39-48 | Two passes of the `URI="([^"]+)"` replacement are one pass by the composition, and the second finds exactly the spans that the first wrote, in order, for every text and every quote-free, non-empty replacement |
| UriAttributes.LeftmostMatch | backend/internal/httpapi/server.go:999-999 | The recursive scanner finds what leftmost matching of the pattern finds: the first position at which the pattern matches, with the text up to the next quote as its capture |
| UriAttributes.NoMatch | backend/internal/httpapi/server.go:999-999 | A text without a match at any position is left alone and has no captures |
| UriAttributes.NoMatchCreated | backend/internal/httpapi/server.go:981-984 | Replacing behind a position where the pattern does not match never makes it match there |
| UriAttributes.ReplaceAllKeepsOut | backend/internal/httpapi/server.go:981-984 | A pass adds no character that its replacements do not contain |
| Links.MapLinesLinks | backend/internal/httpapi/server.go:977-989 | A pass over the lines maps the links one by one, each in its place (section 4.1 of RFC 8216) |
| Links.MapLineKeepsKind | backend/internal/httpapi/server.go:978-988 | A pass turns URI lines into URI lines and tags into tags, and nothing else into either |
| Links.MapLinesTwice | backend/internal/httpapi/server.go:977-989 | Two passes over the lines are one pass by the composition |
| Tokens.AppendPlaybackTokenToSegments | backend/internal/httpapi/server.go:972-990 | The method computes the specified token pass; the control plane's and the node's copies are the same code |
| Tokens.AppendToLine | backend/internal/httpapi/server.go:978-988 | One line: a URI line gets the token appended, any other line gets it appended to each of its URI attributes |
| Tokens.TokenPassLinks | backend/internal/nodeagent/httpserver.go:178-196 | The pass keeps the number and the order of the links and appends the token to each |
| Tokens.AppenderKeepsLinks | backend/internal/httpapi/server.go:992-997 | Appending the token keeps a URI line a URI line and an attribute value an attribute value |
| Tokens.TokenQueryRoundTrip | backend/internal/httpapi/server.go:976-976 | Both token parameters are read back from the appended query, whatever bytes the signature holds, and the printed expiry parses to itself |
| Tokens.RequirePlaybackToken | backend/internal/httpapi/server.go:940-967 | The check is waived exactly for a session and for a channel that is found and requires no token; otherwise the token decides |
| Tokens.MintedTokenAccepted | backend/internal/httpapi/server.go:940-967 | A minted token is accepted exactly while it has not expired and the MAC agrees, and refused otherwise; for its own slug that is exactly until expiry |
| Tokens.MintedTokenIsBound | backend/internal/httpapi/server.go:954-966 | Over any set of slugs and expiries whose messages the MAC tells apart: a request that carries a minted signature, however its query is written, is accepted only for the token's own slug, under its own expiry and until then |
| Tokens.OtherChannelsRefuse | backend/internal/httpapi/server.go:954-966 | Under the same hypothesis every other slug refuses the token for every expiry a request may carry |
| Tokens.SomeMacSeparates | backend/internal/relay/signer.go:23-27 | The hypothesis can be met: some MAC of 64 digits tells any two grants apart |
| Signers.PlaybackMessageInjective | backend/internal/relay/signer.go:34-42 | The signed message determines slug and expiry, also for slugs that contain the separator, and conversely |
| Signers.PlaybackMessageIsNoRef | backend/internal/relay/signer.go:34-37 | The message of a playback token is never an asset reference, so a signature of one kind passes for the other only where the MAC collides on two different messages |
| Text.TrimSpaceRemovesBlanks | backend/internal/relay/rewriter.go:31-31 | Trimming removes white space at both ends and nothing else |
| Text.TrimSpaceTrims | backend/internal/httpapi/server.go:979-979 | A trimmed string has no white space at either end, and trimming leaves exactly such strings alone |
| Text.WhiteSpaceIsUnicode | backend/internal/relay/rewriter.go:31-31 | Of all code points, UTF-8 encoded, exactly those with Unicode's White_Space property are trimmed away |
| Text.SplitJoin | backend/internal/httpapi/server.go:977-989 | Splitting undoes joining for lines without a line feed |
| Decimal.ParseFormat | backend/internal/httpapi/server.go:956-960 | Printing and parsing an int64 gives it back |
| Decimal.FormatInjective | backend/internal/relay/signer.go:36-36 | Different numbers print differently |
| UrlEncoding.UnescapeEscape | backend/internal/relay/manager.go:115-115 | Unescaping undoes escaping for every byte string in both modes, whatever follows |
| UrlEncoding.QueryGetFirst | backend/internal/httpapi/server.go:954-955 | A query parameter is the value of the first piece between ampersands that decodes to that key; pieces that do not decode count for nothing, and without one it is empty |
| UrlEncoding.QueryGetHead | backend/internal/httpapi/server.go:849-850 | The first pair of a query decides its own key and is skipped for every other key |
| UrlEncoding.PieceIsSkipped | backend/internal/httpapi/server.go:951-952 | A piece with a semicolon or a broken escape is passed over |
| UrlEncoding.UnescapeFails | backend/internal/httpapi/server.go:951-952 | Text cannot be decoded exactly when a percent sign has no two hexadecimal digits behind it |
| UrlEncoding.TwoPairs | backend/internal/httpapi/server.go:849-850 | Two leading pairs are read back whatever follows them, a second `sig` included |
| Requests.AssetDispatch | backend/internal/httpapi/server.go:763-786 | A channel's asset URL reaches the asset handler with that channel's slug exactly when the slug is non-empty, no dot segment and free of slashes |
| Requests.SegmentDispatch | backend/internal/nodeagent/httpserver.go:55-72 | A channel's segment URL reaches the segment handler with that slug, name and query |
| Requests.PlaylistDispatch | backend/internal/httpapi/server.go:774-777 | A channel's playlist URL reaches the playlist handler with that slug and query |
| Requests.RouteReaches | backend/internal/httpapi/server.go:763-785 | Exactly which paths reach the three handlers, and with which slug and name |
| Samples.RewrittenAttribute | backend/internal/relay/rewriter.go:39-48 | In a tag the text between the quotes of URI="..." is replaced, and nothing around it |
| SegmentTokens.TokenReachesSegments | backend/internal/httpapi/server.go:940-988 | A minted token opens the playlist until it expires; every segment link of the trimmed, token-carrying playlist, resolved against the playlist's URL, reaches the segment handler for a kept segment of the same channel, and its token is accepted exactly until the same moment |
| SegmentTokens.TokenedUris | backend/internal/httpapi/server.go:972-990 | The URI lines of the served transmux playlist are the kept segments' links, in order, each with the token |
| Relays.NoDanglingReferences | backend/internal/relay/manager.go:308-316 | In every reachable state a slug has a cached playlist exactly when its last publication has not been purged, with that publication's expiry; and from whatever source it was read, every link that a player finds in it, with or without a token, has its reference registered, under a URL that hashes like the source URL at that place |
| Relays.ReadsAll | backend/internal/relay/rewriter.go:22-64 | A source is rewritten exactly when its URL parses and no line is too long, and then the URLs registered are those of all its links |
| Relays.RegistryHoldsWhatWasRead | backend/internal/relay/manager.go:393-398 | In every run the registry knows a reference of a slug exactly when some fetch or ingest cycle since the slug's last purge read a URL with that hash |
| Relays.RunsAgree | backend/internal/relay/manager.go:457-474 | The invariant behind it, over every run of fetches, ingest cycles and purges: the cached body is that of the last publication not purged since, under its expiry, and all of its references are registered; otherwise nothing is cached |
| Relays.PurgeBetweenRegistrations | backend/internal/relay/manager.go:101-107 | A purge behind the first k of a batch of registrations leaves all of them found exactly when each of these k references is registered again behind it |
| Relays.PurgeDuringFetch | backend/internal/relay/manager.go:393-398 | For every k: a purge behind k registrations of a fetch leaves a published playlist without dangling links exactly when these k references are registered again; behind the last one, exactly when there are no links |
| Relays.PurgeDuringIngest | backend/internal/relay/manager.go:464-474 | For every k: a purge behind k registrations of the first pass of an ingest cycle leaves a complete playlist, one behind the publication and k registrations of the second pass leaves none |
| Relays.Manager.RewriteAndCache | backend/internal/relay/manager.go:308-316 | The cached state, with its expiry, and the body after a successful upstream request |
| Relays.Manager.ServePlaylist | backend/internal/relay/manager.go:241-317 | Every branch for the modes other than transmux: disabled, ingest not ready, fresh cache, failed request, fetch; result and new state of each |
| Relays.Manager.RunIngestCycle | backend/internal/relay/manager.go:457-485 | One ingest cycle after a successful request is one step of the specification, and the playlist expires 86,400 seconds later |
| Relays.Manager.CacheAndRegister | backend/internal/relay/manager.go:469-474 | Behind the rewriting, from whatever state the others have left, also a purged one: the playlist is cached and every link of it is registered |
| Relays.Manager.RegisterEach | backend/internal/relay/manager.go:473-474 | The loop that registers the assets again |
| Relays.Manager.PurgeChannel | backend/internal/relay/manager.go:393-398 | The purge removes the slug's playlist and makes every reference of the slug unknown; other slugs keep theirs |
| Transmux.ReadTransmuxPlaylist | backend/internal/relay/manager.go:665-774 | The method's four accumulators compute the structured specification: parse into items, keep or drop each segment, repair the number |
| Transmux.TrimLines | backend/internal/relay/manager.go:706-761 | The loop: output, media sequence and count of segments dropped from the head are those of the parsed playlist |
| Transmux.SegmentLines | backend/internal/relay/manager.go:738-760 | The branch for a segment: dropped with its header and counted while nothing has been kept, or written out behind its header |
| Transmux.Repair | backend/internal/relay/manager.go:764-771 | Only the first media sequence line is rewritten, and only when the sync trimmed the head |
| Transmux.AllOutputAreHeaders | backend/internal/relay/manager.go:778-789 | True exactly when every line is blank or a tag |
| Transmux.HeadersUntilKept | backend/internal/relay/manager.go:745-748 | The loop's test of its own output holds exactly while no segment has been kept |
| TransmuxReader.ScanMatchesRead | backend/internal/relay/manager.go:706-761 | The loop's grouping into segments is the one that reads each segment from its EXTINF tag on |
| TransmuxReader.ReadEmitted | backend/internal/relay/manager.go:752-760 | From the emitted lines one reads exactly the kept segments, each from its own EXTINF tag on |
| TransmuxReader.EmittedSequences | backend/internal/relay/manager.go:718-722 | Every media sequence line of the input, and no other, is in the output, in order |
| TransmuxReader.ScanFormatted | backend/internal/relay/manager.go:719-719 | Scanning a printed number gives it back, whatever stands behind it |
| TransmuxReader.LastNumberCounts | backend/internal/relay/manager.go:718-722 | Of several media sequence lines the last one that holds a number counts |
| TransmuxTrimming.TrimmingKeepsEntries | backend/internal/relay/manager.go:706-761 | For every text: the served segments are exactly the kept ones in order, each with its own EXTINF tag and the lines behind it (section 4.3.2.1 of RFC 8216); of a dropped one these lines are gone; with sync off all are kept |
| TransmuxTags.TrimmingInherits | backend/internal/relay/manager.go:724-752 | For every text, with all segment tags assigned as section 4.3.2 of RFC 8216 does: each kept segment keeps all of its tags, behind the tags that stood in front of the EXTINF tags of the segments dropped right before it |
| TransmuxTags.TagsKept | backend/internal/relay/manager.go:724-752 | So a player sees the kept segments with exactly the tags they had exactly when no segment dropped in front of a kept one has a tag before its EXTINF tag |
| TransmuxTags.ScanMatchesPlay | backend/internal/relay/manager.go:706-761 | The loop's items, with the lines it holds back, carry every segment tag to the segment that a player gives it to |
| TransmuxTags.PlayPatched | backend/internal/relay/manager.go:764-771 | Repairing the number changes no segment and no tag |
| TransmuxLines.OwnLinesStay | backend/internal/relay/manager.go:704-771 | For every text: of the lines that belong to no segment none is lost, added or moved, but for the start tag behind the first opening line; and only with sync on, a number that could be read and segments missing in front, the first media sequence line gets the number plus their count |
| TransmuxLines.ScanCorresponds | backend/internal/relay/manager.go:706-761 | The loop takes as playlist lines exactly the lines that are no EXTINF tag or URI and do not stand between the two, and injects the start tag once |
| TransmuxExamples.DiscontinuityMoves | backend/internal/relay/manager.go:731-751 | For any two segments: the discontinuity mark of the first, withheld one moves to the second |
| TransmuxExamples.GapRenumbers | backend/internal/relay/manager.go:741-750 | A concrete playlist: with the middle file missing the last segment gets another number |
| TransmuxTrimming.ServedSequence | backend/internal/relay/manager.go:763-771 | The printed number is N plus the index of the first kept segment |
| TransmuxTrimming.NumbersKept | backend/internal/relay/manager.go:738-771 | Every surviving segment keeps its number (section 4.3.3.2 of RFC 8216) exactly when the kept segments are contiguous and the repaired number fits an int64 |
| TransmuxTrimming.RollingDirectoryIsContiguous | backend/internal/relay/manager.go:738-750 | With files finished in order and removed from the head, the kept segments are contiguous |
| TransmuxTrimming.LaterPoll | backend/internal/relay/manager.go:738-771 | A read with a later cutoff extends an earlier one as a prefix; with one non-negative media sequence in the source and an earlier read that is not empty, under the same media sequence |
| TransmuxTrimming.PollsAgree | backend/internal/relay/manager.go:680-690 | Two reads within one second give the same playlist; a later one extends an earlier one, under the same numbers as in LaterPoll |
| TransmuxTrimming.DelayIsKept | backend/internal/relay/manager.go:680-690 | A segment that is served is at least the configured delay old (8 seconds if none), and one that is a second older still is served; one without a file is not; with sync off all are |
| TransmuxTrimming.CutoffGrows | backend/internal/relay/manager.go:683-689 | The cutoff is monotone in the clock, constant within a second and always in the past |
| TransmuxTrimming.ServedText | backend/internal/relay/manager.go:774-774 | The lines a player splits from the served text are the served lines, so the results are about the text |
| FfmpegLoop.TransmuxLoop | backend/internal/relay/manager.go:901-1063 | The loop computes the run of its specification |
| FfmpegLoop.LoopFollowsTimeline | backend/internal/relay/manager.go:924-1062 | Exact behaviour over every sequence of attempts: it gives up at the first attempt that ends an unbroken streak of failures of more than the allowed time and at no other; backoff and failure window are what the timeline says, with 1s <= backoff <= 30s |
| FfmpegLoop.GivesUpInTime | backend/internal/relay/manager.go:988-1062 | If from some attempt on ffmpeg always fails to start or runs for at most 30 seconds, then with a limit of S > 0 seconds the loop has returned within S + 60 seconds of its start and after at most S + 2 of these attempts |
| FfmpegLoop.GivesUpOnlyOnBadSource | backend/internal/relay/manager.go:1045-1054 | When it gives up, it has for more than the allowed time seen nothing but failed starts and runs of at most 30 seconds, since it began or since a longer run; with no limit it never gives up |
| FfmpegLoop.WindowCloses | backend/internal/relay/manager.go:1045-1049 | The failure window is closed exactly behind a run of more than 30 seconds |
| FfmpegLoop.LongRunIsForgiven | backend/internal/relay/manager.go:1045-1054 | The loop never gives up behind a run of more than 30 seconds |
| FfmpegLoop.WaitsDouble | backend/internal/relay/manager.go:1004-1061 | Behind a run the wait is one second, and behind the start failures that follow it 2, 4, 8, 16 and then always 30 seconds; a fresh loop's first failure counts like a run |
| FfmpegLoop.WaitDoubles | backend/internal/relay/manager.go:1079-1088 | nextBackoff steps through 1, 2, 4, 8, 16, 30, 30, ... seconds |
| Workers.RunsAreConsistent | backend/internal/relay/manager.go:130-187 | In every interleaving of start, stop, stop-all and exits, the active goroutines are exactly the entries of the map |
| Workers.OneWorkerPerChannel | backend/internal/relay/manager.go:130-157 | At most one active worker per channel, and one exactly when the map has an entry |
| Workers.EntryLasts | backend/internal/relay/manager.go:169-178 | A worker keeps its entry exactly until it is stopped or exits itself, so a stale release never removes a successor |
| Workers.RestartSurvivesPredecessor | backend/internal/relay/manager.go:169-178 | Whatever other channels do between a stop and the next start of the channel, the start gives a new goroutine; whatever happens afterwards, it keeps running exactly until it is stopped or leaves itself |
| Workers.StepKeepsConsistent | backend/internal/relay/manager.go:130-187 | Each critical section keeps the invariant |
| Workers.Manager.StartWorker | backend/internal/relay/manager.go:130-145 | Afterwards an active channel in mode ingest or transmux has an entry, by the protocol's start; for any other status or mode nothing changes |
| Workers.Manager.StopWorker | backend/internal/relay/manager.go:159-167 | The critical section is the protocol's stop |
| Workers.Manager.ReleaseWorker | backend/internal/relay/manager.go:172-178 | The deferred release is the protocol's exit |
| Workers.Manager.StopAllWorkers | backend/internal/relay/manager.go:180-187 | The loop over the map is the protocol's stop-all |
| Workers.Manager.WorkerRunning | backend/internal/relay/manager.go:189-194 | True exactly when the channel has an active goroutine |
| MemStores.MemStore.Replace | backend/internal/nodeagent/memstore.go:45-67 | The new maps, and two lists that enumerate the added and the removed channels, each once, in some order |
| MemStores.ByIdIsKeyed | backend/internal/nodeagent/memstore.go:48-53 | The map holds exactly the IDs of the list, under each the last channel with it |
| MemStores.BySlugIsKeyed | backend/internal/nodeagent/memstore.go:48-53 | The slug map holds exactly the slugs of the list, under each the last channel with it |
| Reconcile.Reconciled | backend/internal/nodeagent/agent.go:189-207 | After every completed sync of every run, with workers exiting between any two critical sections: running channels are assigned; a channel that was assigned as active and in mode ingest or transmux has had exactly one goroutine since, not cancelled, and runs exactly if that goroutine has not left by itself; any other channel has had none |
| Reconcile.AddedChannelsStart | backend/internal/nodeagent/agent.go:202-207 | The sync in which a channel first appears makes a goroutine for it exactly if it is active and in mode ingest or transmux |
| Reconcile.FieldChangesAreIgnored | backend/internal/nodeagent/agent.go:189-207 | A channel that stays assigned keeps the record it was assigned under: a sync starts and stops nothing for it |
| Reconcile.ConfigurationIsFollowed | backend/internal/nodeagent/agent.go:189-207 | Exactly when an assigned channel runs as its current record wants: if that wants a worker, when the record it was assigned under did too and the worker has not left; if not, when that record wanted none or the worker has left |
| Reconcile.SwitchToIngestIsIgnored | backend/internal/nodeagent/agent.go:202-207 | A concrete run: a channel is assigned in proxy mode and then switched to ingest, and no worker starts |
| Reconcile.RunsAreExplained | backend/internal/nodeagent/agent.go:189-207 | The invariant of whole runs behind it |
| Reconcile.Agent.SyncConfig | backend/internal/nodeagent/agent.go:189-207 | Replace, the stops and the starts are one legal sync of the specification |
| Reconcile.Agent.StopRemoved | backend/internal/nodeagent/agent.go:197-201 | The loop over the removed channels |
| Reconcile.Agent.StartAdded | backend/internal/nodeagent/agent.go:202-207 | The loop over the added channels, which starts only those that want a worker |
| MemStores.MemStore.IncrementMetric | backend/internal/nodeagent/memstore.go:127-134 | The counters after the call; empty keys and zero amounts are ignored |
| MemStores.IncrementedAmount | backend/internal/nodeagent/memstore.go:127-134 | A count adds to its own counter, unless it names no channel or no field, and to no other |
| MemStores.MemStore.DrainReports | backend/internal/nodeagent/memstore.go:137-150 | All reports and counters are returned and none is left |
| Reports.FlushReports | backend/internal/nodeagent/agent.go:249-286 | The payload lists every drained report and counter exactly once |
| Reports.PayloadIsComplete | backend/internal/nodeagent/agent.go:276-282 | A payload carries for each counter exactly the drained amount |
| Reports.MetricsConserved | backend/internal/nodeagent/agent.go:249-304 | In every run each amount counted on the node is in exactly one place: on the node, under way, in a batch or statement that failed, or in the table; over any choice of windows the table shows exactly what was stored in their minutes, and its index stays unique |
| Reports.DeliveredTotalsMatch | backend/internal/httpapi/nodes.go:438-443 | If every batch was handled and every statement succeeded, table and node together hold exactly what was counted, for each of the eight fields |
| Reports.OtherFieldsAreDropped | backend/internal/store/store.go:348-360 | No other field ever reaches the table |
| Reports.HourIsShown | backend/internal/store/store.go:369-379 | Metrics shows exactly what was stored in the minutes that began less than an hour ago |
| ControlPlane.ShownForAnHour | backend/internal/store/store.go:360-375 | What is counted at some time is shown for 59 minutes at least and for an hour at most |
| Reports.NeverOvercounts | backend/internal/httpapi/nodes.go:438-443 | With non-negative increments the table never shows more than was counted, over any windows, whatever is lost, reordered or applied without the node's knowledge |
| ControlPlane.UpsertAdds | backend/internal/store/store.go:361-366 | An upsert adds its amount to its own counter in its own window, and to no other counter or window |
| ControlPlane.UpsertKeepsUnique | backend/internal/store/store.go:361-366 | An upsert keeps (channel, window) unique |
| ControlPlane.Store.HandleNodeReport | backend/internal/httpapi/nodes.go:427-443 | The two loops apply every status and every counter in order; failed statements are ignored |
| ControlPlane.Store.IncrementMetric | backend/internal/store/store.go:347-367 | The table after the call: for one of the eight fields the row of the current minute is updated, other fields are ignored |
| ControlPlane.UpdatesAreIndependent | backend/internal/httpapi/nodes.go:427-437 | The row after one status entry, column by column: neither update depends on the other's success, and no other row changes |
| Statuses.StatusesArrive | backend/internal/httpapi/nodes.go:427-437 | Wherever the flushes fall and whichever batches are lost, a channel's row shows the worker status and source status code written last in the applied batches; the whole row is what separate writes would have made it exactly when the last of them with a source status was faithful and the last of them left the last write's error standing |
| Statuses.BatchAgrees | backend/internal/nodeagent/memstore.go:98-120 | One merged report gives the same row as the separate writes exactly when the last of the worker writes and error-carrying source writes carries an error just in case the last source write does, or there is no source write |
| Statuses.MergedError | backend/internal/nodeagent/memstore.go:109-117 | The merged error is that of the last worker write or error-carrying source write |
| Statuses.BatchKeepsStatuses | backend/internal/nodeagent/memstore.go:98-120 | One merged report always gives the same worker status and source status code |
| Statuses.RecoveryIsHidden | backend/internal/nodeagent/memstore.go:109-117 | A failed fetch followed by a successful one between two flushes leaves the channel in source_error on the control plane |
| OriginCaches.AnswersAreRecent | backend/internal/httpapi/auth.go:94-233 | If the last load of a key succeeded and, for a channel, was made under the same owner, every hit is the query's result on a database state no older than the last invalidation, loaded less than 30 seconds (bypass: 15) ago |
| OriginCaches.AnswerIsTheLoads | backend/internal/httpapi/auth.go:94-233 | Without hypothesis: every hit is what the last load of the key gave, the query's result or the fallback of a failure, whatever other loads did |
| OriginCaches.ServedUntilExpiry | backend/internal/httpapi/auth.go:79-117 | What a load has put into the cache can be served for exactly 30 seconds, a bypass for 15, unless the key is cleared or loaded again |
| OriginCaches.LoadsAreApart | backend/internal/httpapi/auth.go:103-117 | Unless the key is cleared, the database is asked for it at most once in 30 seconds, for a bypass in 15 |
| OriginCaches.WritesAreVisible | backend/internal/httpapi/nodes.go:266-271 | After a handler has written and cleared the key (invalidate, or invalidateSlugBypass for a flag), until the next write and however lookups interleave, an entry shows the write exactly when the last load of its key since then answers it: it succeeded, under an owner with the same origins where a channel is asked for, or it failed where there is nothing to find; the global set, exactly when one of its loads since then succeeded or it was right before |
| OriginCaches.ClearedKeyShows | backend/internal/httpapi/auth.go:152-171 | The same behind any step that cleared the key, whatever was written before it |
| OriginCaches.GlobalIsLastSuccess | backend/internal/httpapi/auth.go:103-117 | In every run the global set is the query's result at its last load that succeeded, empty before the first, whatever was written, invalidated or tried in vain since |
| OriginCaches.GlobalWriteVisible | backend/internal/httpapi/auth.go:103-117 | With no write since some step the global set shows the database exactly when one of its loads since then succeeded or it was right at that step |
| OriginCaches.EntriesAreLoaded | backend/internal/httpapi/auth.go:94-158 | Every entry that can be served comes from the last load of its key, after which nothing cleared it, also when loads fail |
| OriginCaches.LockedAnswers | backend/internal/httpapi/auth.go:103-117 | The locked section always ends with an entry that can be served |
| OriginCaches.FailedLoad | backend/internal/httpapi/auth.go:108-117 | In every run, while the last load of a key is one that failed, an owner's or a channel's set is empty, a bypass is off, and the global set is that of its last load that succeeded |
| OriginCaches.DeletedOriginComesBack | backend/internal/httpapi/auth.go:108-117 | A concrete run: an origin is loaded, deleted and invalidated, and the next load fails: the origin is served again |
| OriginCaches.OwnerIsForgotten | backend/internal/httpapi/auth.go:207-233 | In every run a lookup of a channel, under whatever owner, gets what the last load found for its own owner; that is right exactly when the channel's own origins and that owner's origins for all channels at the load are together the channel's own and the present owner's now |
| OriginCaches.DeletedUserLingers | backend/internal/store/store.go:166-174 | A user is deleted, which sets the owner of his channels to null and deletes his origins but invalidates nothing: until the entry expires his channel is answered with his origins, rightly exactly when the remaining rows offer the same |
| OriginCaches.DeletedUsersOriginLingers | backend/internal/httpapi/server.go:1272-1281 | A concrete run of this in which the answer is wrong |
| OriginCaches.OriginCache.GetFast | backend/internal/httpapi/auth.go:95-101 | The read-locked section: a hit exactly on a fresh entry |
| OriginCaches.OriginCache.GetLocked | backend/internal/httpapi/auth.go:103-117 | The locked section of the global set is the specification's step |
| OriginCaches.OriginCache.GetForOwnerFast | backend/internal/httpapi/auth.go:125-134 | The read-locked section for an owner; no owner has no origins |
| OriginCaches.OriginCache.GetForOwnerLocked | backend/internal/httpapi/auth.go:136-149 | The locked section for an owner is the specification's step |
| OriginCaches.OriginCache.GetForChannelFast | backend/internal/httpapi/auth.go:208-217 | The read-locked section for a channel; without a channel the owner's set is asked for |
| OriginCaches.OriginCache.GetForChannelLocked | backend/internal/httpapi/auth.go:219-232 | The locked section for a channel is the specification's step |
| OriginCaches.OriginCache.ChannelBypassFast | backend/internal/httpapi/auth.go:179-188 | The read-locked section of the bypass flag |
| OriginCaches.OriginCache.ChannelBypassLocked | backend/internal/httpapi/auth.go:190-200 | The locked section of the bypass flag is the specification's step |
| OriginCaches.OriginCache.Invalidate | backend/internal/httpapi/auth.go:152-158 | The global set expires but is kept, the maps are emptied, the bypass flags stay |
| OriginCaches.OriginCache.InvalidateSlugBypass | backend/internal/httpapi/auth.go:163-171 | One bypass flag, or all of them, is dropped |
| Viewers.CountMatchesLog | backend/internal/relay/manager.go:212-230 | A count is the number of distinct addresses in the full log since its cutoff, or since a later cutoff that an overtaking count has used; it is the number since its own cutoff, exactly the last 60 seconds, if and only if no address was last seen between the two |
| Viewers.OvertakenCountMisses | backend/internal/relay/manager.go:212-216 | A concrete run: a count that is overtaken on its way to the lock misses a viewer whom the log shows |
| Viewers.BucketIsUnswept | backend/internal/relay/manager.go:197-225 | The pruned map holds exactly the last hits that no count has swept away, with their times |
| Viewers.ViewerMap.RecordViewer | backend/internal/relay/manager.go:197-209 | The map after a hit; empty channels and addresses are ignored |
| Viewers.ViewerMap.DeleteOld | backend/internal/relay/manager.go:220-224 | The loop that deletes from the bucket while it ranges over it leaves exactly the hits since the cutoff |
| Viewers.ViewerMap.LiveViewers | backend/internal/relay/manager.go:212-230 | The count of the hits in the last 60 seconds and the map left behind, which keeps no empty bucket |
| DiskCaches.OpenedIsCompleteForever | backend/internal/relay/cache.go:34-73 | In every interleaving of copies, failures, removals, crashes and opens, with one write per reference at a time, an opened file is the whole body of one successful copy for that reference and never changes while it is open |
| DiskCaches.UnpublishedIsInvisible | backend/internal/relay/cache.go:43-55 | Until a write is published, and after it has failed (at copying, at closing, or at a rename whose temporary file was removed meanwhile) or died, readers find the previous file with its previous content |
| DiskCaches.StepIsSound | backend/internal/relay/cache.go:34-96 | Every step keeps the file system invariant |
| DiskCaches.OverlapPublishesSecond | backend/internal/relay/cache.go:40-55 | A second write for the same reference begins between another's copy and its rename: the rename publishes what the second has copied so far and the second keeps changing it, so the published file stays as it is exactly when the second had copied its whole body |
| DiskCaches.TwoWritersBreakIt | backend/internal/relay/cache.go:40-55 | A concrete run of this: the first publishes an incomplete file that still changes |
| DiskCaches.DiskCache.Write | backend/internal/relay/cache.go:34-56 | One call alone: success shows the whole body under the reference, failure shows what was there, no temporary file is left, and no other name changes |
| DiskCaches.DiskCache.CopyAll | backend/internal/relay/cache.go:45-45 | The copy loop writes the body's next piece at its offset |
| DiskCaches.DiskCache.PurgeChannel | backend/internal/relay/cache.go:75-77 | All names of the channel go, no other name and no file's content changes |

## Left out

- R2 uploads, public R2 URLs, the upload watcher and the retention loop: foreign calls with unsynchronised client swaps.
- HTTP plumbing, redirects of the control plane to a node, CORS headers, sessions, login and roles: I/O and single lookups.
- The playlist and segment handlers' responses, ServeTransmuxSegment and the one-second transmux cache in front of readTransmuxPlaylist.
- ServeAsset's fetching, waiting and cache freshness: the model follows a request up to the source URL that is looked up.
- handlePlaybackToken, handleShareLink and share beyond the token that they mint and check: they print the control plane's base URL.
- ffmpeg itself: an attempt fails to start or runs for some time, and its playlist and directory are inputs.
- SQL beyond the updates named above, migrations and row scanning; last_request_at, the started and fetched timestamps.
- MAX_WORKERS is never enforced by the code, so nothing is claimed about a number of workers.
- The status that a goroutine writes when it leaves ("stopped") can come after its successor's "running"; the order of these writes is not modelled.
- HasFresh and the coalescing of concurrent fetches: one write per reference at a time is a hypothesis of the disk cache's results.
- Counters are unbounded integers: `Reports.MetricsConserved` does not model int64 wrap-around of a counter on the node or an overflow error of the database.
- JSON encoding of reports: strings are taken to survive it, which holds for valid UTF-8.
- `allowed_origins` values are taken as the queries return them, trimmed and lower-cased.
- Reconcile.Agent.SyncConfig: does not model the purge of a removed channel's caches (see Relays) or the set-up of the relay; exits between its steps are in the runs of Reconciled, not in this method.
- Relays.Manager.RunIngestCycle: does not model the prefetching goroutines, whose writes are those of DiskCaches.
- DiskCaches.DiskCache.Write: describes one call alone on the disk; interleaved calls are the runs of OpenedIsCompleteForever and UnpublishedIsInvisible.
- DiskCaches.DiskCache.PurgeChannel: does not model files created in the directory while it is being removed; the runs allow them.
- TransmuxTrimming.NumbersKept: needs exactly one media sequence tag with a non-negative number and at least one kept segment; when the sync withholds every segment the printed number is N plus the number of segments.
- FfmpegLoop.TransmuxLoop: the attempts are those made before the context is cancelled; cancellation itself only ends the loop.
- Statuses.StatusesArrive: needs the batches to be applied in the order of the flushes and every update in an applied batch to succeed.
- TransmuxTags.TagsKept: counts `#EXT-X-KEY` and `#EXT-X-MAP` for the next segment only; that they also apply to later segments, and so are missed when they stood behind the EXTINF tag of a dropped one, is not modelled. ffmpeg is started without encryption and with MPEG-TS segments, which need neither.

/** From a minted playback token to the requests that a player makes for the segments of a transmux
    playlist. */
module SegmentTokens {
  import opened Text
  import opened Decimal
  import opened UriAttributes
  import opened UrlEncoding
  import opened Links
  import opened Signers
  import opened Requests
  import opened Tokens
  import opened Transmux
  import opened TransmuxReader
  import opened TransmuxTrimming

  /** The URI lines of a playlist, trimmed, in order. */
  function UriLines(lines: seq<string>): seq<string> {
    if lines == [] then []
    else
      var before, last := UriLines(lines[..|lines| - 1]), lines[|lines| - 1];
      if IsUri(last) then before + [TrimSpace(last)] else before
  }

  function Uris(entries: seq<Entry>): seq<string> {
    seq(|entries|, k requires 0 <= k < |entries| => entries[k].uri)
  }

  lemma {:induction false} EntriesAreUriLines(lines: seq<string>)
    ensures Uris(Entries(lines)) == UriLines(lines)
  {
    if lines != [] {
      EntriesAreUriLines(lines[..|lines| - 1]);
      HeaderKinds(lines[|lines| - 1]);
    }
  }

  lemma {:induction false} MappedUriLines(lines: seq<string>, f: string -> string)
    requires UriToUri(f) && UrisTrimmed(lines)
    ensures UriLines(MapLines(lines, f)) == MapAll(f, UriLines(lines))
  {
    if lines != [] {
      var before, last := lines[..|lines| - 1], lines[|lines| - 1];
      MappedUriLines(before, f);
      assert MapLines(lines, f)[..|lines| - 1] == MapLines(before, f);
      MapLineKeepsKind(last, f);
      if IsUri(last) {
        TrimSpaceTrims(last);
        TrimSpaceTrims(f(last));
      }
      MapAllConcat(f, UriLines(before), if IsUri(last) then [last] else []);
    }
  }

  // ---------------------------------------------------------------- the URI lines are trimmed

  lemma EmittedItemTrimmed(item: Item, keep: string -> bool)
    requires WellFormed([item])
    ensures UrisTrimmed(EmitItem(item, keep))
  {
    assert [item][0] == item;
    if item.Segment? {
      SegmentLine(item.name);
      TrimSpaceTrims("segment/" + item.name);
    }
  }

  lemma {:induction false} EmittedTrimmed(items: seq<Item>, keep: string -> bool)
    requires WellFormed(items)
    ensures UrisTrimmed(Emit(items, keep))
  {
    if items != [] {
      var before, item := items[..|items| - 1], items[|items| - 1];
      assert forall i | 0 <= i < |before| :: before[i] == items[i];
      EmittedTrimmed(before, keep);
      assert WellFormed([item]);
      EmittedItemTrimmed(item, keep);
    }
  }

  lemma {:induction false} PatchKeepsTrimmed(lines: seq<string>, number: int)
    requires UrisTrimmed(lines)
    ensures UrisTrimmed(PatchSequence(lines, number))
  {
    if lines == [] {
    } else if IsSequence(lines[0]) {
      var patched := SEQUENCE + FormatInt(number);
      assert patched[0] == '#';
      TrimRightKeepsFirst(patched);
    } else {
      assert UrisTrimmed(lines[1..]);
      PatchKeepsTrimmed(lines[1..], number);
    }
  }

  lemma ServedTrimmed(lines: seq<string>, syncOn: bool, keep: string -> bool)
    ensures UrisTrimmed(Transmux.ServedLines(lines, syncOn, keep))
  {
    var s := ScanPlaylist(lines);
    ScanIsWellFormed(lines);
    EmittedTrimmed(s.items, keep);
    PatchKeepsTrimmed(Emit(s.items, keep), Printed(s.sequence, DroppedFromHead(s.items, keep)));
  }

  // ---------------------------------------------------------------- the player's requests

  /** A link that starts with a plain path segment, resolved against the playlist's own URL
      (section 5.2.3 of RFC 3986): it replaces the last segment of that URL's path. */
  function AgainstPlaylist(slug: string, link: string): string {
    ChannelUrl(slug, link)
  }

  /** The names that the muxer gives to its segments: seg-17.ts and the like. */
  predicate SegmentName(name: string) {
    Servable(name) && forall i | 0 <= i < |name| :: Unreserved(name[i])
  }

  lemma SegmentLink(slug: string, name: string, query: string)
    requires IsBytes(slug) && Servable(slug) && SegmentName(name)
    ensures Dispatch(AgainstPlaylist(slug, AppendQuery("segment/" + name, query))) == Handler.Segment(slug, name, query)
  {
    var link := "segment/" + name;
    assert '?' !in link;
    assert AgainstPlaylist(slug, link + "?" + query) == ChannelUrl(slug, link) + "?" + query;
    SegmentDispatch(slug, name, query);
  }

  lemma SegmentRequest(slug: string, name: string, exp: int, sig: string)
    requires IsBytes(slug) && Servable(slug) && SegmentName(name)
    ensures Dispatch(AgainstPlaylist(slug, Appender(exp, sig)("segment/" + name)))
            == Handler.Segment(slug, name, TokenQuery(exp, sig))
  {
    SegmentLink(slug, name, TokenQuery(exp, sig));
  }

  /** What a player finds in the served transmux playlist once the token pass has run. */
  lemma {:induction false} TokenedUris(data: string, syncOn: bool, keep: string -> bool, exp: int, sig: string)
    requires exp != 0 && sig != ""
    ensures var text := TokenPass(Join(Transmux.ServedLines(Split(data, '\n'), syncOn, keep), '\n'), exp, sig);
            UriLines(Split(text, '\n'))
            == MapAll(Appender(exp, sig), Uris(Surviving(Entries(Split(data, '\n')), keep)))
  {
    var out := Transmux.ServedLines(Split(data, '\n'), syncOn, keep);
    var received := Split(Join(out, '\n'), '\n');
    ServedText(data, syncOn, keep, out);
    ServedTrimmed(Split(data, '\n'), syncOn, keep);
    TokenPassLines(Join(out, '\n'), exp, sig);
    AppenderKeepsLinks(exp, sig);
    EntriesAreUriLines(received);
    MappedUriLines(received, Appender(exp, sig));
  }

  lemma {:induction false} SurvivorNames(entries: seq<Entry>, keep: string -> bool, k: nat)
    requires k < |Surviving(entries, keep)|
    ensures exists i | 0 <= i < |entries| ::
              keep(entries[i].uri) && Surviving(entries, keep)[k].uri == "segment/" + entries[i].uri
  {
    var n := |entries| - 1;
    var before := Surviving(entries[..n], keep);
    if k < |before| {
      SurvivorNames(entries[..n], keep, k);
      var i :| 0 <= i < n && keep(entries[..n][i].uri) && before[k].uri == "segment/" + entries[..n][i].uri;
      assert entries[i] == entries[..n][i];
    } else {
      assert keep(entries[n].uri);
    }
  }

  /** The player's request for a link reaches the segment handler of the channel for the segment with
      this URI, and passes the token check exactly until the token expires. */
  ghost predicate Opens(signer: Signer, slug: string, exp: int, link: string, uri: string, now: int) {
    var request := Dispatch(AgainstPlaylist(slug, link));
    && request.Segment?
    && request.slug == slug
    && "segment/" + request.name == uri
    && var check := CheckToken(signer, request.slug, request.query, now);
       check == Accepted(exp, signer.SignPlayback(slug, exp)) <==> now <= exp
  }

  lemma NameOpens(signer: Signer, slug: string, exp: int, name: string, now: int)
    requires signer.Valid() && IsInt64(exp) && IsBytes(slug) && Servable(slug) && SegmentName(name)
    ensures var uri := "segment/" + name;
            Opens(signer, slug, exp, Appender(exp, signer.SignPlayback(slug, exp))(uri), uri, now)
  {
    SegmentRequest(slug, name, exp, signer.SignPlayback(slug, exp));
    MintedTokenAccepted(signer, slug, slug, exp, now);
  }

  lemma {:induction false} SurvivorOpens(signer: Signer, slug: string, exp: int, entries: seq<Entry>,
                                         keep: string -> bool, k: nat, now: int)
    requires signer.Valid() && IsInt64(exp) && IsBytes(slug) && Servable(slug)
    requires forall i | 0 <= i < |entries| :: SegmentName(entries[i].uri)
    requires k < |Surviving(entries, keep)|
    ensures var uri := Surviving(entries, keep)[k].uri;
            Opens(signer, slug, exp, Appender(exp, signer.SignPlayback(slug, exp))(uri), uri, now)
  {
    SurvivorNames(entries, keep, k);
    var uri := Surviving(entries, keep)[k].uri;
    var i :| 0 <= i < |entries| && keep(entries[i].uri) && uri == "segment/" + entries[i].uri;
    NameOpens(signer, slug, exp, entries[i].uri, now);
  }

  lemma PlaylistOpens(signer: Signer, slug: string, exp: int, now: int)
    requires signer.Valid() && IsInt64(exp) && IsBytes(slug) && Servable(slug)
    ensures var sig := signer.SignPlayback(slug, exp);
            var query := TokenQuery(exp, sig);
            && Dispatch(ChannelUrl(slug, "index.m3u8") + "?" + query) == Handler.Playlist(slug, query)
            && (CheckToken(signer, slug, query, now) == Accepted(exp, sig) <==> now <= exp)
  {
    PlaylistDispatch(slug, TokenQuery(exp, signer.SignPlayback(slug, exp)));
    MintedTokenAccepted(signer, slug, slug, exp, now);
  }

  /** A minted token opens the playlist until it expires, and every segment link of that playlist
      carries the token on: it opens a kept segment of the same channel until the same moment. */
  lemma {:induction false} TokenReachesSegments(signer: Signer, slug: string, exp: int, data: string, syncOn: bool,
                                                keep: string -> bool, asked: int, later: int)
    requires signer.Valid() && IsInt64(exp) && exp != 0
    requires IsBytes(slug) && Servable(slug)
    requires forall i | 0 <= i < |Entries(Split(data, '\n'))| :: SegmentName(Entries(Split(data, '\n'))[i].uri)
    ensures var sig := signer.SignPlayback(slug, exp);
            var query := TokenQuery(exp, sig);
            var kept := Surviving(Entries(Split(data, '\n')), keep);
            var served := TokenPass(Join(Transmux.ServedLines(Split(data, '\n'), syncOn, keep), '\n'), exp, sig);
            var links := UriLines(Split(served, '\n'));
            && Dispatch(ChannelUrl(slug, "index.m3u8") + "?" + query) == Handler.Playlist(slug, query)
            && (CheckToken(signer, slug, query, asked) == Accepted(exp, sig) <==> asked <= exp)
            && |links| == |kept|
            && forall k | 0 <= k < |links| :: Opens(signer, slug, exp, links[k], kept[k].uri, later)
  {
    var kept := Surviving(Entries(Split(data, '\n')), keep);
    assert IsHex64(signer.mac(PlaybackMessage(slug, exp)));
    PlaylistOpens(signer, slug, exp, asked);
    TokenedUris(data, syncOn, keep, exp, signer.SignPlayback(slug, exp));
    forall k | 0 <= k < |kept|
      ensures Opens(signer, slug, exp, Appender(exp, signer.SignPlayback(slug, exp))(kept[k].uri), kept[k].uri, later)
    {
      SurvivorOpens(signer, slug, exp, Entries(Split(data, '\n')), keep, k, later);
    }
  }
}
